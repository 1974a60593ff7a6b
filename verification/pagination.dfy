/**
 * The decision procedure of the `paginate` closure and the two result
 * builders of `fastPaginate` and `simpleFastPaginate`. The database is a
 * pair of parameters: `fetchKeys` runs the inner, key-only query and returns
 * its length-aware page, `fetchRows` runs the outer full-row query and
 * returns its items.
 */
module Pagination {
  import opened Wrappers
  import opened Sequences
  import opened QueryShape
  import opened InnerSelect

  /** Which builder method a call names: `paginate` or `simplePaginate`. */
  datatype Mode = LengthAware | Simple

  /** The optional override for how the inner count subquery is built. */
  datatype CountQuery = DefaultCount | CustomCount(name: string)

  /** The closure's arguments. `perPage` and `page` are null (None) by default. */
  datatype Request = Request(
    perPage: Option<int>,
    columns: seq<string>,
    pageName: string,
    page: Option<int>,
    countQuery: CountQuery)

  /** A call of the unmodified `paginate` / `simplePaginate` builder method. */
  datatype PaginateCall = PaginateCall(
    mode: Mode,
    perPage: Option<int>,
    columns: seq<string>,
    pageName: string,
    page: Option<int>)

  /**
   * The inner query: the planned columns, the GROUP BY dropped when it is
   * replaced by DISTINCT, paginated with a subquery count.
   */
  datatype InnerQuery = InnerQuery(
    select: seq<Column>,
    withoutGroupBy: bool,
    perPage: Option<int>,
    pageName: string,
    page: Option<int>,
    countQuery: CountQuery)

  /** The inner length-aware paginator: the raw key of each row and its statistics. */
  datatype InnerPage<K> = InnerPage(
    keys: seq<K>,
    total: nat,
    perPage: int,
    currentPage: int,
    hasMorePages: bool)

  /** The key-membership filter added to the original query. */
  datatype KeyFilter<K> =
    | WhereIntegerInRaw(column: string, ids: seq<K>)
    | WhereIn(column: string, ids: seq<K>)

  /** The outer query: the original query, the membership filter, a simple fetch. */
  datatype OuterQuery<K> = OuterQuery(filter: KeyFilter<K>, call: PaginateCall)

  /** The paginator handed back to the caller of a rewritten query. */
  datatype Page<R> =
    | LengthAwarePage(items: seq<R>, total: nat, perPage: int, currentPage: int)
    | SimplePage(items: seq<R>, perPage: int, currentPage: int, hasMorePages: bool)

  /**
   * What one call does: fall back to the unmodified method, return the empty
   * inner page as it is, or run both queries and combine them.
   */
  datatype Outcome<K, R> =
    | Fallback(call: PaginateCall)
    | ShortCircuit(inner: InnerQuery, page: InnerPage<K>)
    | Rewritten(inner: InnerQuery, outer: OuterQuery<K>, result: Page<R>)

  /** The reserved page size under which the rewrite never applies. */
  const Unlimited: int := -1

  /** The unmodified pagination call: same arguments, no count override. */
  function FallbackCall(mode: Mode, req: Request): (call: PaginateCall)
    ensures call.mode == mode && call.perPage == req.perPage && call.columns == req.columns
    ensures call.pageName == req.pageName && call.page == req.page
  {
    PaginateCall(mode, req.perPage, req.columns, req.pageName, req.page)
  }

  /**
   * `fastPaginate`'s builder: total, page size and current page from the
   * inner paginator, items from the outer fetch.
   */
  function LengthAwareResult<K, R>(items: seq<R>, inner: InnerPage<K>): (p: Page<R>)
    ensures p.LengthAwarePage? && p.items == items
    ensures p.total == inner.total && p.perPage == inner.perPage && p.currentPage == inner.currentPage
  {
    LengthAwarePage(items, inner.total, inner.perPage, inner.currentPage)
  }

  /**
   * `simpleFastPaginate`'s builder: page size, current page and the
   * has-more flag from the inner paginator, items from the outer fetch.
   */
  function SimpleResult<K, R>(items: seq<R>, inner: InnerPage<K>): (p: Page<R>)
    ensures p.SimplePage? && p.items == items
    ensures p.perPage == inner.perPage && p.currentPage == inner.currentPage
    ensures p.hasMorePages == inner.hasMorePages
  {
    SimplePage(items, inner.perPage, inner.currentPage, inner.hasMorePages)
  }

  /** The builder the mode selects. */
  function BuildResult<K, R>(mode: Mode, items: seq<R>, inner: InnerPage<K>): (p: Page<R>)
    ensures p.items == items && p.perPage == inner.perPage && p.currentPage == inner.currentPage
    ensures p.LengthAwarePage? <==> mode == LengthAware
    ensures p.LengthAwarePage? ==> p.total == inner.total
    ensures p.SimplePage? ==> p.hasMorePages == inner.hasMorePages
  {
    match mode
    case LengthAware => LengthAwareResult(items, inner)
    case Simple => SimpleResult(items, inner)
  }

  /** The membership filter: the integer form for integer-like keys, `whereIn` otherwise. */
  function MembershipFilter<K>(q: Query, ids: seq<K>): (f: KeyFilter<K>)
    ensures f.WhereIntegerInRaw? <==> IsIntegerKeyType(q.keyType)
    ensures f.column == QualifiedKey(q) && f.ids == ids
  {
    if IsIntegerKeyType(q.keyType) then WhereIntegerInRaw(QualifiedKey(q), ids)
    else WhereIn(QualifiedKey(q), ids)
  }

  /**
   * The `paginate` closure. The unlimited check comes before the planner; an
   * incompatible plan and an unlimited page size fall back to the unmodified
   * call; an empty inner page is returned as it is; otherwise the outer
   * query fetches page 1 of the rows with the inner keys, and the result
   * takes its statistics from the inner page and its items from the outer.
   */
  function Paginate<K, R>(
    mode: Mode, g: Grammar, q: Query, req: Request,
    fetchKeys: InnerQuery -> InnerPage<K>, fetchRows: OuterQuery<K> -> seq<R>): (o: Outcome<K, R>)
    ensures o.Fallback? <==> req.perPage == Some(Unlimited) || InnerSelectColumns(g, q).Failure?
    ensures o.Fallback? ==> o.call == FallbackCall(mode, req)
    ensures !o.Fallback? ==>
      && o.inner.select == InnerSelectColumns(g, q).value
      && o.inner.withoutGroupBy == q.canReplaceGroupByWithDistinct
      && o.inner.perPage == req.perPage && o.inner.pageName == req.pageName
      && o.inner.page == req.page && o.inner.countQuery == req.countQuery
    ensures o.ShortCircuit? <==> !o.Fallback? && |fetchKeys(o.inner).keys| == 0
    ensures o.ShortCircuit? ==> o.page == fetchKeys(o.inner)
    ensures o.Rewritten? ==>
      && o.outer.filter == MembershipFilter(q, fetchKeys(o.inner).keys)
      && o.outer.call == PaginateCall(Simple, req.perPage, req.columns, req.pageName, Some(1))
      && o.result.items == fetchRows(o.outer)
      && o.result == BuildResult(mode, fetchRows(o.outer), fetchKeys(o.inner))
  {
    if req.perPage == Some(Unlimited) then
      Fallback(FallbackCall(mode, req))
    else
      match InnerSelectColumns(g, q)
      case Failure(_) => Fallback(FallbackCall(mode, req))
      case Success(select) =>
        var inner := InnerQuery(select, q.canReplaceGroupByWithDistinct,
                                req.perPage, req.pageName, req.page, req.countQuery);
        var page := fetchKeys(inner);
        if |page.keys| <= 0 then
          ShortCircuit(inner, page)
        else
          var outer := OuterQuery(MembershipFilter(q, page.keys),
                                  PaginateCall(Simple, req.perPage, req.columns, req.pageName, Some(1)));
          Rewritten(inner, outer, BuildResult(mode, fetchRows(outer), page))
  }

  /** `fastPaginate`: the closure with the length-aware builder. */
  function FastPaginate<K, R>(
    g: Grammar, q: Query, req: Request,
    fetchKeys: InnerQuery -> InnerPage<K>, fetchRows: OuterQuery<K> -> seq<R>): (o: Outcome<K, R>)
    ensures o.Fallback? ==> o.call.mode == LengthAware
    ensures o.Rewritten? ==>
      var stats := fetchKeys(o.inner);
      o.result == LengthAwarePage(fetchRows(o.outer), stats.total, stats.perPage, stats.currentPage)
  {
    Paginate(LengthAware, g, q, req, fetchKeys, fetchRows)
  }

  /** `simpleFastPaginate`: the closure with the simple builder. */
  function SimpleFastPaginate<K, R>(
    g: Grammar, q: Query, req: Request,
    fetchKeys: InnerQuery -> InnerPage<K>, fetchRows: OuterQuery<K> -> seq<R>): (o: Outcome<K, R>)
    ensures o.Fallback? ==> o.call.mode == Simple
    ensures o.Rewritten? ==>
      var stats := fetchKeys(o.inner);
      o.result == SimplePage(fetchRows(o.outer), stats.perPage, stats.currentPage, stats.hasMorePages)
  {
    Paginate(Simple, g, q, req, fetchKeys, fetchRows)
  }

  /**
   * Whenever the inner query runs, it selects the key first, and its key
   * selector is the DISTINCT form exactly when its GROUP BY is dropped.
   */
  lemma InnerQueryLeadsWithKey<K, R>(
    mode: Mode, g: Grammar, q: Query, req: Request,
    fetchKeys: InnerQuery -> InnerPage<K>, fetchRows: OuterQuery<K> -> seq<R>)
    ensures var o := Paginate(mode, g, q, req, fetchKeys, fetchRows);
      !o.Fallback? ==>
        && |o.inner.select| > 0 && o.inner.select[0] == PrimaryKeySelect(q)
        && NoDuplicates(o.inner.select)
        && (o.inner.select[0].Raw? <==> o.inner.withoutGroupBy)
  {
  }

  /**
   * Below the unlimited page size the rewrite falls back exactly when a
   * column the planner keeps carries a `?` placeholder.
   */
  lemma FallbackIffKeptPlaceholder<K, R>(
    mode: Mode, g: Grammar, q: Query, req: Request,
    fetchKeys: InnerQuery -> InnerPage<K>, fetchRows: OuterQuery<K> -> seq<R>)
    requires req.perPage != Some(Unlimited)
    ensures Paginate(mode, g, q, req, fetchKeys, fetchRows).Fallback? <==>
      exists c :: c in q.columns && Retained(g, q, c) && '?' in Text(c)
  {
  }

  /**
   * If the outer fetch honours the membership filter, every item of a
   * rewritten page has one of the keys the inner page selected.
   */
  lemma ItemsComeFromInnerKeys<K, R>(
    mode: Mode, g: Grammar, q: Query, req: Request,
    fetchKeys: InnerQuery -> InnerPage<K>, fetchRows: OuterQuery<K> -> seq<R>, keyOf: R -> K)
    requires forall oq: OuterQuery<K>, i :: 0 <= i < |fetchRows(oq)| ==> keyOf(fetchRows(oq)[i]) in oq.filter.ids
    ensures var o := Paginate(mode, g, q, req, fetchKeys, fetchRows);
      o.Rewritten? ==> forall row :: row in o.result.items ==> keyOf(row) in fetchKeys(o.inner).keys
  {
    var o := Paginate(mode, g, q, req, fetchKeys, fetchRows);
    if o.Rewritten? {
      // rebuilding the outer query from its parts lets the assumption about
      // `fetchRows` be applied to it
      var ids := fetchKeys(o.inner).keys;
      var oq := OuterQuery(MembershipFilter(q, ids), PaginateCall(Simple, req.perPage, req.columns, req.pageName, Some(1)));
      assert oq == o.outer;
      forall row | row in o.result.items
        ensures keyOf(row) in ids
      {
        var i :| 0 <= i < |fetchRows(oq)| && fetchRows(oq)[i] == row;
        assert keyOf(fetchRows(oq)[i]) in oq.filter.ids;
      }
    }
  }

  /**
   * The two entry points issue the same queries and return the same items;
   * only the statistics they copy differ.
   */
  lemma EntryPointsShareQueries<K, R>(
    g: Grammar, q: Query, req: Request,
    fetchKeys: InnerQuery -> InnerPage<K>, fetchRows: OuterQuery<K> -> seq<R>)
    ensures var a := FastPaginate(g, q, req, fetchKeys, fetchRows);
      var b := SimpleFastPaginate(g, q, req, fetchKeys, fetchRows);
      && (a.Fallback? <==> b.Fallback?)
      && (a.ShortCircuit? <==> b.ShortCircuit?)
      && (a.ShortCircuit? ==> a == b)
      && (a.Rewritten? ==> b.Rewritten? && a.inner == b.inner && a.outer == b.outer && a.result.items == b.result.items)
  {
  }
}
