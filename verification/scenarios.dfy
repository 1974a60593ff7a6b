/**
 * Lemmas proved about concrete queries: a `posts` table keyed by an
 * integer `id`, rendered by a grammar that quotes identifiers in backticks.
 */
module Scenarios {
  import opened Wrappers
  import opened Strings
  import opened Sequences
  import opened QueryShape
  import opened InnerSelect
  import opened Pagination

  /** A simplified MySQL grammar: `wrap` puts backticks around its argument. */
  function Backticks(): Grammar
  {
    Grammar(t => "`" + t + "`")
  }

  /** `posts` with the given projection, ORDER BY and GROUP BY decision, no HAVING. */
  function Posts(columns: seq<Column>, orders: seq<Option<Column>>, groupedByKey: bool): Query
  {
    Query("posts", "id", "int", columns, orders, [], groupedByKey)
  }

  /**
   * `Post::orderBy('created_at', 'desc')` without a select: nothing is
   * projected, so the inner query selects the key alone.
   */
  lemma OrderedByCreatedAtSelectsKeyOnly()
    ensures InnerSelectColumns(Backticks(), Posts([], [Some(Named("created_at"))], false))
      == Success([Named("posts.id")])
  {
    var q := Posts([], [Some(Named("created_at"))], false);
    assert QualifiedKey(q) == "posts.id";
    EmptyProjectionSelectsKeyOnly(Backticks(), q);
  }

  /** `Post::select('title', DB::raw('count(votes.id) as score'))->orderBy('score')`. */
  function ScoreQuery(): Query
  {
    Posts([Named("title"), Raw("count(votes.id) as score")], [Some(Named("score"))], false)
  }

  /** The keep filter's callback for `ScoreQuery`. */
  function ScoreKeeper(): Column -> bool
  {
    Keeper(Backticks(), Targets(Backticks(), ScoreQuery()))
  }

  /** The `score` expression is aliased as the ORDER BY column. */
  lemma ScoreIsKept()
    ensures ScoreKeeper()(Raw("count(votes.id) as score"))
  {
    var g, score := Backticks(), Raw("count(votes.id) as score");
    assert "count(votes.id) as score"[16..24] == "as score";
    assert OccursAt(Rendered(g, score), "as " + "score", 16);
    KeeperIsRetained(g, ScoreQuery(), score);
  }

  /** The wrapped `title` is too short to contain any `as` alias of the query. */
  lemma TitleIsDropped()
    ensures !ScoreKeeper()(Named("title"))
  {
    assert |Rendered(Backticks(), Named("title"))| == 7;
    KeeperIsRetained(Backticks(), ScoreQuery(), Named("title"));
  }

  /** Of `ScoreQuery`'s projection only the `score` expression is kept. */
  lemma ScoreProjectionKept(g: Grammar, q: Query)
    requires g == Backticks() && q == ScoreQuery()
    ensures KeptColumns(g, q) == [Raw("count(votes.id) as score")]
  {
    var title, score := Named("title"), Raw("count(votes.id) as score");
    var keep := ScoreKeeper();
    ScoreIsKept();
    TitleIsDropped();
    assert [title, score][1..] == [score];
    assert Filter(keep, [title, score]) == Filter(keep, [score]);
    assert Filter(keep, [score]) == [score] + Filter(keep, []);
  }

  /** The `score` expression binds nothing. */
  lemma ScoreHasNoPlaceholder()
    ensures '?' !in "count(votes.id) as score"
  {
  }

  /**
   * Ordering by a computed alias keeps the aliased expression in the inner
   * query and drops the plain `title` projection. The grammar and query are
   * parameters pinned by the precondition, rather than literals in the
   * conclusion, so that the verifier does not unfold the planner on
   * constant arguments.
   */
  lemma AliasedOrderIsKept(g: Grammar, q: Query)
    requires g == Backticks() && q == ScoreQuery()
    ensures InnerSelectColumns(g, q) == Success([Named("posts.id"), Raw("count(votes.id) as score")])
  {
    var score := Raw("count(votes.id) as score");
    ScoreProjectionKept(g, q);
    assert PrimaryKeySelect(q) == Named("posts.id");
    ScoreHasNoPlaceholder();
    PlanOfOneKeptColumn(g, q, score);
  }

  /**
   * A kept alias over an expression with a bound `?` makes the planner
   * refuse, and the call falls back to plain `paginate` with the caller's
   * arguments.
   */
  lemma KeptPlaceholderFallsBack<K, R>(fetchKeys: InnerQuery -> InnerPage<K>, fetchRows: OuterQuery<K> -> seq<R>)
    ensures
      var pinned := Raw("if(id = ?, 1, 0) as pinned");
      var q := Posts([pinned], [Some(Named("pinned"))], false);
      var req := Request(Some(15), ["*"], "page", Some(2), DefaultCount);
      FastPaginate(Backticks(), q, req, fetchKeys, fetchRows) == Fallback(PaginateCall(LengthAware, Some(15), ["*"], "page", Some(2)))
  {
    var g := Backticks();
    var pinned := Raw("if(id = ?, 1, 0) as pinned");
    var q := Posts([pinned], [Some(Named("pinned"))], false);
    assert "if(id = ?, 1, 0) as pinned"[17..26] == "as pinned";
    assert OccursAt(Rendered(g, pinned), "as " + "pinned", 17);
    assert Retained(g, q, pinned);
    assert Text(pinned)[8] == '?';
  }

  /**
   * A query grouped by its key alone selects `DISTINCT posts.id` in an inner
   * query whose GROUP BY is dropped.
   */
  lemma GroupedByKeyUsesDistinct<K, R>(fetchKeys: InnerQuery -> InnerPage<K>, fetchRows: OuterQuery<K> -> seq<R>)
    ensures
      var q := Posts([], [], true);
      var o := SimpleFastPaginate(Backticks(), q, Request(Some(5), ["*"], "page", None, DefaultCount), fetchKeys, fetchRows);
      !o.Fallback? && o.inner.select == [Raw("DISTINCT posts.id")] && o.inner.withoutGroupBy
  {
    var q := Posts([], [], true);
    assert "DISTINCT " + QualifiedKey(q) == "DISTINCT posts.id";
    EmptyProjectionSelectsKeyOnly(Backticks(), q);
  }
}
