/**
 * The inner select-column planner (`FastPaginate::getInnerSelectColumns`):
 * the columns the narrow, key-only inner query must still select so that
 * its ORDER BY and HAVING clauses keep working.
 */
module InnerSelect {
  import opened Wrappers
  import opened Strings
  import opened Sequences
  import opened QueryShape

  /** The exception `QueryIncompatibleWithFastPagination`. */
  datatype Incompatible = QueryIncompatibleWithFastPagination

  /** A reference is searched for both as written and as the grammar wraps it. */
  function Forms(g: Grammar, t: string): (fs: seq<string>)
    ensures t in fs && g.wrap(t) in fs
    ensures forall f :: f in fs ==> f == t || f == g.wrap(t)
  {
    [t, g.wrap(t)]
  }

  /** The alias targets from ORDER BY: both forms of each usable order column. */
  function OrderTargets(g: Grammar, orders: seq<Option<Column>>): (ts: seq<string>)
    ensures forall t :: t in ts ==>
      exists o :: o in orders && IsUsableOrder(o) && (t == Text(o.value) || t == g.wrap(Text(o.value)))
    ensures forall o :: o in orders && IsUsableOrder(o) ==>
      Text(o.value) in ts && g.wrap(Text(o.value)) in ts
  {
    if |orders| == 0 then []
    else if IsUsableOrder(orders[0]) then Forms(g, Text(orders[0].value)) + OrderTargets(g, orders[1..])
    else OrderTargets(g, orders[1..])
  }

  /** The alias targets from HAVING: both forms of every clause's column, null included. */
  function HavingTargets(g: Grammar, havings: seq<Option<Column>>): (ts: seq<string>)
    ensures forall t :: t in ts ==>
      exists h :: h in havings && (t == HavingText(h) || t == g.wrap(HavingText(h)))
    ensures forall h :: h in havings ==> HavingText(h) in ts && g.wrap(HavingText(h)) in ts
  {
    if |havings| == 0 then []
    else Forms(g, HavingText(havings[0])) + HavingTargets(g, havings[1..])
  }

  /** Every alias target, ORDER BY first, then HAVING. */
  function Targets(g: Grammar, q: Query): seq<string>
  {
    OrderTargets(g, q.orders) + HavingTargets(g, q.havings)
  }

  /** The rendered column reads `... as t ...` somewhere. */
  ghost predicate AliasedAs(g: Grammar, c: Column, t: string)
  {
    exists i :: OccursAt(Rendered(g, c), "as " + t, i)
  }

  /**
   * Which projected columns the inner query must keep: those aliased, in
   * either form, as a usable ORDER BY column or as any HAVING column.
   */
  ghost predicate Retained(g: Grammar, q: Query, c: Column)
  {
    || (exists o :: o in q.orders && IsUsableOrder(o) &&
         (AliasedAs(g, c, Text(o.value)) || AliasedAs(g, c, g.wrap(Text(o.value)))))
    || (exists h :: h in q.havings &&
         (AliasedAs(g, c, HavingText(h)) || AliasedAs(g, c, g.wrap(HavingText(h)))))
  }

  /** The two loops of the keep filter: some target appears after `as `. */
  function AliasesAny(rendered: string, targets: seq<string>): (b: bool)
    ensures b <==> exists t :: t in targets && Contains(rendered, "as " + t)
  {
    |targets| > 0 && (Contains(rendered, "as " + targets[0]) || AliasesAny(rendered, targets[1..]))
  }

  /** The keep filter's callback for a fixed list of targets. */
  function Keeper(g: Grammar, targets: seq<string>): (keep: Column -> bool)
    ensures forall c :: keep(c) <==> exists t :: t in targets && Contains(Rendered(g, c), "as " + t)
  {
    c => AliasesAny(Rendered(g, c), targets)
  }

  /** The projected columns the keep filter lets through, in projection order. */
  function KeptColumns(g: Grammar, q: Query): (kept: seq<Column>)
    ensures |kept| <= |q.columns|
    ensures forall c :: c in kept <==> c in q.columns && Keeper(g, Targets(g, q))(c)
  {
    Filter(Keeper(g, Targets(g, q)), q.columns)
  }

  /** The keep filter decides exactly `Retained`. */
  lemma KeeperIsRetained(g: Grammar, q: Query, c: Column)
    ensures Keeper(g, Targets(g, q))(c) <==> Retained(g, q, c)
  {
    var ts := Targets(g, q);
    if Keeper(g, ts)(c) {
      var t :| t in ts && Contains(Rendered(g, c), "as " + t);
      if t in OrderTargets(g, q.orders) {
        var o :| o in q.orders && IsUsableOrder(o) && (t == Text(o.value) || t == g.wrap(Text(o.value)));
        assert AliasedAs(g, c, t);
      } else {
        assert t in HavingTargets(g, q.havings);
        var h :| h in q.havings && (t == HavingText(h) || t == g.wrap(HavingText(h)));
        assert AliasedAs(g, c, t);
      }
    }
    if Retained(g, q, c) {
      if exists o :: o in q.orders && IsUsableOrder(o) &&
           (AliasedAs(g, c, Text(o.value)) || AliasedAs(g, c, g.wrap(Text(o.value)))) {
        var o :| o in q.orders && IsUsableOrder(o) &&
           (AliasedAs(g, c, Text(o.value)) || AliasedAs(g, c, g.wrap(Text(o.value))));
        var t := if AliasedAs(g, c, Text(o.value)) then Text(o.value) else g.wrap(Text(o.value));
        assert t in ts && Contains(Rendered(g, c), "as " + t);
      } else {
        var h :| h in q.havings && (AliasedAs(g, c, HavingText(h)) || AliasedAs(g, c, g.wrap(HavingText(h))));
        var t := if AliasedAs(g, c, HavingText(h)) then HavingText(h) else g.wrap(HavingText(h));
        assert t in ts && Contains(Rendered(g, c), "as " + t);
      }
    }
  }

  /** The kept columns are exactly the retained projected columns. */
  lemma KeptColumnsAreRetained(g: Grammar, q: Query)
    ensures forall c :: c in KeptColumns(g, q) <==> c in q.columns && Retained(g, q, c)
  {
    forall c {
      KeeperIsRetained(g, q, c);
    }
  }

  /**
   * The primary-key selector: `DISTINCT table.key` as a raw expression when
   * the GROUP BY can become DISTINCT, the plain column `table.key` otherwise.
   */
  function PrimaryKeySelect(q: Query): (c: Column)
    ensures c.Raw? <==> q.canReplaceGroupByWithDistinct
    ensures Text(c) == (if q.canReplaceGroupByWithDistinct then "DISTINCT " else "") + QualifiedKey(q)
  {
    if q.canReplaceGroupByWithDistinct then Raw("DISTINCT " + QualifiedKey(q))
    else Named(QualifiedKey(q))
  }

  /** Two columns listed after the key keep their projection order. */
  lemma PlanPairOrder(key: Column, kept: seq<Column>, columns: seq<Column>, keep: Column -> bool, i: nat, j: nat)
    requires kept == Filter(keep, columns)
    requires 1 <= i < j < |Unique([key] + kept)|
    requires Unique([key] + kept)[0] == key
    ensures Unique([key] + kept)[i] in columns && Unique([key] + kept)[j] in columns
    ensures FirstIndex(columns, Unique([key] + kept)[i]) < FirstIndex(columns, Unique([key] + kept)[j])
  {
    var s := [key] + kept;
    var r := Unique(s);
    var x, y := r[i], r[j];
    assert x != key && y != key;
    assert x in kept && y in kept;
    FirstIndexBehindHead(key, kept, x);
    FirstIndexBehindHead(key, kept, y);
    FilterKeepsOrder(keep, columns, x, y);
  }

  /** The columns the plan lists after the key: no repeats, in projection order. */
  lemma PlanShape(key: Column, kept: seq<Column>, columns: seq<Column>, keep: Column -> bool)
    requires kept == Filter(keep, columns)
    ensures |Unique([key] + kept)| > 0 && Unique([key] + kept)[0] == key
    ensures forall i, j :: 1 <= i < j < |Unique([key] + kept)| ==>
      Unique([key] + kept)[i] in columns && Unique([key] + kept)[j] in columns &&
      FirstIndex(columns, Unique([key] + kept)[i]) < FirstIndex(columns, Unique([key] + kept)[j])
  {
    UniqueKeepsHead([key] + kept);
    forall i, j | 1 <= i < j < |Unique([key] + kept)|
      ensures Unique([key] + kept)[i] in columns && Unique([key] + kept)[j] in columns &&
        FirstIndex(columns, Unique([key] + kept)[i]) < FirstIndex(columns, Unique([key] + kept)[j])
    {
      PlanPairOrder(key, kept, columns, keep, i, j);
    }
  }

  /**
   * `getInnerSelectColumns`: the key selector first, then the projected
   * columns that an ORDER BY or HAVING alias needs, each once and in
   * projection order; incompatible exactly when a column it would keep
   * carries a `?` placeholder.
   */
  function InnerSelectColumns(g: Grammar, q: Query): (r: Result<seq<Column>, Incompatible>)
    ensures r.Failure? <==> exists c :: c in q.columns && Retained(g, q, c) && '?' in Text(c)
    ensures r.Success? ==> |r.value| > 0 && r.value[0] == PrimaryKeySelect(q)
    ensures r.Success? ==> NoDuplicates(r.value)
    ensures r.Success? ==> forall c :: c in r.value ==>
      c == PrimaryKeySelect(q) || (c in q.columns && Retained(g, q, c))
    ensures r.Success? ==> forall c :: c in q.columns && Retained(g, q, c) ==> c in r.value
    ensures r.Success? ==> forall i, j :: 1 <= i < j < |r.value| ==>
      r.value[i] in q.columns && r.value[j] in q.columns &&
      FirstIndex(q.columns, r.value[i]) < FirstIndex(q.columns, r.value[j])
  {
    var kept := KeptColumns(g, q);
    KeptColumnsAreRetained(g, q);
    forall c | c in kept {
      ContainsChar(Text(c), '?');
    }
    if exists c :: c in kept && Contains(Text(c), "?") then
      Failure(QueryIncompatibleWithFastPagination)
    else
      PlanShape(PrimaryKeySelect(q), kept, q.columns, Keeper(g, Targets(g, q)));
      Success(Unique([PrimaryKeySelect(q)] + kept))
  }

  /**
   * With no usable ORDER BY column and no HAVING clause nothing is kept:
   * the plan is the key selector alone.
   */
  lemma NoTargetsSelectsKeyOnly(g: Grammar, q: Query)
    requires forall o :: o in q.orders ==> !IsUsableOrder(o)
    requires |q.havings| == 0
    ensures InnerSelectColumns(g, q) == Success([PrimaryKeySelect(q)])
  {
    var kept := KeptColumns(g, q);
    KeptColumnsAreRetained(g, q);
    forall c | c in q.columns
      ensures !Keeper(g, Targets(g, q))(c)
    {
      KeeperIsRetained(g, q, c);
    }
    FilterNone(Keeper(g, Targets(g, q)), q.columns);
    KeyOnlyPlan(g, q);
  }

  /** Without a placeholder among the kept columns the plan is the key, then the kept columns, deduplicated. */
  lemma PlanWithoutPlaceholder(g: Grammar, q: Query)
    requires forall c :: c in KeptColumns(g, q) ==> '?' !in Text(c)
    ensures InnerSelectColumns(g, q) == Success(Unique([PrimaryKeySelect(q)] + KeptColumns(g, q)))
  {
    forall c | c in KeptColumns(g, q) {
      ContainsChar(Text(c), '?');
    }
  }

  /** A single kept column without a placeholder follows the key selector. */
  lemma PlanOfOneKeptColumn(g: Grammar, q: Query, c: Column)
    requires KeptColumns(g, q) == [c]
    requires c != PrimaryKeySelect(q) && '?' !in Text(c)
    ensures InnerSelectColumns(g, q) == Success([PrimaryKeySelect(q), c])
  {
    var key := PrimaryKeySelect(q);
    PlanWithoutPlaceholder(g, q);
    assert [key] + KeptColumns(g, q) == [key, c];
    UniqueOfDistinctPair(key, c);
  }

  /** When nothing is kept the plan is the key selector alone. */
  lemma KeyOnlyPlan(g: Grammar, q: Query)
    requires KeptColumns(g, q) == []
    ensures InnerSelectColumns(g, q) == Success([PrimaryKeySelect(q)])
  {
    var key := PrimaryKeySelect(q);
    assert [key] + KeptColumns(g, q) == [key];
    assert [key][..0] == [];
    assert Unique([key][..0]) == [];
    assert Unique([key]) == [key];
  }

  /** A query that projects nothing (`select *`) selects the key alone in the inner query. */
  lemma EmptyProjectionSelectsKeyOnly(g: Grammar, q: Query)
    requires q.columns == []
    ensures InnerSelectColumns(g, q) == Success([PrimaryKeySelect(q)])
  {
    assert KeptColumns(g, q) == Filter(Keeper(g, Targets(g, q)), []);
    KeyOnlyPlan(g, q);
  }

  /**
   * A projected column the keep filter drops changes nothing, wherever it
   * stands and whatever it contains, a `?` placeholder included.
   */
  lemma DroppedColumnIsIgnored(g: Grammar, q: Query, k: nat, c: Column)
    requires k <= |q.columns|
    requires !Retained(g, q, c)
    ensures InnerSelectColumns(g, q.(columns := q.columns[..k] + [c] + q.columns[k..])) == InnerSelectColumns(g, q)
  {
    var q' := q.(columns := q.columns[..k] + [c] + q.columns[k..]);
    assert Targets(g, q') == Targets(g, q);
    KeeperIsRetained(g, q, c);
    FilterSkips(Keeper(g, Targets(g, q)), q.columns[..k], c, q.columns[k..]);
    assert q.columns[..k] + q.columns[k..] == q.columns;
    SamePlanFromSameKept(g, q', q);
  }

  /** The plan depends on the query only through the kept columns and the key selector. */
  lemma SamePlanFromSameKept(g: Grammar, q1: Query, q2: Query)
    requires KeptColumns(g, q1) == KeptColumns(g, q2)
    requires PrimaryKeySelect(q1) == PrimaryKeySelect(q2)
    ensures InnerSelectColumns(g, q1) == InnerSelectColumns(g, q2)
  {
  }

  /**
   * A HAVING clause without a column (a raw or nested HAVING) contributes
   * the empty alias, so every projected column whose rendering contains
   * `as ` is kept.
   */
  lemma ColumnlessHavingKeepsEveryAlias(g: Grammar, q: Query, c: Column)
    requires None in q.havings
    requires Contains(Rendered(g, c), "as ")
    ensures Retained(g, q, c)
  {
    assert "as " + HavingText(None) == "as ";
    assert AliasedAs(g, c, HavingText(None));
  }
}
