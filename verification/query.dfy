/**
 * The read-only view of a query that the planner works from: the model's
 * table and key, the projected columns, the ORDER BY and HAVING clauses,
 * and the grammar that renders column references to SQL text.
 */
module QueryShape {
  import opened Wrappers

  /** A column reference: a plain column name, or a raw SQL expression (`DB::raw`). */
  datatype Column = Named(name: string) | Raw(sql: string)

  /** The dialect collaborator: `wrap` quotes an identifier (or an `x as y` clause). */
  datatype Grammar = Grammar(wrap: string -> string)

  /**
   * What the planner and the pipeline read off the Eloquent builder.
   * `orders` holds the `column` entry of each ORDER BY clause (None for a raw
   * ORDER BY, which has no column); `havings` does the same for HAVING.
   * `canReplaceGroupByWithDistinct` is the answer of the builder macro of
   * that name: the query groups by exactly the primary key.
   */
  datatype Query = Query(
    table: string,
    key: string,
    keyType: string,
    columns: seq<Column>,
    orders: seq<Option<Column>>,
    havings: seq<Option<Column>>,
    canReplaceGroupByWithDistinct: bool)

  /** The primary key qualified by its table, `table.key`. */
  function QualifiedKey(q: Query): string
  {
    q.table + "." + q.key
  }

  /** The text of a reference before quoting: an expression's value, or the bare column name. */
  function Text(c: Column): (t: string)
    ensures c == Named(t) || c == Raw(t)
  {
    match c
    case Named(n) => n
    case Raw(v) => v
  }

  /** The text the keep filter searches: an expression's value, or the wrapped column name. */
  function Rendered(g: Grammar, c: Column): (r: string)
    ensures c.Raw? ==> r == Text(c)
    ensures c.Named? ==> r == g.wrap(Text(c))
  {
    match c
    case Named(n) => g.wrap(n)
    case Raw(v) => v
  }

  /** PHP's falsy strings: the only strings a callback-less `filter()` drops. */
  predicate IsFalsyString(s: string)
  {
    s == "" || s == "0"
  }

  /**
   * Truthiness under a callback-less `filter()`: null, "" and "0" are
   * dropped, an expression object is always kept.
   */
  predicate IsUsableOrder(o: Option<Column>): (b: bool)
    ensures b <==> o.Some? && (o.value.Raw? || !IsFalsyString(Text(o.value)))
  {
    match o
    case None => false
    case Some(Named(n)) => n != "" && n != "0"
    case Some(Raw(_)) => true
  }

  /**
   * The text of a HAVING clause's column. A clause without one (a raw or
   * nested HAVING) contributes PHP's null, which string interpolation and
   * the grammar both treat as the empty string.
   */
  function HavingText(h: Option<Column>): (t: string)
    ensures h.None? ==> t == ""
    ensures h.Some? ==> t == Text(h.value)
  {
    match h
    case None => ""
    case Some(c) => Text(c)
  }

  /** The integer-like key types for which the integer membership filter is used. */
  predicate IsIntegerKeyType(keyType: string)
  {
    keyType == "int" || keyType == "integer"
  }
}
