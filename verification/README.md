# fast-paginate: the query-rewrite planner, modelled in Dafny

The `fastPaginate` and `simpleFastPaginate` builder macros make deep
offset/limit pagination cheaper. They split one paginated Eloquent query into
two queries. The first is a narrow inner query that selects only the primary
key, plus the projected columns that its ORDER BY and HAVING clauses need. It
is paginated by a custom length-aware paginator that counts over the inner
query as a subquery, and yields this page's keys and statistics. The
second is an outer query: the original query with a `table.key IN (keys)`
filter, fetched as page 1 at the same page size. The result takes its
statistics from the inner page and its items from the outer fetch. The rewrite
is abandoned for an unlimited page size (`perPage === -1`). It is also
abandoned when a column the inner query would copy carries a `?` binding
placeholder. In both cases the unmodified `paginate` or `simplePaginate` runs
instead.

The project models two pieces:

- `planner.dfy`, module `InnerSelect`: the inner select-column planner
  `getInnerSelectColumns`. It collects alias targets, runs the keep filter and
  the placeholder check, and prepends the key selector (`DISTINCT table.key`
  or `table.key`). Then it drops duplicates and keeps first-occurrence order.
- `pagination.dfy`, module `Pagination`: the decision procedure of the
  `paginate` closure, and the two result builders. The database is given as
  two function parameters. `fetchKeys` runs the inner query and returns its
  length-aware page: the raw keys, total, per-page, current page and
  has-more flag. `fetchRows` runs the outer query and returns its items. The
  closure then becomes a pure function. It returns an `Outcome`:
  - `Fallback`, carrying the unmodified call;
  - `ShortCircuit`, which hands back the empty inner page as it is;
  - `Rewritten`, carrying the inner query, the outer query and the combined
    page.

Supporting modules:

- `wrappers.dfy` has `Option` and `Result`. The planner's exception becomes a
  `Result` failure.
- `strings.dfy` has `str_contains` as `Strings.Contains`.
- `sequences.dfy` has the collection `filter` and `unique` steps.
- `query.dfy` holds the query view. A column is
  `Named(name) | Raw(sql)`. The grammar's `wrap` is a function field of
  `Grammar`.
- `scenarios.dfy` holds lemmas proved about concrete `posts` queries.

Behaviours of the code that the model keeps:

- The keep filter searches the grammar-wrapped name of a plain column. The
  placeholder check looks at its unwrapped name.
- ORDER BY entries pass through a callback-less `filter()`, so null, `""` and
  `"0"` columns are dropped.
- HAVING entries are not filtered. A HAVING without a column contributes the
  empty alias, so every column whose rendering contains `as ` is kept.
- The fallback call does not pass `countQueryCallback` on.
- `simpleFastPaginate` returns the inner length-aware page itself when that
  page has no keys.
- Only projected columns whose text contains `as <alias>` are kept. A
  `select *` query has no projected columns, so the inner query selects the
  key alone (`Scenarios.OrderedByCreatedAtSelectsKeyOnly`).

## Model

| member | source | states |
|---|---|---|
| QueryShape.Text | src/FastPaginate.php:206-208 | a column's unquoted text is the name of a plain column or the SQL of an expression, as `getValue` yields it |
| QueryShape.Rendered | src/FastPaginate.php:185 | the keep filter searches an expression's SQL as written and a plain column's name as the grammar wraps it |
| QueryShape.IsUsableOrder | src/FastPaginate.php:144-146 | an ORDER BY entry survives the callback-less `filter()` exactly when it has a column that is an expression or whose name is not a falsy PHP string (`""` or `"0"`) |
| QueryShape.HavingText | src/FastPaginate.php:161-164 | a HAVING entry without a column contributes the empty string, one with a column its unquoted text |
| Strings.Contains | src/FastPaginate.php:189-197 | `str_contains` holds exactly when the needle occurs at some offset of the haystack |
| Strings.ContainsChar | src/FastPaginate.php:210 | searching for the one-character needle `?` is a membership test |
| Sequences.Filter | src/FastPaginate.php:183-204 | the filtered collection holds exactly the elements that pass the callback, and no more elements than the input |
| Sequences.FilterKeepsOrder | src/FastPaginate.php:183-204 | the filter keeps the relative order of the columns it keeps |
| Sequences.Unique | src/FastPaginate.php:215-216 | `unique()->values()` has no repeats, has the same values as its input, and lists them by first occurrence |
| Sequences.UniqueKeepsHead | src/FastPaginate.php:214-215 | the value prepended first stays first after `unique` |
| Sequences.UniqueIsDetermined | src/FastPaginate.php:215-216 | any repeat-free list of the same values in first-occurrence order is exactly `unique`'s result |
| InnerSelect.OrderTargets | src/FastPaginate.php:144-159 | the ORDER BY targets are both forms (raw and wrapped) of every usable order column, and nothing else |
| InnerSelect.HavingTargets | src/FastPaginate.php:161-173 | the HAVING targets are both forms of every HAVING column, a column-less clause included, and nothing else |
| InnerSelect.Forms | src/FastPaginate.php:154-157 | each order or HAVING reference is searched for in two forms, as written and as the grammar wraps it, and no other |
| InnerSelect.AliasesAny | src/FastPaginate.php:186-200 | the two loops accept a column exactly when some target appears after `as ` in its rendering |
| InnerSelect.Keeper | src/FastPaginate.php:184-204 | the keep callback accepts a column exactly when its rendering contains `as ` followed by some target |
| InnerSelect.KeptColumns | src/FastPaginate.php:183-204 | the kept columns are at most the projection, and are exactly the projected columns the keep callback accepts |
| InnerSelect.KeeperIsRetained | src/FastPaginate.php:183-204 | the keep callback accepts a column exactly when it is aliased as a usable ORDER BY column or a HAVING column, in either form |
| InnerSelect.KeptColumnsAreRetained | src/FastPaginate.php:183-204 | the kept columns are exactly the projected columns that some alias target needs |
| InnerSelect.PrimaryKeySelect | src/FastPaginate.php:177-181 | the key selector is the raw `DISTINCT table.key` exactly when the GROUP BY can be replaced by DISTINCT, the plain `table.key` otherwise |
| InnerSelect.InnerSelectColumns | src/FastPaginate.php:134-218 | incompatible exactly when a kept column's text has `?`; otherwise the key selector first, no repeats, exactly the key and the retained columns, kept columns in projection order |
| InnerSelect.PlanShape | src/FastPaginate.php:214-217 | after prepend and unique, the key stays first and the later columns keep projection order |
| InnerSelect.NoTargetsSelectsKeyOnly | src/FastPaginate.php:144-214 | with no usable ORDER BY column and no HAVING clause, the plan is the key selector alone |
| InnerSelect.EmptyProjectionSelectsKeyOnly | src/FastPaginate.php:183-217 | a query with no projected columns plans the key selector alone |
| InnerSelect.DroppedColumnIsIgnored | src/FastPaginate.php:205-213 | inserting a column the filter drops changes nothing, even when it contains `?` |
| InnerSelect.ColumnlessHavingKeepsEveryAlias | src/FastPaginate.php:161-173 | a HAVING clause without a column makes every column whose rendering contains `as ` retained |
| Pagination.FallbackCall | src/FastPaginate.php:69-77 | the fallback calls the same method with the caller's perPage, columns, pageName and page |
| Pagination.LengthAwareResult | src/FastPaginate.php:17-25 | the length-aware result has the outer items and the inner total, perPage and currentPage |
| Pagination.SimpleResult | src/FastPaginate.php:30-37 | the simple result has the outer items, the inner perPage and currentPage, and the inner has-more flag |
| Pagination.BuildResult | src/FastPaginate.php:125 | the result keeps the outer items with the inner perPage and currentPage, is length-aware exactly in the length-aware mode, and then carries the inner total, otherwise the inner has-more flag |
| Pagination.MembershipFilter | src/FastPaginate.php:114-118 | the integer-raw filter is used exactly for key type `int` or `integer`, on `table.key` with the inner keys |
| Pagination.Paginate | src/FastPaginate.php:40-127 | falls back exactly for perPage -1 or an incompatible plan. Short-circuits exactly on an empty key list, returning the inner page unchanged. Otherwise the outer fetch is page 1 at the same size, with stats from inner and items from outer |
| Pagination.FastPaginate | src/FastPaginate.php:15-26 | falls back to `paginate`; a rewritten result is a length-aware page with the inner total, perPage and currentPage and the outer items |
| Pagination.SimpleFastPaginate | src/FastPaginate.php:28-38 | falls back to `simplePaginate`; a rewritten result is a simple page with the inner has-more flag and the outer items |
| Pagination.InnerQueryLeadsWithKey | src/FastPaginate.php:82-96 | whenever the inner query runs, it selects the key first and without repeats, and it is DISTINCT exactly when its GROUP BY is dropped |
| Pagination.FallbackIffKeptPlaceholder | src/FastPaginate.php:73-77 | below the unlimited size, the call falls back exactly when a retained projected column contains `?` |
| Pagination.ItemsComeFromInnerKeys | src/FastPaginate.php:108-123 | if the outer fetch honours the membership filter, every returned item has one of the inner page's keys |
| Pagination.EntryPointsShareQueries | src/FastPaginate.php:15-38 | both entry points issue the same inner and outer queries and return the same items |
| Scenarios.OrderedByCreatedAtSelectsKeyOnly | src/FastPaginate.php:183-217 | `select *` ordered by `created_at` plans `posts.id` alone |
| Scenarios.AliasedOrderIsKept | src/FastPaginate.php:183-217 | ordering by the alias `score` keeps `count(votes.id) as score` after the key and drops `title` |
| Scenarios.KeptPlaceholderFallsBack | src/FastPaginate.php:205-213 | a kept alias over an expression with `?` makes `fastPaginate` fall back to `paginate` with the caller's arguments |
| Scenarios.GroupedByKeyUsesDistinct | src/FastPaginate.php:177-181 | a query grouped by its key runs the inner query as `DISTINCT posts.id` with the GROUP BY dropped |

## Left out

- SQL execution is not modelled. This covers the inner query's clone, `select`, `setEagerLoads([])`, `withoutGroupBy` and `toLengthAwarePaginator`, and the outer `simplePaginate`. Their outputs are the `fetchKeys` and `fetchRows` parameters. The `InnerQuery` record lists the arguments the inner query is built from.
- The inner paginator's has-more flag is an input field. It is not derived from its total and page size, because `toLengthAwarePaginator` is not part of this model.
- The body of `canReplaceGroupByWithDistinct` is not part of this model. Its answer is the boolean field `Query.canReplaceGroupByWithDistinct`, which the planner and the closure both read.
- The grammar's `wrap` is an uninterpreted function field. `Expression::getValue` is taken to return the expression's SQL text.
- Model hydration, `newCollection`, `getRawOriginal`, paginator options and the `Closure::call` binding are left out. Keys and items are opaque type parameters.
- The commented-out HAVING/GROUP BY/UNION guard (src/FastPaginate.php:57-59) is not a fallback condition, because it is dead code.
- The membership filter is added to the caller's builder in place. This side effect is not modelled. The outer query is a value that carries the filter.
- Macro registration on the builder is left out. It is process-wide wiring outside the rewrite.
- Database errors are not modelled. They pass through unchanged and involve no decision of the rewrite.
- InnerSelect.InnerSelectColumns: `unique()` compares with PHP's loose `==`. There, numeric strings such as `"1"` and `"01"` are equal, and so can be an expression and a string. The model compares columns structurally, so it may keep a column that PHP would drop as a loose duplicate.
- Pagination.Paginate: `perPage` is an integer or null. A string page size, which would never be `=== -1`, is not modelled.
