# Length-aware paginator and search-query builder (Dafny model)

This project models the two pieces of the `paginate` package that hold logic:

- **The length-aware paginator** (`pkg/paginate/lengthawarepaginator.go`).
  `Reconstruct` overwrites a `Paginate` record in place: items, total, page
  size and current page from its arguments, `LastPage` as the ceiling of
  total / page size, `OnEachSide = 3` and a nil fragment. `Construct` applies it
  to a zero record. `HasMorePages`, `NextPageUrl` and `ToArray` read the record.
  `Elements` merges the three zones of the URL window (`first`, `slider`,
  `last`) into one map of page links keyed 1..n. It grows the window's own
  `first` map in place. For each non-empty later zone, `elementsLoop` writes
  `"..."` at key len+1 and then each of the zone's links at the next len+1.
- **The search-query builder** (`pkg/paginate/searchable/searchable.go`).
  `QuerySelect` turns a table configuration into a select query with these parts:
  - `ORDER BY col sort`;
  - `LIMIT perPage`;
  - `OFFSET (currentPage-1)*perPage`;
  - one WHERE disjunction per searching header.

  Each disjunct follows the header's match pattern: `-` is equality, `<-` is
  `LIKE %v`, `->` is `LIKE v%` and `<->` is `LIKE %v%`. `QueryCount` is
  `count(*)` over the table, with no filter.

Files:

- `wrappers.dfy`: `Option` (Go's nil pointers) and `Result` (a panic as an error value).
- `go_int.dfy`: Go's 64-bit `int` and `uint64`. It defines two's-complement
  wrap-around and the `uint64(x)` conversion.
- `dense_map.dfy`: a `map[int]string` kept dense on 1..n, read as the list of its
  links. It also defines a visit order of a map's keys and the merge step.
- `paginator.dfy`: the `Paginate` class, its field values `Fields`, and the derived facts.
  It also holds the ceiling arithmetic and the element merge.
- `searchable.dfy`: the `Input`/`Header`/`Table` datatypes, the query tree, and the
  WHERE-clause specification. It also holds the `QuerySelect` method and `QueryCount`.

How the model represents the program:

- Go's `int` is the newtype `int64`. `Items` (`interface{}`) is an opaque type parameter.
- The page-URL builder `Url` and the methods `FirstItem`, `LastItem` and
  `PreviousPageUrl` come in as a `Peers` value. Their code is not part of this model.
- `UrlWindow(*p).Get()` is not part of this model either; its result comes in as a `Window`.
  The window's `first` map is a `PageMap` object, because `Elements` aliases and grows it.
  A nil `first` map is `null`: it reads as empty, and the first write into it panics,
  which `Elements` returns as `Failure(NilMapWrite)`.
- Go visits a map's keys in an order that the runtime picks at random. That
  order is an input (`order`, `sliderOrder`, `lastOrder`) that must visit every
  key once. The contracts hold for every such order.
- A Go `interface{}` search value is either a string (`Str`) or another value
  with its `%v` rendering (`Other`). So `Value == ""` holds only for the string "".
- A nil `OrderByCol` or `OrderBySort` makes Go panic. The model returns
  `Failure(NilDereference)` in that case.
- `uint64(...)` on a negative `int`, and overflow of `(CurrentPage-1)*PerPage`,
  wrap around as they do in Go.

Behaviour of the code that a reader may not expect:

- The code writes the ellipsis before the slider whenever the slider is
  non-empty, even when `first` is empty. It writes the ellipsis before the last
  zone whenever that zone is non-empty. (`EllipsisLeadsSlider` states the first case.)
- With no rows, `LastPage` is 0, not 1.
- A header with an unknown match pattern, or with no search columns, still adds a
  WHERE clause. That clause is an empty disjunction.
- The links inside one zone come out in the runtime's map order. So two calls of
  `Elements` on the same record need not give the same sequence.

## Model

| member | source | states |
|---|---|---|
| `GoInt.WrapInt64` | pkg/paginate/searchable/searchable.go:40 | the result agrees with the exact product modulo 2^64 and equals it whenever it fits in 64 bits (Go's `int` arithmetic) |
| `GoInt.ToUint64` | pkg/paginate/searchable/searchable.go:39-40 | `uint64(x)` keeps the same 64 bits: equal to `x` exactly when `x >= 0`, otherwise `x + 2^64` |
| `DenseMap.ListingPush` | pkg/paginate/lengthawarepaginator.go:103-106 | writing at key len+1 keeps a map dense on 1..n, grows it by one and appends the value to its link list |
| `DenseMap.VisitPush` | pkg/paginate/lengthawarepaginator.go:105-106 | one iteration of the `range` loop appends the value of the next visited key to the link list |
| `DenseMap.EnumerationLength` | pkg/paginate/lengthawarepaginator.go:105 | a visit order that meets every key once has exactly as many steps as the map has keys |
| `DenseMap.Merged` | pkg/paginate/lengthawarepaginator.go:101-108 | an empty zone leaves the list unchanged; a non-empty zone keeps the list as a prefix, then adds `"..."` at position len and then the zone |
| `Paginator.Fields.HasMorePages` | pkg/paginate/lengthawarepaginator.go:65-67 | when there are more pages, the next page number `CurrentPage+1` is at most `LastPage`, so it fits in 64 bits; otherwise `LastPage <= CurrentPage` |
| `Paginator.Fields.NextPageUrl` | pkg/paginate/lengthawarepaginator.go:69-75 | nil exactly when there are no more pages, otherwise the URL of page CurrentPage+1 |
| `Paginator.Fields.ToArray` | pkg/paginate/lengthawarepaginator.go:77-91 | the key set is exactly the eleven serialised names; `current_page`, `last_page`, `per_page`, `total` and `data` are the fields and `next_page_url` is `NextPageUrl()` |
| `Paginator.CeilDiv` | pkg/paginate/lengthawarepaginator.go:23 | for a positive page size the result `r` satisfies `r*perPage >= total` and `(r-1)*perPage < total` (the integer ceiling) |
| `Paginator.CeilDivUnique` | pkg/paginate/lengthawarepaginator.go:23 | the two ceiling inequalities determine the page count uniquely, and it is 0 when there are no rows |
| `Paginator.CeilDivBetween` | pkg/paginate/lengthawarepaginator.go:23 | the page count lies between 0 and `total`, so converting it back to `int` cannot overflow |
| `Paginator.LastPageOf` | pkg/paginate/lengthawarepaginator.go:23 | `LastPage` as an `int` satisfies both ceiling inequalities with the record's total and page size |
| `Paginator.Reconstructed` | pkg/paginate/lengthawarepaginator.go:18-29 | the record after `Reconstruct`: items, total, page size and current page from the arguments, `LastPage` the ceiling, `OnEachSide = 3`, nil fragment |
| `Paginator.LastPageIsCeiling` | pkg/paginate/lengthawarepaginator.go:23 | the stored `LastPage` is the ceiling of total / perPage, and 0 when `total = 0` |
| `Paginator.MorePagesIffRowsRemain` | pkg/paginate/lengthawarepaginator.go:65-67 | after `Reconstruct`, `HasMorePages()` holds iff `CurrentPage*PerPage < Total`; it is false on the last page and, for `CurrentPage >= 0`, false when there are no rows |
| `Paginator.ElementsListing` | pkg/paginate/lengthawarepaginator.go:93-98 | the merged list starts with the `first` zone unchanged |
| `Paginator.ElementsSize` | pkg/paginate/lengthawarepaginator.go:93-110 | the merged list has `|first| + (|slider|+1 if slider non-empty) + (|last|+1 if last non-empty)` links |
| `Paginator.EllipsisLeadsSlider` | pkg/paginate/lengthawarepaginator.go:94-103 | with an empty `first` and a non-empty slider the list opens with `"..."`; with no last zone either it is `"..."` followed by the slider's links |
| `Paginator.PageMap.constructor` | pkg/paginate/lengthawarepaginator.go:93-94 | a Go map holding the given links, which a window's `first` map can be |
| `Paginator.Paginate.constructor` | pkg/paginate/lengthawarepaginator.go:13 | the zero record `Paginate{}`: all counters 0 and a nil fragment |
| `Paginator.Paginate.Reconstruct` | pkg/paginate/lengthawarepaginator.go:18-29 | returns the same receiver, and its fields afterwards are `Reconstructed(...)` of the arguments alone, whatever they held before (so calling it twice gives the same record) |
| `Paginator.Paginate.Construct` | pkg/paginate/lengthawarepaginator.go:12-16 | a new record whose fields are those `Reconstruct` gives a zero record |
| `Paginator.Paginate.ElementsLoop` | pkg/paginate/lengthawarepaginator.go:101-110 | panics exactly when the map is nil and the zone is non-empty; an empty zone leaves the map unchanged; on a map dense on 1..n the map stays dense and its list becomes the old list, `"..."`, then every value of the zone once, in the visit order; returns the map |
| `Paginator.Paginate.Elements` | pkg/paginate/lengthawarepaginator.go:93-99 | panics exactly when the window's `first` map is nil and the slider or last zone is non-empty; otherwise returns that same map, grown in place; if it was dense, its list is the `first` zone, then each non-empty later zone after an ellipsis |
| `Searchable.Value.Text` | pkg/paginate/searchable/searchable.go:51-57 | `%v` of a string value is the string itself |
| `Searchable.Disjunct` | pkg/paginate/searchable/searchable.go:49-58 | the disjunct is on the given column; it is an equality with the value exactly for `-`; otherwise a LIKE whose pattern is the value with `%` before it when the pattern opens with `<` and `%` after it when it ends with `>` |
| `Searchable.Disjuncts` | pkg/paginate/searchable/searchable.go:48-59 | for a known pattern, one disjunct per search column in column order, with `-`, `<-`, `->` and `<->` giving `Eq(col,v)`, `Like(col,"%"+v)`, `Like(col,v+"%")` and `Like(col,"%"+v+"%")`; for an unknown pattern, none |
| `Searchable.Searches` | pkg/paginate/searchable/searchable.go:43 | a header searches only if its input can search; never with the string value ""; always when it can search and its value is a non-empty string or not a string at all (so it searches exactly when it can search and its value is not the string "") |
| `Searchable.Wheres` | pkg/paginate/searchable/searchable.go:42-61 | at most one WHERE clause per header, and exactly one per header when every header searches |
| `Searchable.SearchingPositions` | pkg/paginate/searchable/searchable.go:42-46 | the positions of the headers that can search and have a value other than "", each once and in increasing order |
| `Searchable.WheresAppend` | pkg/paginate/searchable/searchable.go:42-61 | the WHERE clauses of two header lists in a row are those of the first list followed by those of the second |
| `Searchable.WheresFollowHeaders` | pkg/paginate/searchable/searchable.go:42-61 | there is exactly one WHERE clause per searching header, and the j-th clause is the disjunction of the j-th searching header |
| `Searchable.NoWhereIffNoSearch` | pkg/paginate/searchable/searchable.go:43-46 | the query has no WHERE clause iff no header searches (an unknown pattern still adds its empty clause) |
| `Searchable.PageOffset` | pkg/paginate/searchable/searchable.go:40 | the offset agrees with the exact `(CurrentPage-1)*PerPage` modulo 2^64 |
| `Searchable.PageWindow` | pkg/paginate/searchable/searchable.go:39-40 | for `CurrentPage >= 1`, `PerPage >= 0` and `(CurrentPage-1)*PerPage < 2^64` (so also when the `int` product wraps negative and `uint64` restores it), the offset is `(CurrentPage-1)*PerPage` and offset + limit is `CurrentPage*PerPage` |
| `Searchable.PageZeroOffsetWraps` | pkg/paginate/searchable/searchable.go:40 | page 0 is not rejected: its offset wraps to `2^64 - PerPage` |
| `Searchable.QueryCount` | pkg/paginate/searchable/searchable.go:32-34 | `count(*)` from the table with no WHERE, ORDER BY, LIMIT or OFFSET |
| `Searchable.ColumnDisjuncts` | pkg/paginate/searchable/searchable.go:47-58 | the column loop builds exactly `Disjuncts(pattern, columns, value)`: one disjunct per column in column order for a known pattern, none for an unknown one |
| `Searchable.WheresSnoc` | pkg/paginate/searchable/searchable.go:42-61 | one more header adds its clause at the end of the WHERE list when it searches, and nothing otherwise |
| `Searchable.QuerySelect` | pkg/paginate/searchable/searchable.go:36-63 | fails exactly when an order-by pointer is nil; otherwise selects `*` from the table, ordered by `col + " " + sort`, limit `uint64(PerPage)`, offset `uint64((CurrentPage-1)*PerPage)`, and WHERE clauses `Wheres(Headers)` |

## Left out

- `Render` and `Links` (pkg/paginate/lengthawarepaginator.go:31-63) are not modelled. They render a template through the response package, log a fatal error and panic, and read the global `defaultView`.
- `Url`, `FirstItem`, `LastItem`, `PreviousPageUrl`, `HasPages`, `OnFirstPage`, `UrlWindow(...).Get()` and the `Paginate` struct are defined in files that are not part of this model. Their results are inputs (`Peers`, `Window`), and their window arithmetic is not modelled. The `slider` and `last` zones of a `Window` are map values, so the model assumes they are maps separate from `first`; if `Get()` returned a zone that is the same map as `first`, ranging over it while `Elements` writes into it would behave differently, and the model does not capture that aliasing.
- Paginator.Paginate.Reconstruct: requires `perPage > 0`. Go divides in `float64` and converts the ceiling back to `int`. For `perPage = 0` that gives Inf or NaN, and the conversion result is platform-defined. A negative `perPage` is excluded too, although Go gives a finite `LastPage` there (total 10 and perPage -3 give -3); the model does not cover negative page sizes.
- Paginator.Paginate.Construct: requires `perPage > 0`, for the same reasons as `Reconstruct`, so it does not cover a zero or negative page size either.
- Paginator.LastPageOf: this is the exact integer ceiling. Go's `math.Ceil(float64(total)/float64(perPage))` equals it while `|total|` is below 2^53 (at `total = -2^53` and `perPage = 2^53+1` they already differ: Go gives -1, the model 0). Beyond that, rounding in `float64` can give a different value, and the model does not capture it.
- Paginator.Paginate.ElementsLoop: the contract describes a map that is dense on 1..n. If the map has other keys, a write at len+1 can overwrite an existing link, and the contract says nothing about that case.
- Paginator.Paginate.Elements: the same limit as `ElementsLoop` applies when the window's `first` map is not dense on 1..n. The panic on a nil `first` map is modelled as `Failure(NilMapWrite)`; the recovery of that panic by callers is not.
- The order in which Go visits a map's keys is an input, not a fixed order. The model does not say which order the runtime picks.
- The unused fields `Visible`, `Placeholder`, `Name` and `Params` are carried in the datatypes but not read, as in the source.
- The SQL text that the builder library renders from the query is not modelled. This includes how an empty disjunction prints. `fmt.Sprintf("%v", ...)` on values that are not strings is modelled as a given rendering (`Other(text)`).
