/**
 * The search-query builder of a searchable table: it turns the table's
 * ordering, its paginator and the search inputs of its column headers into a
 * select query with ORDER BY, LIMIT, OFFSET and one WHERE disjunction per
 * header that searches.
 *
 * The SQL builder library is modelled by the query tree it is asked to build
 * (`SelectQuery`); the SQL text it would render from that tree is not part of
 * this model.
 */
module Searchable {
  import opened Wrappers
  import opened GoInt
  import Paginator

  /** A dynamically typed Go value (`interface{}`), as far as the builder looks at it. */
  datatype Value =
    | Str(s: string)        // a value whose dynamic type is string
    | Other(text: string)   // a value of any other dynamic type, with its `%v` rendering
  {
    /** `fmt.Sprintf("%v", v)`. */
    function Text(): (r: string)
      ensures Str? ==> r == s
    {
      match this
      case Str(s) => s
      case Other(text) => text
    }
  }

  /** The search box of one column. */
  datatype Input = Input(
    visible: bool,
    placeholder: Value,
    value: Value,
    canSearch: bool,
    searchColumn: seq<string>,
    searchPattern: string)

  datatype Header = Header(name: Value, input: Input)

  datatype Table<T> = Table(
    paginate: Paginator.Fields<T>,
    headers: seq<Header>,
    params: map<string, string>,
    orderByCol: Option<string>,
    orderBySort: Option<string>)

  /** One disjunct of a WHERE clause: `column = value` or `column LIKE pattern`. */
  datatype Pred = Eq(column: string, value: string) | Like(column: string, pattern: string)

  /** The select query the builder is asked to produce; `wheres` are ANDed, each one a disjunction. */
  datatype SelectQuery = SelectQuery(
    columns: seq<string>,
    from: string,
    orderBys: seq<string>,
    limit: Option<uint64>,
    offset: Option<uint64>,
    wheres: seq<seq<Pred>>)

  /** Why building the query stops: dereferencing a nil order-by pointer panics. */
  datatype Fault = NilDereference

  /** The match patterns the builder knows. */
  predicate Recognized(pattern: string) {
    pattern == "-" || pattern == "<-" || pattern == "->" || pattern == "<->"
  }

  /** The disjunct one search column contributes under a known pattern. */
  function Disjunct(pattern: string, column: string, text: string): (p: Pred)
    requires Recognized(pattern)
    ensures p.column == column
    ensures p.Eq? <==> pattern == "-"
    ensures p.Eq? ==> p.value == text
    ensures p.Like? ==>
              p.pattern == (if pattern[0] == '<' then "%" else "") + text + (if pattern[|pattern| - 1] == '>' then "%" else "")
  {
    match pattern
    case "-" => Eq(column, text)
    case "<-" => Like(column, "%" + text)
    case "->" => Like(column, text + "%")
    case _ => Like(column, "%" + text + "%")
  }

  /**
   * The disjuncts for `columns` under `pattern`: one per column, in column
   * order, all with the same pattern and value; none at all for a pattern
   * the builder does not know.
   */
  function Disjuncts(pattern: string, columns: seq<string>, text: string): (r: seq<Pred>)
    ensures Recognized(pattern) ==> |r| == |columns|
    ensures Recognized(pattern) ==> forall i :: 0 <= i < |columns| ==> r[i] == Disjunct(pattern, columns[i], text)
    ensures !Recognized(pattern) ==> r == []
  {
    if columns == [] then []
    else
      var n := |columns| - 1;
      Disjuncts(pattern, columns[..n], text) + (if Recognized(pattern) then [Disjunct(pattern, columns[n], text)] else [])
  }

  /** A header searches when its input allows searching and its value is not the string "". */
  predicate Searches(h: Header)
    ensures Searches(h) ==> h.input.canSearch
    ensures h.input.value.Str? && h.input.value.Text() == "" ==> !Searches(h)
    ensures h.input.canSearch && h.input.value.Other? ==> Searches(h)
    ensures h.input.canSearch && h.input.value.Str? && h.input.value.s != "" ==> Searches(h)
  {
    h.input.canSearch && h.input.value != Str("")
  }

  /** The disjunction a searching header adds. */
  function Clause(input: Input): seq<Pred> {
    Disjuncts(input.searchPattern, input.searchColumn, input.value.Text())
  }

  /** The WHERE clauses for `headers`, one for each header that searches, in header order. */
  function Wheres(headers: seq<Header>): (r: seq<seq<Pred>>)
    ensures |r| <= |headers|
    ensures (forall i :: 0 <= i < |headers| ==> Searches(headers[i])) ==> |r| == |headers|
  {
    if headers == [] then []
    else
      var n := |headers| - 1;
      Wheres(headers[..n]) + (if Searches(headers[n]) then [Clause(headers[n].input)] else [])
  }

  /** The positions of the searching headers, in increasing order. */
  function SearchingPositions(headers: seq<Header>): (r: seq<nat>)
    ensures forall j :: 0 <= j < |r| ==> r[j] < |headers| && Searches(headers[r[j]])
    ensures forall j, k :: 0 <= j < k < |r| ==> r[j] < r[k]
    ensures forall i :: 0 <= i < |headers| && Searches(headers[i]) ==> i in r
  {
    if headers == [] then []
    else
      var n := |headers| - 1;
      var earlier := SearchingPositions(headers[..n]);
      assert forall i :: 0 <= i < n ==> headers[..n][i] == headers[i];
      earlier + (if Searches(headers[n]) then [n] else [])
  }

  /** One more header adds its clause at the end, when it searches. */
  lemma WheresSnoc(headers: seq<Header>, h: Header)
    ensures Wheres(headers + [h]) == Wheres(headers) + (if Searches(h) then [Clause(h.input)] else [])
  {
    var hs := headers + [h];
    assert hs[..|hs| - 1] == headers && hs[|hs| - 1] == h;
  }

  /** Appending headers appends their clauses: each header's clause depends on that header alone. */
  lemma {:induction false} WheresAppend(a: seq<Header>, b: seq<Header>)
    ensures Wheres(a + b) == Wheres(a) + Wheres(b)
  {
    if b == [] {
      assert a + b == a;
    } else {
      var n := |b| - 1;
      assert b == b[..n] + [b[n]];
      assert a + b == (a + b[..n]) + [b[n]];
      WheresSnoc(a + b[..n], b[n]);
      WheresSnoc(b[..n], b[n]);
      WheresAppend(a, b[..n]);
    }
  }

  /** The j-th WHERE clause is the clause of the j-th searching header. */
  lemma {:induction false} WheresFollowHeaders(headers: seq<Header>)
    ensures |Wheres(headers)| == |SearchingPositions(headers)|
    ensures forall j :: 0 <= j < |Wheres(headers)| ==>
              Wheres(headers)[j] == Clause(headers[SearchingPositions(headers)[j]].input)
  {
    if headers != [] {
      var n := |headers| - 1;
      var prefix := headers[..n];
      var searches := Searches(headers[n]);
      assert Wheres(headers) == Wheres(prefix) + (if searches then [Clause(headers[n].input)] else []);
      assert SearchingPositions(headers) == SearchingPositions(prefix) + (if searches then [n] else []);
      WheresFollowHeaders(prefix);
      forall j | 0 <= j < |Wheres(prefix)|
        ensures Wheres(headers)[j] == Clause(headers[SearchingPositions(headers)[j]].input)
      {
        var k := SearchingPositions(prefix)[j];
        assert SearchingPositions(headers)[j] == k && k < n;
        assert prefix[k] == headers[k];
      }
    }
  }

  /** The query has no WHERE clause exactly when no header searches. */
  lemma {:induction false} NoWhereIffNoSearch(headers: seq<Header>)
    ensures Wheres(headers) == [] <==> forall i :: 0 <= i < |headers| ==> !Searches(headers[i])
  {
    if headers != [] {
      var n := |headers| - 1;
      NoWhereIffNoSearch(headers[..n]);
      if Wheres(headers) == [] {
        forall i | 0 <= i < |headers| ensures !Searches(headers[i]) {
          if i < n {
            assert headers[..n][i] == headers[i];
          }
        }
      }
    }
  }

  /** The OFFSET: `uint64((currentPage - 1) * perPage)` in Go's 64-bit arithmetic. */
  function PageOffset(currentPage: int64, perPage: int64): (r: uint64)
    ensures (r as int - (currentPage as int - 1) * perPage as int) % TWO_64 == 0
  {
    var x := (currentPage as int - 1) * perPage as int;
    var w := WrapInt64(x);
    CongruentTrans(ToUint64(w) as int, w as int, x);
    ToUint64(w)
  }

  /**
   * On a page from 1 on, with a non-negative page size and an offset that
   * fits in `uint64` (an `int` product past 2^63 wraps negative and
   * `uint64(...)` restores it), the query skips the rows of the earlier
   * pages and stops after the current one.
   */
  lemma PageWindow(currentPage: int64, perPage: int64)
    requires currentPage >= 1 && perPage >= 0
    requires (currentPage as int - 1) * perPage as int < TWO_64
    ensures PageOffset(currentPage, perPage) as int == (currentPage as int - 1) * perPage as int
    ensures PageOffset(currentPage, perPage) as int + ToUint64(perPage) as int == currentPage as int * perPage as int
  {
    var c, p := currentPage as int, perPage as int;
    var x := (c - 1) * p;
    assert x == c * p - p;
    if p > 0 {
      Paginator.MulMono(0, c - 1, p);
    }
    assert 0 <= x < TWO_64;
    if x < TWO_63 {
      assert WrapInt64(x) as int == x;
    } else {
      var w := WrapInt64(x) as int;
      var k := (w - x) / TWO_64;
      assert w - x == k * TWO_64;
      assert k == -1;
      assert ToUint64(WrapInt64(x)) as int == x;
    }
  }

  /** Page 0 is not rejected: its offset wraps around to a huge unsigned number. */
  lemma PageZeroOffsetWraps(perPage: int64)
    requires perPage > 0
    ensures PageOffset(0, perPage) as int == TWO_64 - perPage as int
  {
  }

  /** The count query: `count(*)` over the table, with no ordering, paging or search filter. */
  function QueryCount<T>(t: Table<T>, table: string): (q: SelectQuery)
    ensures q.columns == ["count(*)"] && q.from == table
    ensures q.wheres == [] && q.orderBys == [] && q.limit == None && q.offset == None
  {
    SelectQuery(["count(*)"], table, [], None, None, [])
  }

  /**
   * The inner loop of the query builder: for each search column, in order,
   * the disjunct the header's pattern asks for; nothing for a pattern the
   * `switch` does not list.
   */
  method ColumnDisjuncts(pattern: string, columns: seq<string>, text: string) returns (pred: seq<Pred>)
    ensures pred == Disjuncts(pattern, columns, text)
  {
    pred := [];
    for j := 0 to |columns|
      invariant pred == Disjuncts(pattern, columns[..j], text)
    {
      var column := columns[j];
      assert columns[..j + 1][..j] == columns[..j];
      if pattern == "-" {
        pred := pred + [Eq(column, text)];
      } else if pattern == "<-" {
        pred := pred + [Like(column, "%" + text)];
      } else if pattern == "->" {
        pred := pred + [Like(column, text + "%")];
      } else if pattern == "<->" {
        pred := pred + [Like(column, "%" + text + "%")];
      }
    }
    assert columns[..|columns|] == columns;
  }

  /**
   * The select query of the current page: all columns of `table`, ordered by
   * the order-by column and direction, limited to one page at the page's
   * offset, with the WHERE clauses of the searching headers. A nil order-by
   * column or direction panics.
   */
  method QuerySelect<T>(t: Table<T>, table: string) returns (r: Result<SelectQuery, Fault>)
    ensures r.Failure? <==> t.orderByCol.None? || t.orderBySort.None?
    ensures r.Success? ==>
              && r.value.columns == ["*"] && r.value.from == table
              && r.value.orderBys == [t.orderByCol.value + " " + t.orderBySort.value]
              && r.value.limit == Some(ToUint64(t.paginate.perPage))
              && r.value.offset == Some(PageOffset(t.paginate.currentPage, t.paginate.perPage))
              && r.value.wheres == Wheres(t.headers)
  {
    if t.orderByCol.None? || t.orderBySort.None? {
      return Failure(NilDereference);
    }
    var builder := SelectQuery(["*"], table, [], None, None, []);
    builder := builder.(orderBys := builder.orderBys + [t.orderByCol.value + " " + t.orderBySort.value]);
    builder := builder.(limit := Some(ToUint64(t.paginate.perPage)));
    builder := builder.(offset := Some(PageOffset(t.paginate.currentPage, t.paginate.perPage)));
    ghost var paged := builder;

    for i := 0 to |t.headers|
      invariant builder == paged.(wheres := Wheres(t.headers[..i]))
    {
      var header := t.headers[i];
      ghost var upto := t.headers[..i + 1];
      assert upto[..i] == t.headers[..i] && upto[i] == header;
      ghost var step := if Searches(header) then [Clause(header.input)] else [];
      assert Wheres(upto) == Wheres(t.headers[..i]) + step;
      if !header.input.canSearch || header.input.value == Str("") {
        assert step == [];
        continue;
      }

      var pred := ColumnDisjuncts(header.input.searchPattern, header.input.searchColumn, header.input.value.Text());
      assert step == [pred];
      builder := builder.(wheres := builder.wheres + [pred]);
    }
    assert t.headers[..|t.headers|] == t.headers;
    r := Success(builder);
  }
}
