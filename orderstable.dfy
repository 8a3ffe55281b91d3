/** The orders table: rows narrowed to one event when an event id is
    given, a case-insensitive search over four columns, pages of ten, and
    the "clear" button. */
module OrdersTable {
  import opened Wrappers
  import opened Text
  import opened UrlQuery

  /** The columns of an order row the filters read. */
  datatype OrderRow = OrderRow(eventId: string, title: string, description: string,
                               username: string, email: string)

  /** The rows of event `id`, in their original order. */
  function RowsOfEvent(rows: seq<OrderRow>, id: string): (r: seq<OrderRow>)
    ensures forall x :: x in r <==> x in rows && x.eventId == id
    ensures |r| <= |rows|
  {
    if rows == [] then []
    else
      var rest := RowsOfEvent(rows[1..], id);
      assert forall x :: x in rows <==> x == rows[0] || x in rows[1..];
      if rows[0].eventId == id then [rows[0]] + rest else rest
  }

  /** Keeping the rows of one event commutes with concatenation, so the
      rows kept stay in their original order. */
  lemma {:induction false} RowsOfEventConcat(a: seq<OrderRow>, b: seq<OrderRow>, id: string)
    ensures RowsOfEvent(a + b, id) == RowsOfEvent(a, id) + RowsOfEvent(b, id)
  {
    if a == [] {
      assert a + b == b;
    } else {
      assert (a + b)[0] == a[0];
      assert (a + b)[1..] == a[1..] + b;
      RowsOfEventConcat(a[1..], b, id);
    }
  }

  /** `filteredData`: with a (non-empty) event id only that event's rows,
      otherwise all rows. */
  function FilteredData(rows: seq<OrderRow>, eventIdFilter: Option<string>): (r: seq<OrderRow>)
    ensures eventIdFilter.None? || eventIdFilter.value == "" ==> r == rows
    ensures eventIdFilter.Some? && eventIdFilter.value != "" ==>
      forall x :: x in r <==> x in rows && x.eventId == eventIdFilter.value
  {
    if eventIdFilter.Some? && eventIdFilter.value != "" then RowsOfEvent(rows, eventIdFilter.value) else rows
  }

  /** `globalFilterFn`: the search occurs, ignoring case, in the event title
      or description or in the buyer's username or email. */
  predicate GlobalMatch(row: OrderRow, search: string)
  {
    || ContainsIgnoringCase(row.title, search) || ContainsIgnoringCase(row.description, search)
    || ContainsIgnoringCase(row.username, search) || ContainsIgnoringCase(row.email, search)
  }

  /** The rows the global filter keeps, in order. */
  function GlobalFilter(rows: seq<OrderRow>, search: string): (r: seq<OrderRow>)
    ensures forall x :: x in r <==> x in rows && GlobalMatch(x, search)
    ensures |r| <= |rows|
  {
    if rows == [] then []
    else
      var rest := GlobalFilter(rows[1..], search);
      assert forall x :: x in rows <==> x == rows[0] || x in rows[1..];
      if GlobalMatch(rows[0], search) then [rows[0]] + rest else rest
  }

  /** An empty search keeps every row. */
  lemma {:induction false} EmptySearchKeepsAll(rows: seq<OrderRow>)
    ensures GlobalFilter(rows, "") == rows
  {
    if rows != [] {
      EmptyNeedleMatches(rows[0].title);
      EmptySearchKeepsAll(rows[1..]);
    }
  }

  const PageSize: nat := 10

  /** Page `index` (from 0) of the rows. */
  function PageRows(rows: seq<OrderRow>, index: nat): (r: seq<OrderRow>)
    ensures |r| <= PageSize
    ensures forall i :: 0 <= i < |r| ==> index * PageSize + i < |rows| && r[i] == rows[index * PageSize + i]
    ensures index * PageSize + PageSize <= |rows| ==> |r| == PageSize
  {
    var start := index * PageSize;
    if start >= |rows| then []
    else if start + PageSize <= |rows| then rows[start..start + PageSize]
    else rows[start..]
  }

  class Table {
    var globalFilter: string

    constructor ()
      ensures globalFilter == ""
    {
      globalFilter := "";
    }

    method SetGlobalFilter(search: string)
      modifies this
      ensures globalFilter == search
    {
      globalFilter := search;
    }

    /** `clearFilter`: on an event's table, drop `eventId` from the query and
        keep the search; otherwise reset the search and stay. */
    method ClearFilter(eventIdFilter: Option<string>, params: Query, path: string) returns (nav: Option<Url>)
      modifies this
      ensures eventIdFilter.Some? && eventIdFilter.value != "" ==>
        && nav.Some? && nav.value == Url(path, params - {"eventId"})
        && globalFilter == old(globalFilter)
      ensures eventIdFilter.None? || eventIdFilter.value == "" ==> nav.None? && globalFilter == ""
    {
      if eventIdFilter.Some? && eventIdFilter.value != "" {
        var url := RemoveKeysFromQuery(Parse(params), path, ["eventId"]);
        assert url.query == params - {"eventId"};
        nav := Some(url);
      } else {
        globalFilter := "";
        nav := None;
      }
    }
  }
}
