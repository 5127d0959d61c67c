/**
 developer_repository.go: log pages by cursor. Times are whole seconds; their text form is a parameter,
 of which only the law that parsing undoes formatting and that it has no underscore is used.
 */
module Pagination {
  import opened Collections
  import opened Sorting
  import opened LogOrder

  /** RFC 3339 formatting and parsing of timestamps. */
  datatype Clock = Clock(format: int -> string, parse: string -> Option<int>)

  ghost predicate Lawful(clock: Clock)
  {
    forall ts :: clock.parse(clock.format(ts)) == Some(ts) && '_' !in clock.format(ts)
  }

  datatype LogFilters = LogFilters(keep: Log -> bool, sortDir: string, perPage: nat, skip: nat, cursor: string)

  datatype LogResponse = LogResponse(logs: seq<Log>, nextCursor: string, hasMore: bool)

  // ---------------------------------------------------------------- cursors

  /** strings.Split at underscores. */
  function Split(s: string): (parts: seq<string>)
    ensures parts != []
  {
    if s == "" then [""]
    else
      var rest := Split(s[1..]);
      if s[0] == '_' then [""] + rest else [[s[0]] + rest[0]] + rest[1..]
  }

  function Encode(clock: Clock, log: Log): string
  {
    clock.format(log.timestamp) + "_" + log.id
  }

  /** A cursor that does not come apart into a time and an id is ignored. */
  function Decode(clock: Clock, cursor: string): Option<(int, string)>
  {
    var parts := Split(cursor);
    if |parts| != 2 then None
    else match clock.parse(parts[0])
      case None => None
      case Some(timestamp) => Some((timestamp, parts[1]))
  }

  lemma {:induction false} SplitPlain(s: string)
    requires '_' !in s
    ensures Split(s) == [s]
  {
    if s != "" {
      SplitPlain(s[1..]);
      assert s == [s[0]] + s[1..];
    }
  }

  lemma {:induction false} SplitOnce(a: string, b: string)
    requires '_' !in a
    ensures Split(a + "_" + b) == [a] + Split(b)
  {
    if a == "" {
      assert a + "_" + b == "_" + b;
      assert ("_" + b)[1..] == b;
    } else {
      SplitOnce(a[1..], b);
      assert (a + "_" + b)[1..] == a[1..] + "_" + b;
      assert a == [a[0]] + a[1..];
    }
  }

  lemma {:induction false} SplitCounts(s: string)
    ensures |Split(s)| == 1 <==> '_' !in s
  {
    if s != "" {
      SplitCounts(s[1..]);
      assert s == [s[0]] + s[1..];
    }
  }

  /** A cursor can be read back if and only if the id has no underscore; otherwise it is ignored. */
  lemma CursorRoundTripIff(clock: Clock, log: Log)
    requires Lawful(clock)
    ensures Decode(clock, Encode(clock, log)) ==
            if '_' in log.id then None else Some((log.timestamp, log.id))
  {
    SplitOnce(clock.format(log.timestamp), log.id);
    SplitCounts(log.id);
    if '_' !in log.id {
      SplitPlain(log.id);
    }
  }

  // ------------------------------------------------------------------ pages

  function Selected(clock: Clock, f: LogFilters, table: seq<Log>): seq<Log>
  {
    var rows := Filter(f.keep, table);
    if f.cursor == "" then rows
    else match Decode(clock, f.cursor)
      case None => rows
      case Some(c) => Filter(Past(f.sortDir, c.0, c.1), rows)
  }

  /** LIMIT and OFFSET. */
  function Limited(rows: seq<Log>, limit: nat, offset: nat): seq<Log>
  {
    var rest := if offset <= |rows| then rows[offset..] else [];
    if limit <= |rest| then rest[..limit] else rest
  }

  function Page(clock: Clock, f: LogFilters, table: seq<Log>): LogResponse
    requires f.perPage >= 1
  {
    var rows := Limited(Sort(Order(f.sortDir), Selected(clock, f, table)), f.perPage + 1, f.skip);
    if |rows| > f.perPage then LogResponse(rows[..f.perPage], Encode(clock, rows[f.perPage - 1]), true)
    else LogResponse(rows, "", false)
  }

  /** Reads one row more than the page to learn whether there are more. */
  method GetLogs(clock: Clock, f: LogFilters, table: seq<Log>) returns (r: LogResponse)
    requires f.perPage >= 1
    ensures r == Page(clock, f, table)
    ensures DistinctIds(table) ==> InOrder(f.sortDir, r.logs)
  {
    var rows := Limited(Sort(Order(f.sortDir), Selected(clock, f, table)), f.perPage + 1, f.skip);
    var logs: seq<Log> := [];
    var i := 0;
    while i < |rows|
      invariant 0 <= i <= |rows|
      invariant logs == rows[..i]
    {
      logs := logs + [rows[i]];
      i := i + 1;
    }
    var hasMore := |logs| > f.perPage;
    var nextCursor := "";
    if hasMore {
      var last := logs[f.perPage - 1];
      nextCursor := Encode(clock, last);
      logs := logs[..f.perPage];
    }
    r := LogResponse(logs, nextCursor, hasMore);
    if DistinctIds(table) {
      PageInOrder(clock, f, table);
    }
  }

  /** The pages of a client's query, by cursor. */
  function Fetch(clock: Clock, f: LogFilters, table: seq<Log>): string -> LogResponse
    requires f.perPage >= 1
  {
    (cursor: string) => Page(clock, f.(cursor := cursor), table)
  }

  /** What a client has after following the cursor for up to so many pages. */
  function Followed(fetch: string -> LogResponse, cursor: string, pages: nat): seq<Log>
    decreases pages
  {
    if pages == 0 then []
    else
      var page := fetch(cursor);
      if page.hasMore then page.logs + Followed(fetch, page.nextCursor, pages - 1) else page.logs
  }

  /** All selected rows in order, with no paging. */
  function Full(f: LogFilters, table: seq<Log>): seq<Log>
  {
    Sort(Order(f.sortDir), Filter(f.keep, table))
  }

  // ----------------------------------------------------- what a page holds

  /** The client's cursor: none, or the one made of a row it has seen. */
  ghost predicate CursorOf(clock: Clock, cursor: string, c: Option<Log>)
  {
    cursor == match c
      case None => ""
      case Some(log) => clock.format(log.timestamp) + "_" + log.id
  }

  /** After the row of the cursor: older when descending is asked for, newer otherwise. */
  ghost predicate Follows(sortDir: string, c: Log, x: Log)
  {
    if sortDir == "desc" then Earlier(x, c) else Earlier(c, x)
  }

  /** The rows a page is taken from; a cursor of an id with an underscore has no effect. */
  ghost function Wanted(f: LogFilters, table: seq<Log>, c: Option<Log>): seq<Log>
  {
    Filter((x: Log) => f.keep(x) && (c.Some? && '_' !in c.value.id ==> Follows(f.sortDir, c.value, x)), table)
  }

  lemma SelectedIs(clock: Clock, f: LogFilters, table: seq<Log>, c: Option<Log>)
    requires Lawful(clock) && CursorOf(clock, f.cursor, c)
    ensures Selected(clock, f, table) == Wanted(f, table, c)
  {
    var wanted := (x: Log) => f.keep(x) && (c.Some? && '_' !in c.value.id ==> Follows(f.sortDir, c.value, x));
    if c.Some? {
      CursorRoundTripIff(clock, c.value);
      assert |f.cursor| > 0;
      var past := Past(f.sortDir, c.value.timestamp, c.value.id);
      forall x | x in table
        ensures Follows(f.sortDir, c.value, x) <==> past(x)
      {
        BeforeIsEarlier(x, c.value);
        BeforeIsEarlier(c.value, x);
      }
      if '_' !in c.value.id {
        FilterFilter(past, f.keep, wanted, table);
      }
    }
    if c.None? || '_' in c.value.id {
      FilterSame(f.keep, wanted, table);
    }
  }

  lemma SortedPage(clock: Clock, f: LogFilters, table: seq<Log>)
    requires DistinctIds(table)
    ensures var rows := Sort(Order(f.sortDir), Selected(clock, f, table));
            InOrder(f.sortDir, rows) && multiset(rows) == multiset(Selected(clock, f, table))
  {
    var rows := Selected(clock, f, table);
    FilterDistinct(f.keep, table);
    if f.cursor != "" && Decode(clock, f.cursor).Some? {
      var c := Decode(clock, f.cursor).value;
      FilterDistinct(Past(f.sortDir, c.0, c.1), Filter(f.keep, table));
    }
    SortMultiset(Order(f.sortDir), rows);
    SortDistinct(Order(f.sortDir), rows);
    OrderIsTotal(f.sortDir);
    SortSorted(Order(f.sortDir), rows);
    SortedIsInOrder(f.sortDir, Sort(Order(f.sortDir), rows));
  }

  /** The rows of a page are in order. */
  lemma PageInOrder(clock: Clock, f: LogFilters, table: seq<Log>)
    requires DistinctIds(table) && f.perPage >= 1
    ensures InOrder(f.sortDir, Page(clock, f, table).logs)
  {
    SortedPage(clock, f, table);
  }

  /**
   However the rows wanted are put in order, a page holds those after the skipped ones, up to its size; there
   are more exactly when some are left, and the next cursor is then made of the last row shown.
   */
  lemma PageIs(clock: Clock, f: LogFilters, table: seq<Log>, c: Option<Log>, rows: seq<Log>)
    requires Lawful(clock) && DistinctIds(table) && f.perPage >= 1 && CursorOf(clock, f.cursor, c)
    requires multiset(rows) == multiset(Wanted(f, table, c)) && InOrder(f.sortDir, rows)
    ensures var page, end := Page(clock, f, table), f.skip + f.perPage;
            && page.logs == (if |rows| <= f.skip then []
                             else if |rows| <= end then rows[f.skip..] else rows[f.skip..end])
            && (page.hasMore <==> end < |rows|)
            && CursorOf(clock, page.nextCursor, if end < |rows| then Some(rows[end - 1]) else None)
  {
    SelectedIs(clock, f, table, c);
    SortedPage(clock, f, table);
    OneOrder(f.sortDir, rows, Sort(Order(f.sortDir), Selected(clock, f, table)));
  }

  lemma FullIsOrdered(f: LogFilters, table: seq<Log>)
    requires DistinctIds(table)
    ensures DistinctIds(Full(f, table)) && SortedBy(Order(f.sortDir), Full(f, table))
  {
    var rows := Filter(f.keep, table);
    FilterDistinct(f.keep, table);
    SortDistinct(Order(f.sortDir), rows);
    OrderIsTotal(f.sortDir);
    SortSorted(Order(f.sortDir), rows);
  }

  // ------------------------------------------------------ following cursors

  predicate Directed(sortDir: string)
  {
    sortDir == "asc" || sortDir == "desc"
  }

  /** The cursor's condition cuts an ordered list just after the row the cursor was made of. */
  lemma PastIsSuffix(sortDir: string, rows: seq<Log>, m: nat)
    requires Directed(sortDir) && 1 <= m <= |rows|
    requires DistinctIds(rows) && SortedBy(Order(sortDir), rows)
    ensures Filter(Past(sortDir, rows[m - 1].timestamp, rows[m - 1].id), rows) == rows[m..]
  {
    var c := rows[m - 1];
    var past := Past(sortDir, c.timestamp, c.id);
    forall i | 0 <= i < |rows|
      ensures past(rows[i]) <==> i >= m
    {
      BeforeTotal(c, rows[i]);
      BeforeTotal(c, c);
      assert i < m - 1 ==> Order(sortDir)(rows[i], c);
      assert i > m - 1 ==> Order(sortDir)(c, rows[i]);
    }
    assert rows == rows[..m] + rows[m..];
    FilterConcat(past, rows[..m], rows[m..]);
    FilterNone(past, rows[..m]);
    FilterAll(past, rows[m..]);
  }

  /** The cursor is empty at the start, and otherwise that of the last row seen. */
  ghost predicate Positioned(clock: Clock, f: LogFilters, rows: seq<Log>, m: nat)
  {
    m <= |rows| && f.cursor == if m == 0 then "" else Encode(clock, rows[m - 1])
  }

  ghost predicate PlainIds(rows: seq<Log>)
  {
    forall x :: x in rows ==> '_' !in x.id
  }

  lemma FullMembers(f: LogFilters, table: seq<Log>)
    ensures forall x :: x in Full(f, table) ==> x in table
  {
    SortMembers(Order(f.sortDir), Filter(f.keep, table));
    FilterMembers(f.keep, table);
  }

  lemma RowsFromCursor(clock: Clock, f: LogFilters, table: seq<Log>, m: nat)
    requires Lawful(clock) && DistinctIds(table) && PlainIds(table) && Directed(f.sortDir)
    requires Positioned(clock, f, Full(f, table), m)
    ensures Sort(Order(f.sortDir), Selected(clock, f, table)) == Full(f, table)[m..]
  {
    var rows := Full(f, table);
    FullIsOrdered(f, table);
    if m > 0 {
      var c := rows[m - 1];
      FullMembers(f, table);
      assert c in rows;
      CursorRoundTripIff(clock, c);
      assert |f.cursor| > 0;
      OrderIsTotal(f.sortDir);
      FilterSort(Order(f.sortDir), Past(f.sortDir, c.timestamp, c.id), Filter(f.keep, table));
      PastIsSuffix(f.sortDir, rows, m);
    }
  }

  lemma PageFromCursor(clock: Clock, f: LogFilters, table: seq<Log>, m: nat)
    requires Lawful(clock) && DistinctIds(table) && PlainIds(table) && Directed(f.sortDir)
    requires Positioned(clock, f, Full(f, table), m) && f.skip == 0 && f.perPage >= 1
    ensures var rows := Full(f, table);
            var page := Page(clock, f, table);
            if m + f.perPage < |rows| then
              page == LogResponse(rows[m..m + f.perPage], Encode(clock, rows[m + f.perPage - 1]), true)
            else page == LogResponse(rows[m..], "", false)
  {
    RowsFromCursor(clock, f, table, m);
    var rest := Full(f, table)[m..];
    assert rest[0..] == rest;
  }

  /** The page of an ordered list that starts after the first m rows. */
  function PageOf(rows: seq<Log>, cursors: nat -> string, perPage: nat, m: nat): LogResponse
    requires m <= |rows|
  {
    if m + perPage < |rows| then LogResponse(rows[m..m + perPage], cursors(m + perPage), true)
    else LogResponse(rows[m..], "", false)
  }

  ghost predicate Serves(
    fetch: string -> LogResponse, cursors: nat -> string, rows: seq<Log>, perPage: nat, m: nat)
    requires m <= |rows|
  {
    fetch(cursors(m)) == PageOf(rows, cursors, perPage, m)
  }

  lemma Joined(rows: seq<Log>, m: nat, next: nat)
    requires m <= next <= |rows|
    ensures rows[m..next] + rows[next..] == rows[m..]
  {
  }

  lemma FollowedStep(fetch: string -> LogResponse, cursor: string, pages: nat, page: LogResponse)
    requires pages >= 1 && fetch(cursor) == page
    ensures Followed(fetch, cursor, pages) ==
            if page.hasMore then page.logs + Followed(fetch, page.nextCursor, pages - 1) else page.logs
  {
  }

  lemma {:induction false} FollowedFrom(
    fetch: string -> LogResponse, cursors: nat -> string, rows: seq<Log>, perPage: nat, m: nat, pages: nat)
    requires forall k: nat :: k <= |rows| ==> Serves(fetch, cursors, rows, perPage, k)
    requires perPage >= 1 && m <= |rows| && pages >= 1 && |rows| - m <= pages
    ensures Followed(fetch, cursors(m), pages) == rows[m..]
    decreases pages
  {
    var next := m + perPage;
    assert Serves(fetch, cursors, rows, perPage, m);
    FollowedStep(fetch, cursors(m), pages, PageOf(rows, cursors, perPage, m));
    if next < |rows| {
      FollowedFrom(fetch, cursors, rows, perPage, next, pages - 1);
      Joined(rows, m, next);
    }
  }

  lemma {:induction false} NeverFollowed(fetch: string -> LogResponse, cursor: string, pages: nat, x: Log)
    requires forall c :: x !in fetch(c).logs
    ensures x !in Followed(fetch, cursor, pages)
    decreases pages
  {
    if pages > 0 {
      NeverFollowed(fetch, fetch(cursor).nextCursor, pages - 1, x);
    }
  }

  lemma LaterStaysLater(keep: Log -> bool, rows: seq<Log>, i: nat)
    requires rows != [] && 1 <= i < |Filter(keep, rows)|
    ensures Filter(keep, rows)[i] in rows[1..]
  {
    FilterMembers(keep, rows[1..]);
    var rest := Filter(keep, rows[1..]);
    assert Filter(keep, rows) == if keep(rows[0]) then [rows[0]] + rest else rest;
    assert Filter(keep, rows)[i] in rest;
  }

  lemma LaterShown(clock: Clock, f: LogFilters, table: seq<Log>, shown: seq<Log>, i: nat)
    requires Full(f, table) != [] && shown == Sort(Order(f.sortDir), Selected(clock, f, table))
    requires 1 <= i < |shown|
    ensures shown[i] in Full(f, table)[1..]
  {
    var rows := Full(f, table);
    if f.cursor != "" && Decode(clock, f.cursor).Some? {
      var c := Decode(clock, f.cursor).value;
      var past := Past(f.sortDir, c.0, c.1);
      OrderIsTotal(f.sortDir);
      FilterSort(Order(f.sortDir), past, Filter(f.keep, table));
      LaterStaysLater(past, rows, i);
    } else {
      assert rows[1..][i - 1] == rows[i];
    }
  }

  lemma FirstNotInPage(clock: Clock, f: LogFilters, table: seq<Log>)
    requires DistinctIds(table) && f.skip > 0 && f.perPage >= 1 && Full(f, table) != []
    ensures Full(f, table)[0] !in Page(clock, f, table).logs
  {
    var logs := Page(clock, f, table).logs;
    var shown := Sort(Order(f.sortDir), Selected(clock, f, table));
    assert forall j :: 0 <= j < |logs| ==> f.skip + j < |shown| && logs[j] == shown[f.skip + j];
    FirstOnce(f, table);
    forall j | 0 <= j < |logs|
      ensures logs[j] != Full(f, table)[0]
    {
      LaterShown(clock, f, table, shown, f.skip + j);
    }
  }

  lemma FirstOnce(f: LogFilters, table: seq<Log>)
    requires DistinctIds(table) && Full(f, table) != []
    ensures Full(f, table)[0] !in Full(f, table)[1..]
  {
    FullIsOrdered(f, table);
    var rows := Full(f, table);
    assert forall k :: 0 <= k < |rows[1..]| ==> rows[1..][k].id != rows[0].id;
  }

  function CursorAfter(clock: Clock, rows: seq<Log>): nat -> string
  {
    (m: nat) => if m == 0 || m > |rows| then "" else Encode(clock, rows[m - 1])
  }

  /**
   With unique ids free of underscores, following the cursors from the first page returns, in finitely
   many pages, exactly the selected rows in order, if and only if no rows are skipped or none are selected.
   */
  lemma PagesRefineFullQuery(clock: Clock, f: LogFilters, table: seq<Log>, pages: nat)
    requires Lawful(clock) && DistinctIds(table) && PlainIds(table) && Directed(f.sortDir) && f.perPage >= 1
    requires pages >= 1 && pages >= |Full(f, table)|
    ensures Followed(Fetch(clock, f, table), "", pages) == Full(f, table) <==> f.skip == 0 || Full(f, table) == []
  {
    var rows, fetch := Full(f, table), Fetch(clock, f, table);
    if f.skip == 0 {
      AllPages(clock, f, table, pages);
    } else if rows != [] {
      forall c
        ensures rows[0] !in fetch(c).logs
      {
        assert Full(f.(cursor := c), table) == rows;
        FirstNotInPage(clock, f.(cursor := c), table);
      }
      NeverFollowed(fetch, "", pages, rows[0]);
      assert rows[0] in rows;
    } else {
      assert fetch("").logs == [];
    }
  }

  lemma AllPages(clock: Clock, f: LogFilters, table: seq<Log>, pages: nat)
    requires Lawful(clock) && DistinctIds(table) && PlainIds(table) && Directed(f.sortDir) && f.perPage >= 1
    requires pages >= 1 && pages >= |Full(f, table)| && f.skip == 0
    ensures Followed(Fetch(clock, f, table), "", pages) == Full(f, table)
  {
    var rows, fetch := Full(f, table), Fetch(clock, f, table);
    var cursors := CursorAfter(clock, rows);
    forall m: nat | m <= |rows|
      ensures Serves(fetch, cursors, rows, f.perPage, m)
    {
      PageFromCursor(clock, f.(cursor := cursors(m)), table, m);
    }
    FollowedFrom(fetch, cursors, rows, f.perPage, 0, pages);
    assert rows[0..] == rows;
  }

  /** The rows that paging reproduces are the selected ones, in order by time and id, and each is there once. */
  lemma FullQueryIsTheOrderedTable(f: LogFilters, table: seq<Log>)
    requires DistinctIds(table)
    ensures multiset(Full(f, table)) == multiset(Filter(f.keep, table))
    ensures DistinctIds(Full(f, table)) && InOrder(f.sortDir, Full(f, table))
  {
    SortMultiset(Order(f.sortDir), Filter(f.keep, table));
    FullIsOrdered(f, table);
    SortedIsInOrder(f.sortDir, Full(f, table));
  }
}
