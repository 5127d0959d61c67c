/**
 developer_repository.go: the order of the log rows, by time and then by id, and what it means to be past a
 cursor.
 */
module LogOrder {
  import opened Collections
  import opened Sorting

  datatype Log = Log(id: string, timestamp: int, message: string)

  // ------------------------------------------------------------------ order

  /** Byte-wise string comparison. */
  predicate Less(a: string, b: string)
  {
    if b == "" then false
    else if a == "" then true
    else if a[0] != b[0] then a[0] < b[0]
    else Less(a[1..], b[1..])
  }

  predicate Before(x: Log, y: Log)
  {
    x.timestamp < y.timestamp || (x.timestamp == y.timestamp && Less(x.id, y.id))
  }

  /** ORDER BY timestamp, id: ascending only when asked for. */
  function Order(sortDir: string): (Log, Log) -> bool
  {
    if sortDir == "asc" then (x: Log, y: Log) => !Before(y, x) else (x: Log, y: Log) => !Before(x, y)
  }

  /** The cursor's condition: descending only when asked for. */
  function Past(sortDir: string, timestamp: int, id: string): Log -> bool
  {
    if sortDir == "desc" then
      (x: Log) => x.timestamp < timestamp || (x.timestamp == timestamp && Less(x.id, id))
    else
      (x: Log) => x.timestamp > timestamp || (x.timestamp == timestamp && Less(id, x.id))
  }

  // -------------------------------------------------------- the total order

  lemma {:induction false} LessTotal(a: string, b: string)
    ensures Less(a, b) ==> !Less(b, a)
    ensures !Less(a, b) && !Less(b, a) ==> a == b
    ensures !Less(a, a)
    decreases |a|, 1
  {
    if a != "" && b != "" && a[0] == b[0] {
      LessTotal(a[1..], b[1..]);
      assert a == [a[0]] + a[1..] && b == [b[0]] + b[1..];
    }
    LessIrreflexive(a);
  }

  lemma {:induction false} LessIrreflexive(a: string)
    ensures !Less(a, a)
    decreases |a|, 0
  {
    if a != "" {
      LessIrreflexive(a[1..]);
    }
  }

  lemma {:induction false} LessTransitive(a: string, b: string, c: string)
    requires Less(a, b) && Less(b, c)
    ensures Less(a, c)
  {
    if a != "" && a[0] == b[0] && b[0] == c[0] {
      LessTransitive(a[1..], b[1..], c[1..]);
    }
  }

  /** Not less is transitive too. */
  lemma NotLessTransitive(a: string, b: string, c: string)
    requires !Less(b, a) && !Less(c, b)
    ensures !Less(c, a)
  {
    LessTotal(a, b);
    LessTotal(b, c);
    LessTotal(a, c);
    if Less(a, b) && Less(b, c) {
      LessTransitive(a, b, c);
    }
  }

  lemma BeforeTotal(x: Log, y: Log)
    ensures Before(x, y) ==> !Before(y, x)
    ensures !Before(x, y) && !Before(y, x) ==> x.timestamp == y.timestamp && x.id == y.id
  {
    LessTotal(x.id, y.id);
  }

  lemma NotBeforeTransitive(x: Log, y: Log, z: Log)
    requires !Before(y, x) && !Before(z, y)
    ensures !Before(z, x)
  {
    if x.timestamp == y.timestamp == z.timestamp {
      NotLessTransitive(x.id, y.id, z.id);
    }
  }

  lemma OrderIsTotal(sortDir: string)
    ensures TotalPreorder(Order(sortDir))
  {
    var le := Order(sortDir);
    forall a, b
      ensures le(a, b) || le(b, a)
    {
      BeforeTotal(a, b);
    }
    forall a, b, c | le(a, b) && le(b, c)
      ensures le(a, c)
    {
      if sortDir == "asc" { NotBeforeTransitive(a, b, c); } else { NotBeforeTransitive(c, b, a); }
    }
  }

  // ---------------------------------------------------------- distinct rows

  ghost predicate DistinctIds(rows: seq<Log>)
  {
    forall i, j :: 0 <= i < j < |rows| ==> rows[i].id != rows[j].id
  }

  lemma {:induction false} FilterDistinct(keep: Log -> bool, rows: seq<Log>)
    requires DistinctIds(rows)
    ensures DistinctIds(Filter(keep, rows))
  {
    if rows != [] {
      FilterDistinct(keep, rows[1..]);
      FilterMembers(keep, rows[1..]);
      var rest := Filter(keep, rows[1..]);
      forall j | 0 <= j < |rest|
        ensures rest[j].id != rows[0].id
      {
        assert rest[j] in rest;
        var k :| 0 <= k < |rows[1..]| && rows[1..][k] == rest[j];
        assert rows[k + 1] == rest[j];
      }
    }
  }

  lemma {:induction false} InsertDistinct(le: (Log, Log) -> bool, rows: seq<Log>, x: Log)
    requires DistinctIds(rows) && forall y :: y in rows ==> y.id != x.id
    ensures DistinctIds(Insert(le, rows, x))
  {
    if rows != [] && le(rows[0], x) {
      InsertDistinct(le, rows[1..], x);
      InsertMembers(le, rows[1..], x);
      var rest := Insert(le, rows[1..], x);
      forall j | 0 <= j < |rest|
        ensures rest[j].id != rows[0].id
      {
        assert rest[j] in rest;
        assert rows[0] in rows;
        assert rest[j] == x || exists k :: 1 <= k < |rows| && rows[k] == rest[j];
      }
    }
  }

  lemma {:induction false} SortDistinct(le: (Log, Log) -> bool, rows: seq<Log>)
    requires DistinctIds(rows)
    ensures DistinctIds(Sort(le, rows))
  {
    if rows != [] {
      var init, last := rows[..|rows| - 1], rows[|rows| - 1];
      SortDistinct(le, init);
      SortMembers(le, init);
      InsertDistinct(le, Sort(le, init), last);
    }
  }

  // ------------------------------------------------- in words of the columns

  /** The first differing character decides; a proper prefix comes first. */
  ghost predicate Below(a: string, b: string)
  {
    exists n: nat :: n <= |a| && n <= |b| && a[..n] == b[..n] &&
      (if n == |a| then n < |b| else n < |b| && a[n] < b[n])
  }

  lemma {:induction false} LessIsBelow(a: string, b: string)
    ensures Less(a, b) <==> Below(a, b)
  {
    if a != "" && b != "" && a[0] == b[0] {
      LessIsBelow(a[1..], b[1..]);
      if Below(a[1..], b[1..]) {
        var n: nat :| n <= |a[1..]| && n <= |b[1..]| && a[1..][..n] == b[1..][..n] &&
          (if n == |a[1..]| then n < |b[1..]| else n < |b[1..]| && a[1..][n] < b[1..][n]);
        assert a[..n + 1] == [a[0]] + a[1..][..n] && b[..n + 1] == [b[0]] + b[1..][..n];
      }
      if Below(a, b) {
        var n: nat :| n <= |a| && n <= |b| && a[..n] == b[..n] &&
          (if n == |a| then n < |b| else n < |b| && a[n] < b[n]);
        assert n > 0;
        assert a[1..][..n - 1] == a[..n][1..] && b[1..][..n - 1] == b[..n][1..];
      }
    } else if b != "" && (a == "" || a[0] < b[0]) {
      assert a[..0] == b[..0];
    } else {
      forall n: nat | 0 < n <= |a| && n <= |b|
        ensures a[..n] == b[..n] ==> a[0] == b[0]
      {
        assert a[..n][0] == a[0] && b[..n][0] == b[0];
      }
    }
  }

  ghost predicate Earlier(x: Log, y: Log)
  {
    x.timestamp < y.timestamp || (x.timestamp == y.timestamp && Below(x.id, y.id))
  }

  /** Oldest first when ascending is asked for, newest first otherwise. */
  ghost predicate InOrder(sortDir: string, rows: seq<Log>)
  {
    forall i, j :: 0 <= i < j < |rows| ==>
      if sortDir == "asc" then Earlier(rows[i], rows[j]) else Earlier(rows[j], rows[i])
  }

  lemma BeforeIsEarlier(x: Log, y: Log)
    ensures Before(x, y) <==> Earlier(x, y)
  {
    LessIsBelow(x.id, y.id);
  }

  /** Rows of distinct ids are sorted exactly when they are in that order. */
  lemma SortedIsInOrder(sortDir: string, rows: seq<Log>)
    requires DistinctIds(rows)
    ensures SortedBy(Order(sortDir), rows) <==> InOrder(sortDir, rows)
  {
    forall i, j | 0 <= i < j < |rows|
      ensures Order(sortDir)(rows[i], rows[j]) <==>
              if sortDir == "asc" then Earlier(rows[i], rows[j]) else Earlier(rows[j], rows[i])
    {
      BeforeTotal(rows[i], rows[j]);
      BeforeIsEarlier(rows[i], rows[j]);
      BeforeIsEarlier(rows[j], rows[i]);
    }
  }

  lemma SameFirst(sortDir: string, a: seq<Log>, b: seq<Log>)
    requires multiset(a) == multiset(b) && InOrder(sortDir, a) && InOrder(sortDir, b) && a != [] && b != []
    ensures a[0] == b[0]
  {
    assert a[0] in multiset(b) && b[0] in multiset(a);
    var i :| 0 <= i < |a| && a[i] == b[0];
    var j :| 0 <= j < |b| && b[j] == a[0];
    BeforeIsEarlier(a[0], b[0]);
    BeforeIsEarlier(b[0], a[0]);
    BeforeTotal(a[0], b[0]);
    BeforeTotal(b[0], a[0]);
    assert i == 0 || j == 0;
  }

  lemma RestOf(a: seq<Log>)
    requires a != []
    ensures multiset(a[1..]) == multiset(a) - multiset{a[0]}
  {
    assert a == [a[0]] + a[1..];
  }

  /** There is one way to put rows in order. */
  lemma {:induction false} OneOrder(sortDir: string, a: seq<Log>, b: seq<Log>)
    requires multiset(a) == multiset(b) && InOrder(sortDir, a) && InOrder(sortDir, b)
    ensures a == b
    decreases |a|
  {
    assert |multiset(a)| == |a| && |multiset(b)| == |b|;
    if a != [] {
      SameFirst(sortDir, a, b);
      RestOf(a);
      RestOf(b);
      OneOrder(sortDir, a[1..], b[1..]);
    }
  }
}
