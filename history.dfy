/** The history queries: for one client address, the most recent sessions
    (or sub-test rows) of each kind, newest first, at most five. */
module History {
  import opened Models
  import opened Queries
  import opened Recency

  /** How many sessions or rows a history query returns at most. */
  const MaxHistory: nat := 5

  /** One element of a history reply: what was found and its session's time. */
  datatype Entry<T> = Entry(test: T, timestamp: nat)

  /** One web measurement with the TCP connections recorded for it. */
  datatype WebEntry = WebEntry(test: Row, tcpConnect: seq<Row>, timestamp: nat)

  /** The rows whose owner column names `id`, in table order. */
  function OwnedBy(rows: seq<Row>, id: nat): (r: seq<Row>)
    ensures forall x :: x in r <==> x in rows && x.testId == Some(id)
    ensures |r| <= |rows|
  {
    if rows == [] then []
    else (if rows[0].testId == Some(id) then [rows[0]] else []) + OwnedBy(rows[1..], id)
  }

  predicate HasOwned(rows: seq<Row>, id: nat)
  {
    exists j :: 0 <= j < |rows| && rows[j].testId == Some(id)
  }

  /** A session from this address that owns at least one row of the table. */
  predicate Qualifies(t: Test, rows: seq<Row>, ip: IpAddr)
  {
    t.publicIp == ip && HasOwned(rows, t.id)
  }

  // ---------------------------------------------------------------------
  // Sessions holding rows of one table
  // ---------------------------------------------------------------------

  /** The distinct (session id, timestamp) pairs of the join, in session
      table order. */
  function OwnerCandidates(tests: seq<Test>, rows: seq<Row>, ip: IpAddr): seq<(nat, nat)>
  {
    if tests == [] then []
    else
      (if Qualifies(tests[0], rows, ip) then [(tests[0].id, tests[0].timestamp)] else [])
      + OwnerCandidates(tests[1..], rows, ip)
  }

  /** Every candidate comes from a qualifying session. */
  lemma {:induction false} CandidateSource(tests: seq<Test>, rows: seq<Row>, ip: IpAddr, x: (nat, nat))
    requires x in OwnerCandidates(tests, rows, ip)
    ensures exists t :: t in tests && Qualifies(t, rows, ip) && x == (t.id, t.timestamp)
  {
    if !(Qualifies(tests[0], rows, ip) && x == (tests[0].id, tests[0].timestamp)) {
      CandidateSource(tests[1..], rows, ip, x);
      var t :| t in tests[1..] && Qualifies(t, rows, ip) && x == (t.id, t.timestamp);
      assert t in tests;
    }
  }

  /** Every qualifying session is a candidate. */
  lemma {:induction false} CandidateOf(tests: seq<Test>, rows: seq<Row>, ip: IpAddr, t: Test)
    requires t in tests && Qualifies(t, rows, ip)
    ensures (t.id, t.timestamp) in OwnerCandidates(tests, rows, ip)
  {
    if t != tests[0] {
      CandidateOf(tests[1..], rows, ip, t);
    }
  }

  /** Candidates in strictly increasing id and ascending time order. */
  predicate IdAndTimeOrdered(c: seq<(nat, nat)>)
  {
    forall i, j :: 0 <= i < j < |c| ==> c[i].0 < c[j].0 && c[i].1 <= c[j].1
  }

  /** The first session precedes, in id and time, every candidate of the
      sessions after it. */
  lemma HeadPrecedes(tests: seq<Test>, rows: seq<Row>, ip: IpAddr, x: (nat, nat))
    requires TestsOrdered(tests) && tests != []
    requires x in OwnerCandidates(tests[1..], rows, ip)
    ensures tests[0].id < x.0 && tests[0].timestamp <= x.1
  {
    CandidateSource(tests[1..], rows, ip, x);
    var u :| u in tests[1..] && Qualifies(u, rows, ip) && x == (u.id, u.timestamp);
    var k :| 0 <= k < |tests[1..]| && tests[1..][k] == u;
    assert tests[k + 1] == u;
  }

  /** Putting a pair that precedes every element in front keeps the order. */
  lemma ConsOrdered(p: (nat, nat), rest: seq<(nat, nat)>)
    requires IdAndTimeOrdered(rest)
    requires forall x :: x in rest ==> p.0 < x.0 && p.1 <= x.1
    ensures IdAndTimeOrdered([p] + rest)
  {
    var c := [p] + rest;
    forall i, j | 0 <= i < j < |c| ensures c[i].0 < c[j].0 && c[i].1 <= c[j].1 {
      assert c[j] == rest[j - 1];
      if i > 0 {
        assert c[i] == rest[i - 1];
      }
    }
  }

  /** Sessions are kept in id and time order, so the candidates ascend in
      both. */
  lemma {:induction false} OwnerCandidatesOrdered(tests: seq<Test>, rows: seq<Row>, ip: IpAddr)
    requires TestsOrdered(tests)
    ensures var c := OwnerCandidates(tests, rows, ip);
            Ascending(c) && forall i, j :: 0 <= i < j < |c| ==> c[i].0 < c[j].0
  {
    if tests != [] {
      var t := tests[0];
      var rest := OwnerCandidates(tests[1..], rows, ip);
      assert TestsOrdered(tests[1..]);
      OwnerCandidatesOrdered(tests[1..], rows, ip);
      assert IdAndTimeOrdered(rest);
      var c := OwnerCandidates(tests, rows, ip);
      if Qualifies(t, rows, ip) {
        forall x | x in rest ensures t.id < x.0 && t.timestamp <= x.1 {
          HeadPrecedes(tests, rows, ip, x);
        }
        ConsOrdered((t.id, t.timestamp), rest);
        assert c == [(t.id, t.timestamp)] + rest;
      } else {
        assert c == rest;
      }
      assert IdAndTimeOrdered(c);
    }
  }

  /** get_tests_with_list: the five most recent sessions from the address
      holding rows of the table, each with all of its rows. */
  function ListHistory(tests: seq<Test>, rows: seq<Row>, ip: IpAddr): seq<Entry<seq<Row>>>
  {
    var sel := TakeRecent(OwnerCandidates(tests, rows, ip), MaxHistory);
    seq(|sel|, i requires 0 <= i < |sel| => Entry(OwnedBy(rows, sel[i].0), sel[i].1))
  }

  /** At most five entries, newest first. */
  lemma ListHistoryOrdered(tests: seq<Test>, rows: seq<Row>, ip: IpAddr)
    requires TestsOrdered(tests)
    ensures var h := ListHistory(tests, rows, ip);
            && |h| <= MaxHistory
            && forall i, j :: 0 <= i < j < |h| ==> h[i].timestamp >= h[j].timestamp
  {
    var c := OwnerCandidates(tests, rows, ip);
    var sel := TakeRecent(c, MaxHistory);
    var h := ListHistory(tests, rows, ip);
    OwnerCandidatesOrdered(tests, rows, ip);
    TakeRecentDescending(c, MaxHistory);
    forall i, j | 0 <= i < j < |h| ensures h[i].timestamp >= h[j].timestamp {
      assert h[i].timestamp == sel[i].1 && h[j].timestamp == sel[j].1;
    }
  }

  /** Entry i is the (i+1)-th newest candidate with all of its rows. */
  lemma ListHistoryEntry(tests: seq<Test>, rows: seq<Row>, ip: IpAddr, i: nat)
    requires i < |ListHistory(tests, rows, ip)|
    ensures var c := OwnerCandidates(tests, rows, ip);
            && i < |c|
            && var x := c[|c| - 1 - i];
               ListHistory(tests, rows, ip)[i] == Entry(OwnedBy(rows, x.0), x.1)
  {
    var c := OwnerCandidates(tests, rows, ip);
    var sel := TakeRecent(c, MaxHistory);
    assert sel[i] == c[|c| - 1 - i];
  }

  /** Every entry is a session from the address: all of its rows (at least
      one) and its timestamp. */
  lemma ListHistorySound(tests: seq<Test>, rows: seq<Row>, ip: IpAddr, i: nat)
    requires i < |ListHistory(tests, rows, ip)|
    ensures var h := ListHistory(tests, rows, ip);
            && h[i].test != []
            && exists t :: t in tests && Qualifies(t, rows, ip) && h[i] == Entry(OwnedBy(rows, t.id), t.timestamp)
  {
    var c := OwnerCandidates(tests, rows, ip);
    ListHistoryEntry(tests, rows, ip, i);
    var x := c[|c| - 1 - i];
    CandidateSource(tests, rows, ip, x);
    var t :| t in tests && Qualifies(t, rows, ip) && x == (t.id, t.timestamp);
    var h := ListHistory(tests, rows, ip);
    assert h[i] == Entry(OwnedBy(rows, t.id), t.timestamp);
    var j :| 0 <= j < |rows| && rows[j].testId == Some(t.id);
    assert rows[j] in h[i].test;
  }

  /** No session appears twice. */
  lemma ListHistoryDistinct(tests: seq<Test>, rows: seq<Row>, ip: IpAddr)
    requires TestsOrdered(tests)
    ensures var h := ListHistory(tests, rows, ip);
            forall i, j :: 0 <= i < j < |h| ==> h[i].test != h[j].test
  {
    var c := OwnerCandidates(tests, rows, ip);
    var sel := TakeRecent(c, MaxHistory);
    var h := ListHistory(tests, rows, ip);
    OwnerCandidatesOrdered(tests, rows, ip);
    TakeRecentDistinct(c, MaxHistory);
    forall i, j | 0 <= i < j < |h| ensures h[i].test != h[j].test {
      ListHistorySound(tests, rows, ip, i);
      var x := h[i].test[0];
      assert x in OwnedBy(rows, sel[i].0);
    }
  }

  /** Ties on the timestamp are broken by session id, newest session first:
      the rows of a later entry belong to an older session. */
  lemma ListHistoryNewestIdFirst(tests: seq<Test>, rows: seq<Row>, ip: IpAddr)
    requires TestsOrdered(tests)
    ensures var h := ListHistory(tests, rows, ip);
            forall i, j, x, y :: 0 <= i < j < |h| && x in h[i].test && y in h[j].test ==>
              x.testId.Some? && y.testId.Some? && x.testId.value > y.testId.value
  {
    var c := OwnerCandidates(tests, rows, ip);
    var sel := TakeRecent(c, MaxHistory);
    var h := ListHistory(tests, rows, ip);
    OwnerCandidatesOrdered(tests, rows, ip);
    TakeRecentDistinct(c, MaxHistory);
    forall i, j, x, y | 0 <= i < j < |h| && x in h[i].test && y in h[j].test
      ensures x.testId.Some? && y.testId.Some? && x.testId.value > y.testId.value
    {
      assert h[i].test == OwnedBy(rows, sel[i].0) && h[j].test == OwnedBy(rows, sel[j].0);
    }
  }

  /** A candidate among the newest five is listed. */
  lemma CandidateListed(tests: seq<Test>, rows: seq<Row>, ip: IpAddr, t: Test, p: nat)
    requires p < |OwnerCandidates(tests, rows, ip)| && OwnerCandidates(tests, rows, ip)[p] == (t.id, t.timestamp)
    requires p >= |OwnerCandidates(tests, rows, ip)| - |TakeRecent(OwnerCandidates(tests, rows, ip), MaxHistory)|
    ensures var h := ListHistory(tests, rows, ip);
            exists i :: 0 <= i < |h| && h[i] == Entry(OwnedBy(rows, t.id), t.timestamp)
  {
    var c := OwnerCandidates(tests, rows, ip);
    var sel := TakeRecent(c, MaxHistory);
    var h := ListHistory(tests, rows, ip);
    var j := |c| - 1 - p;
    assert sel[j] == c[p];
    assert h[j] == Entry(OwnedBy(rows, t.id), t.timestamp);
  }

  /** A candidate older than the newest five is outranked by a full reply. */
  lemma CandidateOutranked(tests: seq<Test>, rows: seq<Row>, ip: IpAddr, t: Test, p: nat)
    requires TestsOrdered(tests)
    requires p < |OwnerCandidates(tests, rows, ip)| && OwnerCandidates(tests, rows, ip)[p] == (t.id, t.timestamp)
    requires p < |OwnerCandidates(tests, rows, ip)| - |TakeRecent(OwnerCandidates(tests, rows, ip), MaxHistory)|
    ensures var h := ListHistory(tests, rows, ip);
            |h| == MaxHistory && forall i :: 0 <= i < |h| ==> t.timestamp <= h[i].timestamp
  {
    var c := OwnerCandidates(tests, rows, ip);
    var sel := TakeRecent(c, MaxHistory);
    var h := ListHistory(tests, rows, ip);
    OwnerCandidatesOrdered(tests, rows, ip);
    forall i | 0 <= i < |h| ensures t.timestamp <= h[i].timestamp {
      assert h[i].timestamp == sel[i].1 == c[|c| - 1 - i].1;
    }
  }

  /** A session from the address holding rows of the table is listed, unless
      five sessions at least as recent fill the reply. */
  lemma ListHistoryComplete(tests: seq<Test>, rows: seq<Row>, ip: IpAddr, t: Test)
    requires TestsOrdered(tests)
    requires t in tests && Qualifies(t, rows, ip)
    ensures var h := ListHistory(tests, rows, ip);
            || (exists i :: 0 <= i < |h| && h[i] == Entry(OwnedBy(rows, t.id), t.timestamp))
            || (|h| == MaxHistory && forall i :: 0 <= i < |h| ==> t.timestamp <= h[i].timestamp)
  {
    var c := OwnerCandidates(tests, rows, ip);
    CandidateOf(tests, rows, ip, t);
    var p :| 0 <= p < |c| && c[p] == (t.id, t.timestamp);
    if p >= |c| - |TakeRecent(c, MaxHistory)| {
      CandidateListed(tests, rows, ip, t, p);
    } else {
      CandidateOutranked(tests, rows, ip, t, p);
    }
  }

  /** The loop of get_tests_with_list over the selected sessions. */
  method GetTestsWithList(store: Store, ip: IpAddr, k: Kind) returns (results: seq<Entry<seq<Row>>>)
    ensures results == ListHistory(store.tests, store.sub.Get(k), ip)
  {
    var rows := store.sub.Get(k);
    var sel := TakeRecent(OwnerCandidates(store.tests, rows, ip), MaxHistory);
    ghost var l := ListHistory(store.tests, rows, ip);
    results := [];
    var i := 0;
    while i < |sel|
      invariant 0 <= i <= |sel| && |l| == |sel|
      invariant |results| == i
      invariant forall j :: 0 <= j < i ==> results[j] == l[j]
    {
      var e := Entry(OwnedBy(rows, sel[i].0), sel[i].1);
      assert e == l[i];
      results := results + [e];
      i := i + 1;
    }
  }

  // ---------------------------------------------------------------------
  // Devices: sessions with their vendors
  // ---------------------------------------------------------------------

  predicate AllDevices(rows: seq<Row>)
  {
    forall x :: x in rows ==> x.payload.DevicesRow?
  }

  /** The vendor lookup for each device row, in order. */
  function Vendors(manufs: seq<MacManuf>, rows: seq<Row>): seq<VendorInfo>
    requires AllDevices(rows)
  {
    seq(|rows|, j requires 0 <= j < |rows| =>
      GetManuf(manufs, rows[j].payload.devices.mac, rows[j].payload.devices.mask))
  }

  /** get_devices_tests: the sessions of get_tests_with_list over the device
      table, each row replaced by its vendor lookup. */
  method GetDevicesTests(store: Store, ip: IpAddr) returns (results: seq<Entry<seq<VendorInfo>>>)
    requires AllDevices(store.sub.devices)
    ensures var l := ListHistory(store.tests, store.sub.devices, ip);
            && |results| == |l|
            && forall i :: 0 <= i < |l| ==> results[i] == Entry(Vendors(store.manufs, l[i].test), l[i].timestamp)
  {
    var rows := store.sub.devices;
    var sel := TakeRecent(OwnerCandidates(store.tests, rows, ip), MaxHistory);
    ghost var l := ListHistory(store.tests, rows, ip);
    results := [];
    var i := 0;
    while i < |sel|
      invariant 0 <= i <= |sel|
      invariant |results| == i
      invariant forall j :: 0 <= j < i ==> results[j] == Entry(Vendors(store.manufs, l[j].test), l[j].timestamp)
    {
      var owned := OwnedBy(rows, sel[i].0);
      results := results + [Entry(Vendors(store.manufs, owned), sel[i].1)];
      i := i + 1;
    }
  }

  // ---------------------------------------------------------------------
  // Rows of one table, each stamped with its session's time
  // ---------------------------------------------------------------------

  function Stamp(rs: seq<Row>, ts: nat): (r: seq<(Row, nat)>)
    ensures |r| == |rs| && forall i :: 0 <= i < |rs| ==> r[i] == (rs[i], ts)
  {
    seq(|rs|, i requires 0 <= i < |rs| => (rs[i], ts))
  }

  /** The join of the table with the sessions from this address, in session
      order and, within a session, in table order. */
  function RowCandidates(tests: seq<Test>, rows: seq<Row>, ip: IpAddr): seq<(Row, nat)>
  {
    if tests == [] then []
    else
      (if tests[0].publicIp == ip then Stamp(OwnedBy(rows, tests[0].id), tests[0].timestamp) else [])
      + RowCandidates(tests[1..], rows, ip)
  }

  /** A row of a session from the address, stamped with that session's time. */
  predicate JoinedFrom(t: Test, x: (Row, nat), rows: seq<Row>, ip: IpAddr)
  {
    t.publicIp == ip && x.0 in rows && x.0.testId == Some(t.id) && x.1 == t.timestamp
  }

  /** Every joined row comes from a session from the address. */
  lemma {:induction false} RowCandidateSource(tests: seq<Test>, rows: seq<Row>, ip: IpAddr, x: (Row, nat))
    requires x in RowCandidates(tests, rows, ip)
    ensures exists t :: t in tests && JoinedFrom(t, x, rows, ip)
  {
    var head := if tests[0].publicIp == ip then Stamp(OwnedBy(rows, tests[0].id), tests[0].timestamp) else [];
    if x in head {
      var k :| 0 <= k < |head| && head[k] == x;
      assert x.0 in OwnedBy(rows, tests[0].id);
      assert JoinedFrom(tests[0], x, rows, ip);
    } else {
      RowCandidateSource(tests[1..], rows, ip, x);
      var t :| t in tests[1..] && JoinedFrom(t, x, rows, ip);
      assert t in tests;
    }
  }

  /** Every row of a session from the address is joined. */
  lemma {:induction false} RowCandidateOf(tests: seq<Test>, rows: seq<Row>, ip: IpAddr, t: Test, x: (Row, nat))
    requires t in tests && JoinedFrom(t, x, rows, ip)
    ensures x in RowCandidates(tests, rows, ip)
  {
    if t == tests[0] {
      var owned := OwnedBy(rows, t.id);
      assert x.0 in owned;
      var k :| 0 <= k < |owned| && owned[k] == x.0;
      assert Stamp(owned, t.timestamp)[k] == x;
    } else {
      RowCandidateOf(tests[1..], rows, ip, t, x);
    }
  }

  /** Joined rows ascend in time because sessions do. */
  lemma {:induction false} RowCandidatesAscending(tests: seq<Test>, rows: seq<Row>, ip: IpAddr)
    requires TestsOrdered(tests)
    ensures Ascending(RowCandidates(tests, rows, ip))
  {
    if tests != [] {
      var t := tests[0];
      var head := if t.publicIp == ip then Stamp(OwnedBy(rows, t.id), t.timestamp) else [];
      var rest := RowCandidates(tests[1..], rows, ip);
      RowCandidatesAscending(tests[1..], rows, ip);
      forall x | x in rest ensures t.timestamp <= x.1 {
        RowCandidateSource(tests[1..], rows, ip, x);
        var u :| u in tests[1..] && JoinedFrom(u, x, rows, ip);
        var k :| 0 <= k < |tests[1..]| && tests[1..][k] == u;
        assert tests[k + 1] == u;
      }
      var c := RowCandidates(tests, rows, ip);
      assert c == head + rest;
      forall i, j | 0 <= i < j < |c| ensures c[i].1 <= c[j].1 {
        if j < |head| {
          assert c[i] == head[i] && c[j] == head[j];
        } else if i < |head| {
          assert c[i] == head[i] && c[j] == rest[j - |head|];
          assert c[j] in rest;
        } else {
          assert c[i] == rest[i - |head|] && c[j] == rest[j - |head|];
        }
      }
    }
  }

  /** get_tests: the five most recent rows of the table from sessions from
      the address, each with its session's time. */
  function GetTests(tests: seq<Test>, rows: seq<Row>, ip: IpAddr): seq<Entry<Row>>
  {
    var sel := TakeRecent(RowCandidates(tests, rows, ip), MaxHistory);
    seq(|sel|, i requires 0 <= i < |sel| => Entry(sel[i].0, sel[i].1))
  }

  /** At most five rows, newest first. */
  lemma GetTestsOrdered(tests: seq<Test>, rows: seq<Row>, ip: IpAddr)
    requires TestsOrdered(tests)
    ensures var h := GetTests(tests, rows, ip);
            && |h| <= MaxHistory
            && forall i, j :: 0 <= i < j < |h| ==> h[i].timestamp >= h[j].timestamp
  {
    var c := RowCandidates(tests, rows, ip);
    var sel := TakeRecent(c, MaxHistory);
    var h := GetTests(tests, rows, ip);
    RowCandidatesAscending(tests, rows, ip);
    TakeRecentDescending(c, MaxHistory);
    forall i, j | 0 <= i < j < |h| ensures h[i].timestamp >= h[j].timestamp {
      assert h[i].timestamp == sel[i].1 && h[j].timestamp == sel[j].1;
    }
  }

  /** Each entry is one of the joined rows. */
  lemma GetTestsEntry(tests: seq<Test>, rows: seq<Row>, ip: IpAddr, i: nat)
    requires i < |GetTests(tests, rows, ip)|
    ensures var h := GetTests(tests, rows, ip);
            (h[i].test, h[i].timestamp) in RowCandidates(tests, rows, ip)
  {
    var c := RowCandidates(tests, rows, ip);
    var sel := TakeRecent(c, MaxHistory);
    assert sel[i] == c[|c| - 1 - i];
  }

  /** Every entry is a row owned by a session from the address, with that
      session's time. */
  lemma GetTestsSound(tests: seq<Test>, rows: seq<Row>, ip: IpAddr, i: nat)
    requires i < |GetTests(tests, rows, ip)|
    ensures var h := GetTests(tests, rows, ip);
            exists t :: t in tests && JoinedFrom(t, (h[i].test, h[i].timestamp), rows, ip)
  {
    var h := GetTests(tests, rows, ip);
    GetTestsEntry(tests, rows, ip, i);
    RowCandidateSource(tests, rows, ip, (h[i].test, h[i].timestamp));
  }

  /** A joined row among the newest five is listed. */
  lemma RowListed(tests: seq<Test>, rows: seq<Row>, ip: IpAddr, p: nat)
    requires p < |RowCandidates(tests, rows, ip)|
    requires p >= |RowCandidates(tests, rows, ip)| - |TakeRecent(RowCandidates(tests, rows, ip), MaxHistory)|
    ensures var h := GetTests(tests, rows, ip);
            var x := RowCandidates(tests, rows, ip)[p];
            exists i :: 0 <= i < |h| && h[i] == Entry(x.0, x.1)
  {
    var c := RowCandidates(tests, rows, ip);
    var sel := TakeRecent(c, MaxHistory);
    var h := GetTests(tests, rows, ip);
    var j := |c| - 1 - p;
    assert sel[j] == c[p];
    assert h[j] == Entry(c[p].0, c[p].1);
  }

  /** A joined row older than the newest five is outranked by a full reply. */
  lemma RowOutranked(tests: seq<Test>, rows: seq<Row>, ip: IpAddr, p: nat)
    requires TestsOrdered(tests)
    requires p < |RowCandidates(tests, rows, ip)| - |TakeRecent(RowCandidates(tests, rows, ip), MaxHistory)|
    ensures var h := GetTests(tests, rows, ip);
            var x := RowCandidates(tests, rows, ip)[p];
            |h| == MaxHistory && forall i :: 0 <= i < |h| ==> x.1 <= h[i].timestamp
  {
    var c := RowCandidates(tests, rows, ip);
    var sel := TakeRecent(c, MaxHistory);
    var h := GetTests(tests, rows, ip);
    RowCandidatesAscending(tests, rows, ip);
    forall i | 0 <= i < |h| ensures c[p].1 <= h[i].timestamp {
      assert h[i].timestamp == sel[i].1 == c[|c| - 1 - i].1;
    }
  }

  /** A row of a session from the address is listed, unless five rows at
      least as recent fill the reply. */
  lemma GetTestsComplete(tests: seq<Test>, rows: seq<Row>, ip: IpAddr, t: Test, r: Row)
    requires TestsOrdered(tests)
    requires t in tests && t.publicIp == ip && r in rows && r.testId == Some(t.id)
    ensures var h := GetTests(tests, rows, ip);
            || (exists i :: 0 <= i < |h| && h[i] == Entry(r, t.timestamp))
            || (|h| == MaxHistory && forall i :: 0 <= i < |h| ==> t.timestamp <= h[i].timestamp)
  {
    var c := RowCandidates(tests, rows, ip);
    assert JoinedFrom(t, (r, t.timestamp), rows, ip);
    RowCandidateOf(tests, rows, ip, t, (r, t.timestamp));
    var p :| 0 <= p < |c| && c[p] == (r, t.timestamp);
    if p >= |c| - |TakeRecent(c, MaxHistory)| {
      RowListed(tests, rows, ip, p);
    } else {
      RowOutranked(tests, rows, ip, p);
    }
  }

  // ---------------------------------------------------------------------
  // Web measurements with their TCP connections
  // ---------------------------------------------------------------------

  /** get_ooni_web_tests: the rows of get_tests over the web table, each with
      the TCP connection rows that name it as owner. */
  method GetOoniWebTests(store: Store, ip: IpAddr) returns (results: seq<WebEntry>)
    ensures var g := GetTests(store.tests, store.sub.web, ip);
            && |results| == |g|
            && forall i :: 0 <= i < |g| ==>
                 results[i] == WebEntry(g[i].test, OwnedBy(store.sub.tcpConnect, g[i].test.id), g[i].timestamp)
  {
    var sel := TakeRecent(RowCandidates(store.tests, store.sub.web, ip), MaxHistory);
    ghost var g := GetTests(store.tests, store.sub.web, ip);
    results := [];
    var i := 0;
    while i < |sel|
      invariant 0 <= i <= |sel|
      invariant |results| == i
      invariant forall j :: 0 <= j < i ==>
                  results[j] == WebEntry(g[j].test, OwnedBy(store.sub.tcpConnect, g[j].test.id), g[j].timestamp)
    {
      var web := sel[i].0;
      var tcpConnect := OwnedBy(store.sub.tcpConnect, web.id);
      results := results + [WebEntry(web, tcpConnect, sel[i].1)];
      i := i + 1;
    }
  }
}
