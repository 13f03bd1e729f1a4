/** The persistence queries: the store (one sequence of rows per table, a
    fresh-id counter and the server clock), inserts that commit one row at a
    time, the ASN and vendor lookups, and the spreading of a submission into
    the columns of its row. */
module Queries {
  import opened Models
  import opened Schemas

  /** What a failed insert raises. */
  datatype DbError =
    | InvalidKeyword(names: set<string>)   // the row constructor got a field the table lacks
    | NotNullViolation(column: string)     // commit refused a null in a NOT NULL column
    | ForeignKeyViolation(column: string)  // commit refused a reference to a missing row

  datatype Result<+T> = Ok(value: T) | Err(error: DbError)

  /** The database as the core sees it. The reference tables are fixed for the
      life of the store; sessions and sub-tests are only ever appended. */
  class Store {
    const asns: seq<Asn>
    const networks: seq<AsnNetwork>
    const manufs: seq<MacManuf>
    var tests: seq<Test>
    var sub: SubTables
    var nextId: nat
    var clock: nat

    ghost predicate Valid()
      reads this
    {
      StoreOk(asns, tests, sub, nextId, clock)
    }

    constructor (asns: seq<Asn>, networks: seq<AsnNetwork>, manufs: seq<MacManuf>)
      requires ReferenceTablesOk(asns, networks, manufs)
      ensures Valid()
      ensures this.asns == asns && this.networks == networks && this.manufs == manufs
      ensures ReferenceTablesOk(this.asns, this.networks, this.manufs)
      ensures tests == [] && sub == NoSubTests
    {
      this.asns := asns;
      this.networks := networks;
      this.manufs := manufs;
      tests := [];
      sub := NoSubTests;
      nextId := 1;
      clock := 0;
    }

    /** Adds and commits one session row; the server clock advances by
        `elapsed` and stamps it, and the next id is assigned. */
    method AddTest(ip: IpAddr, asnId: Option<int>, info: TestInfo, elapsed: nat) returns (r: Result<nat>)
      requires Valid()
      modifies this
      ensures Valid()
      ensures r.Ok? <==> asnId.None? || HasAsn(asns, asnId.value)
      ensures r.Ok? ==> && r.value == old(nextId) && nextId == old(nextId) + 1
                        && clock == old(clock) + elapsed
                        && tests == old(tests) + [Test(r.value, ip, clock, asnId, info)]
      ensures r.Err? ==> && r.error == ForeignKeyViolation("asn_id")
                         && tests == old(tests) && nextId == old(nextId) && clock == old(clock)
      ensures sub == old(sub)
    {
      if asnId.Some? && !HasAsn(asns, asnId.value) {
        r := Err(ForeignKeyViolation("asn_id"));
        return;
      }
      var t := Test(nextId, ip, clock + elapsed, asnId, info);
      ghost var tests0, nextId0, clock0 := tests, nextId, clock;
      tests := tests + [t];
      r := Ok(nextId);
      nextId := nextId + 1;
      clock := clock + elapsed;
      AppendTestKeepsOk(asns, tests0, sub, nextId0, clock0, t, tests, nextId);
    }

    /** Adds and commits one sub-test row with the next id; the commit checks
        the owner column's NOT NULL and foreign-key constraints. */
    method AddRow(testId: Option<nat>, p: Payload) returns (r: Result<nat>)
      requires Valid()
      modifies this
      ensures Valid()
      ensures r.Ok? <==> OwnerOk(old(tests), old(sub), KindOf(p), testId)
      ensures r.Ok? ==> && r.value == old(nextId) && nextId == old(nextId) + 1
                        && sub == old(sub).Put(KindOf(p), old(sub).Get(KindOf(p)) + [Row(r.value, testId, p)])
      ensures r.Err? ==> nextId == old(nextId) && sub == old(sub)
      ensures tests == old(tests) && clock == old(clock)
    {
      var k := KindOf(p);
      if testId.None? && OwnerRequired(k) {
        r := Err(NotNullViolation("test_id"));
        return;
      }
      if testId.Some? && !OwnerExists(tests, sub, k, testId.value) {
        r := Err(ForeignKeyViolation("test_id"));
        return;
      }
      var row := Row(nextId, testId, p);
      ghost var sub0, nextId0 := sub, nextId;
      sub := sub.Put(k, sub.Get(k) + [row]);
      r := Ok(nextId);
      nextId := nextId + 1;
      AppendRowKeepsOk(asns, tests, sub0, nextId0, clock, row, sub, nextId);
    }
  }

  // ---------------------------------------------------------------------
  // ASN resolution
  // ---------------------------------------------------------------------

  /** The network row has a block that strictly contains the address. */
  predicate Covers(n: AsnNetwork, ip: IpAddr)
  {
    n.network.Some? && StrictlyContains(n.network.value, ip)
  }

  /** Some network row owned by `a` covers the address. */
  predicate AsnCovers(networks: seq<AsnNetwork>, a: Asn, ip: IpAddr)
  {
    exists i :: 0 <= i < |networks| && networks[i].asn == Some(a.id) && Covers(networks[i], ip)
  }

  function FindAsn(asns: seq<Asn>, id: int): (r: Option<Asn>)
    ensures r.Some? <==> HasAsn(asns, id)
    ensures r.Some? ==> r.value in asns && r.value.id == id
  {
    if asns == [] then None
    else if asns[0].id == id then Some(asns[0])
    else
      var r := FindAsn(asns[1..], id);
      assert HasAsn(asns, id) ==> HasAsn(asns[1..], id) by {
        if HasAsn(asns, id) {
          var i :| 0 <= i < |asns| && asns[i].id == id;
          assert asns[1..][i - 1].id == id;
        }
      }
      assert HasAsn(asns[1..], id) ==> HasAsn(asns, id) by {
        if HasAsn(asns[1..], id) {
          var i :| 0 <= i < |asns[1..]| && asns[1..][i].id == id;
          assert asns[i + 1].id == id;
        }
      }
      r
  }

  /** The join of ASNs with their networks under `>>`, first row. Which match
      is returned when several exist is not specified; this model takes the
      first covering network in table order. */
  function AsnByIp(asns: seq<Asn>, networks: seq<AsnNetwork>, ip: IpAddr): Option<Asn>
  {
    if networks == [] then None
    else
      var n := networks[0];
      var owner := if n.asn.Some? then FindAsn(asns, n.asn.value) else None;
      if Covers(n, ip) && owner.Some? then owner else AsnByIp(asns, networks[1..], ip)
  }

  /** The lookup finds an ASN exactly when one of its networks covers the
      address, and what it finds is such an ASN. */
  lemma {:induction false} AsnByIpSpec(asns: seq<Asn>, networks: seq<AsnNetwork>, ip: IpAddr)
    ensures var r := AsnByIp(asns, networks, ip);
            && (r.Some? ==> r.value in asns && AsnCovers(networks, r.value, ip))
            && (r.None? ==> forall a :: a in asns ==> !AsnCovers(networks, a, ip))
  {
    if networks != [] {
      var n := networks[0];
      var owner := if n.asn.Some? then FindAsn(asns, n.asn.value) else None;
      if Covers(n, ip) && owner.Some? {
        assert networks[0].asn == Some(owner.value.id);
      } else {
        AsnByIpSpec(asns, networks[1..], ip);
        forall a | AsnCovers(networks[1..], a, ip) ensures AsnCovers(networks, a, ip) {
          var i :| 0 <= i < |networks[1..]| && networks[1..][i].asn == Some(a.id) && Covers(networks[1..][i], ip);
          assert networks[i + 1] == networks[1..][i];
        }
        forall a | a in asns && AsnCovers(networks, a, ip) ensures AsnCovers(networks[1..], a, ip) {
          var i :| 0 <= i < |networks| && networks[i].asn == Some(a.id) && Covers(networks[i], ip);
          assert networks[1..][i - 1] == networks[i];
        }
      }
    }
  }

  // ---------------------------------------------------------------------
  // Vendor resolution
  // ---------------------------------------------------------------------

  /** What a vendor lookup yields: the stored row, or a record holding only
      the device's mac and mask. */
  datatype VendorInfo = Known(row: MacManuf) | Unknown(mac: string, mask: int)
  {
    function Mac(): string { if Known? then row.mac else mac }
    function Mask(): int { if Known? then row.mask else mask }
    function Manuf(): Option<string> { if Known? then row.manuf else None }
  }

  /** Whether a vendor row with this key exists. */
  function CheckMacMaskExists(manufs: seq<MacManuf>, mac: string, mask: int): (b: bool)
    ensures b <==> exists i :: 0 <= i < |manufs| && manufs[i].mac == mac && manufs[i].mask == mask
  {
    if manufs == [] then false
    else if manufs[0].mac == mac && manufs[0].mask == mask then true
    else
      var b := CheckMacMaskExists(manufs[1..], mac, mask);
      assert forall i :: 1 <= i < |manufs| ==> manufs[i] == manufs[1..][i - 1];
      b
  }

  /** The first vendor row with this key. */
  function FirstVendor(manufs: seq<MacManuf>, mac: string, mask: int): (r: Option<MacManuf>)
    ensures r.Some? <==> CheckMacMaskExists(manufs, mac, mask)
    ensures r.Some? ==> r.value in manufs && r.value.mac == mac && r.value.mask == mask
  {
    if manufs == [] then None
    else if manufs[0].mac == mac && manufs[0].mask == mask then Some(manufs[0])
    else
      var r := FirstVendor(manufs[1..], mac, mask);
      assert forall i :: 1 <= i < |manufs| ==> manufs[i] == manufs[1..][i - 1];
      r
  }

  /** The stored vendor row for (mac, mask) if there is one, otherwise a
      record with the same mac and mask and no manufacturer. */
  function GetManuf(manufs: seq<MacManuf>, mac: string, mask: int): (r: VendorInfo)
    ensures r.Known? <==> CheckMacMaskExists(manufs, mac, mask)
    ensures r.Known? ==> r.row in manufs
    ensures r.Mac() == mac && r.Mask() == mask
    ensures r.Unknown? ==> r.Manuf().None?
  {
    if CheckMacMaskExists(manufs, mac, mask) then Known(FirstVendor(manufs, mac, mask).value)
    else Unknown(mac, mask)
  }

  /** With the table's key unique, the lookup of a stored key returns exactly
      that row, comment and all. */
  lemma {:induction false} GetManufFindsStoredRow(manufs: seq<MacManuf>, i: nat)
    requires VendorKeysUnique(manufs) && i < |manufs|
    ensures GetManuf(manufs, manufs[i].mac, manufs[i].mask) == Known(manufs[i])
  {
    var r := GetManuf(manufs, manufs[i].mac, manufs[i].mask);
    assert CheckMacMaskExists(manufs, manufs[i].mac, manufs[i].mask);
    var j :| 0 <= j < |manufs| && manufs[j] == r.row;
  }

  // ---------------------------------------------------------------------
  // From a submission to a row
  // ---------------------------------------------------------------------

  /** A submission lacks a value for a column declared NOT NULL. */
  predicate MissingNotNull(s: Submission)
  {
    match s
    case WebTestOoni(w) => w.dnsConsistency.None?
    case TcpConnectWebTestOoni(t) => t.ip.None? || t.port.None?
    case _ => false
  }

  function WebColumns(w: WebIn, consistency: DnsConsistency): WebFields
  {
    WebFields(w.reportId, w.url, Some(w.resolverAsn), Some(w.resolverIp), Some(w.resolverNetworkName),
              w.clientResolver, w.dnsExperimentFailure, w.controlFailure, w.httpExperimentFailure,
              consistency, w.bodyLengthMatch, w.headersMatch, w.statusCodeMatch, w.titleMatch,
              w.accessible, w.blocking)
  }

  /** The row columns of every submitted field that is a column, with the
      NOT NULL columns checked. */
  function Columnwise(s: Submission): (r: Result<Payload>)
    ensures r.Ok? ==> KindOf(r.value) == SubmissionKind(s)
    ensures r.Err? <==> MissingNotNull(s)
  {
    match s
    case ProtocolTest(p) => Ok(ProtocolRow(p))
    case DevicesTest(d) => Ok(DevicesRow(DevicesFields(d.mac, d.mask, Some(d.router))))
    case DnsTest(d) => Ok(DnsRow(d))
    case NdtTestOoni(n) => Ok(NdtRow(n))
    case WebTestOoni(w) =>
      if w.dnsConsistency.None? then Err(NotNullViolation("dns_consistency"))
      else Ok(WebRow(WebColumns(w, w.dnsConsistency.value)))
    case TcpConnectWebTestOoni(t) =>
      if t.ip.None? then Err(NotNullViolation("ip"))
      else if t.port.None? then Err(NotNullViolation("port"))
      else Ok(TcpConnectRow(TcpConnectFields(t.ip.value, t.port.value, t.statusBlocked,
                                             t.statusFailureString, t.statusSuccess)))
  }

  function OrElse<T>(o: Option<T>, d: T): T { if o.Some? then o.value else d }

  /** Reads a row back as a submission of its kind (a device's private IP,
      which has no column, reads back empty). */
  function SchemaOf(p: Payload): Submission
  {
    match p
    case ProtocolRow(f) => ProtocolTest(f)
    case DevicesRow(f) => DevicesTest(DevicesIn(f.mac, f.mask, OrElse(f.router, false), ""))
    case DnsRow(f) => DnsTest(f)
    case NdtRow(f) => NdtTestOoni(f)
    case WebRow(f) =>
      WebTestOoni(WebIn(f.reportId, f.url, OrElse(f.resolverAsn, ""), OrElse(f.resolverIp, f.clientResolver),
                        OrElse(f.resolverNetworkName, ""), f.clientResolver, f.dnsExperimentFailure,
                        f.controlFailure, f.httpExperimentFailure, Some(f.dnsConsistency), f.bodyLengthMatch,
                        f.headersMatch, f.statusCodeMatch, f.titleMatch, f.accessible, f.blocking))
    case TcpConnectRow(f) =>
      TcpConnectWebTestOoni(TcpConnectIn(Some(f.ip), Some(f.port), f.statusBlocked, f.statusFailureString,
                                         f.statusSuccess))
  }

  /** Every field of the submission passed as a keyword to the row
      constructor: a field the table lacks raises before anything is added. */
  function Spread(s: Submission): (r: Result<Payload>)
    ensures r.Ok? ==> KindOf(r.value) == SubmissionKind(s)
    ensures r.Err? <==> s.DevicesTest? || MissingNotNull(s)
    ensures s.DevicesTest? ==> r == Err(InvalidKeyword({"private_ip"}))
  {
    var unknown := UnknownKeywords(SubmissionKind(s));
    if unknown != {} then Err(InvalidKeyword(unknown)) else Columnwise(s)
  }

  /** A stored row reads back as the submission it came from; a device loses
      only its private IP, which has no column. */
  lemma ColumnwiseRoundTrip(s: Submission)
    requires Columnwise(s).Ok?
    ensures SchemaOf(Columnwise(s).value) == if s.DevicesTest? then DevicesTest(s.device.(privateIp := "")) else s
  {
  }

  /** Whatever the spread does insert reads back as the whole submission. */
  lemma SpreadRoundTrip(s: Submission)
    requires Spread(s).Ok?
    ensures SchemaOf(Spread(s).value) == s
  {
    SpreadColumnwise(s);
    ColumnwiseRoundTrip(s);
  }

  /** Outside the devices table, spreading every field is spreading the
      columns. */
  lemma SpreadColumnwise(s: Submission)
    requires !s.DevicesTest?
    ensures Spread(s) == Columnwise(s)
  {
  }

  /** Python truthiness of the owner id: None and 0 are false. */
  predicate Truthy(idFk: Option<nat>)
  {
    idFk.Some? && idFk.value != 0
  }

  function OwnerColumn(idFk: Option<nat>): Option<nat>
  {
    if Truthy(idFk) then idFk else None
  }

  // ---------------------------------------------------------------------
  // Inserts
  // ---------------------------------------------------------------------

  /** The session row for a client address: tagged with the id of the ASN
      whose network covers the address, or with none. */
  function NewSession(asns: seq<Asn>, networks: seq<AsnNetwork>, id: nat, info: TestBaseIn, ip: IpAddr, timestamp: nat): Test
  {
    var asn := AsnByIp(asns, networks, ip);
    Test(id, ip, timestamp, if asn.Some? then Some(asn.value.id) else None, info)
  }

  /** A session for the client address; a failed ASN lookup never fails the
      insert. */
  method CreateTestBase(store: Store, info: TestBaseIn, ip: IpAddr, elapsed: nat) returns (id: nat)
    requires store.Valid()
    modifies store
    ensures store.Valid()
    ensures store.tests == old(store.tests)
                           + [NewSession(store.asns, store.networks, id, info, ip, old(store.clock) + elapsed)]
    ensures store.clock == old(store.clock) + elapsed
    ensures id == old(store.nextId) && store.nextId == id + 1
    ensures id >= 1 && HasTest(store.tests, id)
    ensures store.sub == old(store.sub)
  {
    var asn := AsnByIp(store.asns, store.networks, ip);
    var asnId := if asn.Some? then Some(asn.value.id) else None;
    AsnByIpSpec(store.asns, store.networks, ip);
    if asn.Some? {
      var j :| 0 <= j < |store.asns| && store.asns[j] == asn.value;
      assert HasAsn(store.asns, asn.value.id);
    }
    var r := store.AddTest(ip, asnId, info, elapsed);
    id := r.value;
    assert store.tests[|store.tests| - 1].id == id;
  }

  /** One sub-test row built by spreading the submission; the owner column is
      set only when `idFk` is truthy. A failure adds nothing. */
  method CreateSpecificTest(store: Store, s: Submission, idFk: Option<nat>) returns (r: Result<nat>)
    requires store.Valid()
    modifies store
    ensures store.Valid()
    ensures r.Ok? <==> Spread(s).Ok? && OwnerOk(old(store.tests), old(store.sub), SubmissionKind(s), OwnerColumn(idFk))
    ensures r.Ok? ==> && r.value == old(store.nextId) && store.nextId == r.value + 1
                      && var k := SubmissionKind(s);
                         store.sub == old(store.sub).Put(k, old(store.sub).Get(k) + [Row(r.value, OwnerColumn(idFk), Spread(s).value)])
    ensures r.Err? ==> store.sub == old(store.sub) && store.nextId == old(store.nextId)
    ensures store.tests == old(store.tests) && store.clock == old(store.clock)
  {
    var row := Spread(s);
    if row.Err? {
      r := Err(row.error);
      return;
    }
    r := store.AddRow(OwnerColumn(idFk), row.value);
  }

  /** The intended insert: only the fields that are columns are spread. */
  method CreateSpecificTestCorrected(store: Store, s: Submission, idFk: Option<nat>) returns (r: Result<nat>)
    requires store.Valid()
    modifies store
    ensures store.Valid()
    ensures r.Ok? <==> Columnwise(s).Ok? && OwnerOk(old(store.tests), old(store.sub), SubmissionKind(s), OwnerColumn(idFk))
    ensures r.Ok? ==> && r.value == old(store.nextId) && store.nextId == r.value + 1
                      && var k := SubmissionKind(s);
                         store.sub == old(store.sub).Put(k, old(store.sub).Get(k) + [Row(r.value, OwnerColumn(idFk), Columnwise(s).value)])
    ensures r.Err? ==> store.sub == old(store.sub) && store.nextId == old(store.nextId)
    ensures store.tests == old(store.tests) && store.clock == old(store.clock)
  {
    var row := Columnwise(s);
    if row.Err? {
      r := Err(row.error);
      return;
    }
    r := store.AddRow(OwnerColumn(idFk), row.value);
  }
}
