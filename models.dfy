/** Record types of the measurement database: the enumerations, the reference
    tables (ASNs, their network blocks, MAC vendors), the test sessions and the
    six kinds of sub-test rows, with the keys and owner references that the
    tables declare and the well-formedness predicates a store of them keeps. */
module Models {

  datatype Option<+T> = None | Some(value: T)

  /** A floating-point column, carried as its IEEE-754 bit pattern; the model
      never computes with it. */
  datatype Float = Float(bits: nat)

  // ---------------------------------------------------------------------
  // Enumerations and their value strings (what submissions carry and
  // replies show; the columns themselves store the member names)
  // ---------------------------------------------------------------------

  datatype DnsConsistency = Consistent | ReverseMatch | Inconsistent

  datatype Blocking = TcpIp | Dns | HttpDiff | HttpFailure | NotBlocking

  datatype RatingOarc = Great | Good | Poor

  function DnsConsistencyLabel(c: DnsConsistency): string
  {
    match c
    case Consistent => "consistent"
    case ReverseMatch => "reverse_match"
    case Inconsistent => "inconsistent"
  }

  /** Parses a value string; the only accepted strings are those of the three members. */
  function DnsConsistencyOf(s: string): (r: Option<DnsConsistency>)
    ensures r.Some? ==> DnsConsistencyLabel(r.value) == s
    ensures r.None? ==> forall c :: DnsConsistencyLabel(c) != s
  {
    if s == "consistent" then Some(Consistent)
    else if s == "reverse_match" then Some(ReverseMatch)
    else if s == "inconsistent" then Some(Inconsistent)
    else None
  }

  function BlockingLabel(b: Blocking): string
  {
    match b
    case TcpIp => "tcp_ip"
    case Dns => "dns"
    case HttpDiff => "http-diff"
    case HttpFailure => "http-failure"
    case NotBlocking => "not_blocking"
  }

  /** Parses a value string; exactly the five blocking values are accepted. */
  function BlockingOf(s: string): (r: Option<Blocking>)
    ensures r.Some? ==> BlockingLabel(r.value) == s
    ensures r.None? ==> forall b :: BlockingLabel(b) != s
  {
    if s == "tcp_ip" then Some(TcpIp)
    else if s == "dns" then Some(Dns)
    else if s == "http-diff" then Some(HttpDiff)
    else if s == "http-failure" then Some(HttpFailure)
    else if s == "not_blocking" then Some(NotBlocking)
    else None
  }

  function RatingLabel(r: RatingOarc): string
  {
    match r
    case Great => "GREAT"
    case Good => "GOOD"
    case Poor => "POOR"
  }

  /** Parses a value string; exactly GREAT, GOOD and POOR are accepted. */
  function RatingOf(s: string): (r: Option<RatingOarc>)
    ensures r.Some? ==> RatingLabel(r.value) == s
    ensures r.None? ==> forall g :: RatingLabel(g) != s
  {
    if s == "GREAT" then Some(Great)
    else if s == "GOOD" then Some(Good)
    else if s == "POOR" then Some(Poor)
    else None
  }

  /** Every enumeration member's value string parses back to that member. */
  lemma EnumLabelsRoundTrip(c: DnsConsistency, b: Blocking, g: RatingOarc)
    ensures DnsConsistencyOf(DnsConsistencyLabel(c)) == Some(c)
    ensures BlockingOf(BlockingLabel(b)) == Some(b)
    ensures RatingOf(RatingLabel(g)) == Some(g)
  {
  }

  // ---------------------------------------------------------------------
  // IP addresses and CIDR blocks (prefix semantics of RFC 4632, section 3.1)
  // ---------------------------------------------------------------------

  datatype Family = V4 | V6

  function Width(f: Family): nat
  {
    match f
    case V4 => 32
    case V6 => 128
  }

  function Pow2(n: nat): (r: nat)
    ensures r >= 1
  {
    if n == 0 then 1 else 2 * Pow2(n - 1)
  }

  /** A parsed address: its family and its value as an unsigned integer. */
  datatype IpAddr = IpAddr(family: Family, value: nat)

  predicate ValidIp(a: IpAddr)
  {
    a.value < Pow2(Width(a.family))
  }

  /** A network block: base address and prefix length. */
  datatype Cidr = Cidr(family: Family, base: nat, prefixLen: nat)

  /** A well-formed block has no bits set beyond its prefix. */
  predicate ValidCidr(c: Cidr)
  {
    && c.prefixLen <= Width(c.family)
    && c.base < Pow2(Width(c.family))
    && c.base % Pow2(Width(c.family) - c.prefixLen) == 0
  }

  function HostBits(c: Cidr): nat
  {
    if c.prefixLen <= Width(c.family) then Width(c.family) - c.prefixLen else 0
  }

  /** The address agrees with the block on the block's first prefixLen bits. */
  predicate InBlock(c: Cidr, a: IpAddr)
  {
    && c.family == a.family
    && c.prefixLen <= Width(c.family)
    && a.value / Pow2(HostBits(c)) == c.base / Pow2(HostBits(c))
  }

  /** PostgreSQL's `>>` between a block and a single host address: the block
      contains the address and is strictly wider than one host. */
  predicate StrictlyContains(c: Cidr, a: IpAddr)
  {
    InBlock(c, a) && c.prefixLen < Width(c.family)
  }

  lemma MulMonotone(a: nat, b: nat, p: nat)
    requires a <= b
    ensures a * p <= b * p
  {
    assert b * p == a * p + (b - a) * p;
  }

  lemma {:induction false} DivRange(x: nat, p: nat, q: nat)
    requires p > 0
    ensures x / p == q <==> q * p <= x < q * p + p
  {
    var d, m := x / p, x % p;
    assert x == d * p + m && 0 <= m < p;
    assert (d + 1) * p == d * p + p;
    assert (q + 1) * p == q * p + p;
    if d < q {
      MulMonotone(d + 1, q, p);
    } else if d > q {
      MulMonotone(q + 1, d, p);
    }
  }

  lemma DivExact(x: nat, p: nat)
    requires p > 0 && x % p == 0
    ensures x == (x / p) * p
  {
  }

  /** For a well-formed block, the prefix test is the contiguous address range
      [base, base + 2^(width - prefixLen)). */
  lemma {:induction false} InBlockIsRange(c: Cidr, a: IpAddr)
    requires ValidCidr(c) && a.family == c.family
    ensures InBlock(c, a) <==> c.base <= a.value < c.base + Pow2(HostBits(c))
  {
    var h := HostBits(c);
    assert h == Width(c.family) - c.prefixLen;
    DivExact(c.base, Pow2(h));
    DivRange(a.value, Pow2(h), c.base / Pow2(h));
  }

  /** A block as long as the address itself (a /32 or /128) never strictly
      contains anything, not even its own address. */
  lemma HostBlockContainsNothing(c: Cidr, a: IpAddr)
    requires c.prefixLen == Width(c.family)
    ensures !StrictlyContains(c, a)
  {
  }

  // ---------------------------------------------------------------------
  // Reference tables
  // ---------------------------------------------------------------------

  /** Table `asns`: the id is the AS number itself, not generated. */
  datatype Asn = Asn(id: int, organization: Option<string>)

  /** Table `asn_networks`: a nullable reference to `asns.id` and a nullable block. */
  datatype AsnNetwork = AsnNetwork(id: nat, asn: Option<int>, network: Option<Cidr>)

  /** Table `macs_manuf`, keyed by the pair (mac, mask). MAC values are compared
      as text. */
  datatype MacManuf = MacManuf(mac: string, mask: int, manuf: Option<string>, comment: Option<string>)

  // ---------------------------------------------------------------------
  // Test sessions and sub-test rows
  // ---------------------------------------------------------------------

  /** The client-supplied columns of a test session; mac and mask are nullable. */
  datatype TestInfo = TestInfo(
    deviceAndroid: Option<string>,
    mac: Option<string>,
    mask: Option<int>,
    place: Option<string>,
    username: Option<string>)

  /** Table `tests`; `asnId` is a nullable reference to `asns.id`. */
  datatype Test = Test(id: nat, publicIp: IpAddr, timestamp: nat, asnId: Option<int>, info: TestInfo)

  datatype ProtocolFields = ProtocolFields(protocolName: string, keyManagement: Option<string>, cipher: Option<string>)

  /** The device columns; mac and mask are NOT NULL here, unlike on a session. */
  datatype DevicesFields = DevicesFields(mac: string, mask: int, router: Option<bool>)

  datatype DnsFields = DnsFields(
    dns1Android: Option<IpAddr>,
    dns2Android: Option<IpAddr>,
    nsAkamai: Option<IpAddr>,
    ecsAkamai: Option<IpAddr>,
    ipAkamai: Option<IpAddr>,
    doFlag: Option<bool>,
    adFlag: Option<bool>,
    rrsig: Option<bool>,
    resolverIpOarc: Option<IpAddr>,
    ratingSourcePort: Option<RatingOarc>,
    ratingTransactionId: Option<RatingOarc>,
    stdSourcePort: Option<int>,
    stdTransactionId: Option<int>,
    bitsOfEntropySourcePort: Option<Float>,
    bitsOfEntropyTransactionId: Option<Float>)

  datatype NdtFields = NdtFields(
    reportId: string,
    avgRtt: Option<Float>,
    download: Float,
    mss: Option<int>,
    maxRtt: Option<Float>,
    minRtt: Option<Float>,
    ping: Option<Float>,
    retransmitRate: Option<Float>,
    upload: Float)

  /** The web-test columns; `dnsConsistency` is NOT NULL. */
  datatype WebFields = WebFields(
    reportId: string,
    url: string,
    resolverAsn: Option<string>,
    resolverIp: Option<IpAddr>,
    resolverNetworkName: Option<string>,
    clientResolver: IpAddr,
    dnsExperimentFailure: Option<string>,
    controlFailure: Option<string>,
    httpExperimentFailure: Option<string>,
    dnsConsistency: DnsConsistency,
    bodyLengthMatch: Option<bool>,
    headersMatch: Option<bool>,
    statusCodeMatch: Option<bool>,
    titleMatch: Option<bool>,
    accessible: Option<bool>,
    blocking: Option<Blocking>)

  /** The TCP-connect columns; ip, port and statusSuccess are NOT NULL. */
  datatype TcpConnectFields = TcpConnectFields(
    ip: IpAddr,
    port: int,
    statusBlocked: Option<bool>,
    statusFailureString: Option<string>,
    statusSuccess: bool)

  /** The six sub-test tables. */
  datatype Kind = ProtocolKind | DevicesKind | DnsKind | NdtKind | WebKind | TcpConnectKind

  datatype Payload =
    | ProtocolRow(protocol: ProtocolFields)
    | DevicesRow(devices: DevicesFields)
    | DnsRow(dns: DnsFields)
    | NdtRow(ndt: NdtFields)
    | WebRow(web: WebFields)
    | TcpConnectRow(tcp: TcpConnectFields)

  function KindOf(p: Payload): Kind
  {
    match p
    case ProtocolRow(_) => ProtocolKind
    case DevicesRow(_) => DevicesKind
    case DnsRow(_) => DnsKind
    case NdtRow(_) => NdtKind
    case WebRow(_) => WebKind
    case TcpConnectRow(_) => TcpConnectKind
  }

  /** A sub-test row: generated id, owner reference `test_id`, and its columns. */
  datatype Row = Row(id: nat, testId: Option<nat>, payload: Payload)

  /** The kinds whose `test_id` column is declared NOT NULL. */
  predicate OwnerRequired(k: Kind)
  {
    k == ProtocolKind || k == NdtKind || k == WebKind || k == TcpConnectKind
  }

  /** The column names each table declares. */
  function Columns(k: Kind): set<string>
  {
    match k
    case ProtocolKind => {"id", "test_id", "protocol_name", "key_management", "cipher"}
    case DevicesKind => {"id", "test_id", "mac", "mask", "router"}
    case DnsKind => {"id", "test_id", "dns1_android", "dns2_android", "ns_akamai", "ecs_akamai", "ip_akamai",
                     "do_flag", "ad_flag", "rrsig", "resolver_ip_oarc", "rating_source_port",
                     "rating_transaction_id", "std_source_port", "std_transaction_id",
                     "bits_of_entropy_source_port", "bits_of_entropy_transaction_id"}
    case NdtKind => {"id", "test_id", "report_id", "avg_rtt", "download", "mss", "max_rtt", "min_rtt", "ping",
                     "retransmit_rate", "upload"}
    case WebKind => {"id", "test_id", "report_id", "url", "resolver_asn", "resolver_ip", "resolver_network_name",
                     "client_resolver", "dns_experiment_failure", "control_failure", "http_experiment_failure",
                     "dns_consistency", "body_length_match", "headers_match", "status_code_match",
                     "title_match", "accessible", "blocking"}
    case TcpConnectKind => {"id", "ip", "port", "status_blocked", "status_failure_string", "status_success",
                            "test_id"}
  }

  /** The six sub-test tables side by side. */
  datatype SubTables = SubTables(
    protocol: seq<Row>,
    devices: seq<Row>,
    dns: seq<Row>,
    ndt: seq<Row>,
    web: seq<Row>,
    tcpConnect: seq<Row>)
  {
    function Get(k: Kind): seq<Row>
    {
      match k
      case ProtocolKind => protocol
      case DevicesKind => devices
      case DnsKind => dns
      case NdtKind => ndt
      case WebKind => web
      case TcpConnectKind => tcpConnect
    }

    /** Replaces one table and leaves the other five as they are. */
    function Put(k: Kind, rows: seq<Row>): (t: SubTables)
      ensures t.Get(k) == rows
      ensures forall k' :: k' != k ==> t.Get(k') == Get(k')
    {
      match k
      case ProtocolKind => this.(protocol := rows)
      case DevicesKind => this.(devices := rows)
      case DnsKind => this.(dns := rows)
      case NdtKind => this.(ndt := rows)
      case WebKind => this.(web := rows)
      case TcpConnectKind => this.(tcpConnect := rows)
    }
  }

  const NoSubTests := SubTables([], [], [], [], [], [])

  // ---------------------------------------------------------------------
  // Well-formedness of the stored tables
  // ---------------------------------------------------------------------

  predicate HasAsn(asns: seq<Asn>, id: int)
  {
    exists i :: 0 <= i < |asns| && asns[i].id == id
  }

  predicate HasTest(tests: seq<Test>, id: nat)
  {
    exists i :: 0 <= i < |tests| && tests[i].id == id
  }

  predicate HasRow(rows: seq<Row>, id: nat)
  {
    exists i :: 0 <= i < |rows| && rows[i].id == id
  }

  /** At most one vendor row per (mac, mask): the table's primary key. */
  predicate VendorKeysUnique(manufs: seq<MacManuf>)
  {
    forall i, j :: 0 <= i < j < |manufs| ==> manufs[i].mac != manufs[j].mac || manufs[i].mask != manufs[j].mask
  }

  /** Keys and references of the read-only reference tables. */
  predicate ReferenceTablesOk(asns: seq<Asn>, networks: seq<AsnNetwork>, manufs: seq<MacManuf>)
  {
    && (forall i, j :: 0 <= i < j < |asns| ==> asns[i].id != asns[j].id)
    && (forall i, j :: 0 <= i < j < |networks| ==> networks[i].id != networks[j].id)
    && (forall i :: 0 <= i < |networks| && networks[i].asn.Some? ==> HasAsn(asns, networks[i].asn.value))
    && (forall i :: 0 <= i < |networks| && networks[i].network.Some? ==> ValidCidr(networks[i].network.value))
    && VendorKeysUnique(manufs)
  }

  /** Sessions in insertion order: ids increase and timestamps never decrease. */
  predicate TestsOrdered(tests: seq<Test>)
  {
    forall i, j :: 0 <= i < j < |tests| ==> tests[i].id < tests[j].id && tests[i].timestamp <= tests[j].timestamp
  }

  predicate TestsOk(asns: seq<Asn>, tests: seq<Test>, nextId: nat, clock: nat)
  {
    && TestsOrdered(tests)
    && forall i :: 0 <= i < |tests| ==>
         && 1 <= tests[i].id < nextId
         && tests[i].timestamp <= clock
         && (tests[i].asnId.Some? ==> HasAsn(asns, tests[i].asnId.value))
  }

  /** One sub-test table: increasing ids below the counter, rows of its own
      kind, and a non-null owner where the column is NOT NULL. */
  predicate TableOk(k: Kind, rows: seq<Row>, nextId: nat)
  {
    && (forall i, j :: 0 <= i < j < |rows| ==> rows[i].id < rows[j].id)
    && forall i :: 0 <= i < |rows| ==>
         && 1 <= rows[i].id < nextId
         && KindOf(rows[i].payload) == k
         && (OwnerRequired(k) ==> rows[i].testId.Some?)
  }

  /** The owner a row of kind k refers to: a web test for TCP-connect rows,
      a session otherwise. */
  predicate OwnerExists(tests: seq<Test>, sub: SubTables, k: Kind, id: nat)
  {
    if k == TcpConnectKind then HasRow(sub.web, id) else HasTest(tests, id)
  }

  /** The owner reference a new row of kind k may carry. */
  predicate OwnerOk(tests: seq<Test>, sub: SubTables, k: Kind, testId: Option<nat>)
  {
    if testId.None? then !OwnerRequired(k) else OwnerExists(tests, sub, k, testId.value)
  }

  /** Every owner reference in a table of session-owned rows names a session. */
  predicate SessionOwned(tests: seq<Test>, rows: seq<Row>)
  {
    forall i :: 0 <= i < |rows| && rows[i].testId.Some? ==> HasTest(tests, rows[i].testId.value)
  }

  /** Every owner reference in the TCP-connect table names a web test. */
  predicate WebOwned(web: seq<Row>, rows: seq<Row>)
  {
    forall i :: 0 <= i < |rows| && rows[i].testId.Some? ==> HasRow(web, rows[i].testId.value)
  }

  predicate OwnersExist(tests: seq<Test>, sub: SubTables)
  {
    && SessionOwned(tests, sub.protocol) && SessionOwned(tests, sub.devices)
    && SessionOwned(tests, sub.dns) && SessionOwned(tests, sub.ndt)
    && SessionOwned(tests, sub.web) && WebOwned(sub.web, sub.tcpConnect)
  }

  predicate TablesOk(sub: SubTables, nextId: nat)
  {
    && TableOk(ProtocolKind, sub.protocol, nextId) && TableOk(DevicesKind, sub.devices, nextId)
    && TableOk(DnsKind, sub.dns, nextId) && TableOk(NdtKind, sub.ndt, nextId)
    && TableOk(WebKind, sub.web, nextId) && TableOk(TcpConnectKind, sub.tcpConnect, nextId)
  }

  /** The mutable part of the database: sessions, the six sub-test tables
      and the id counter they all draw from. */
  predicate StoreOk(asns: seq<Asn>, tests: seq<Test>, sub: SubTables, nextId: nat, clock: nat)
  {
    && nextId >= 1
    && TestsOk(asns, tests, nextId, clock)
    && TablesOk(sub, nextId)
    && OwnersExist(tests, sub)
  }

  /** A counter that moves on keeps every table's ids below it. */
  lemma {:induction false} TablesBump(sub: SubTables, nextId: nat)
    requires TablesOk(sub, nextId)
    ensures TablesOk(sub, nextId + 1)
  {
  }

  /** More sessions never break a session reference. */
  lemma {:induction false} SessionOwnedGrow(tests: seq<Test>, t: Test, rows: seq<Row>)
    requires SessionOwned(tests, rows)
    ensures SessionOwned(tests + [t], rows)
  {
    forall i | 0 <= i < |rows| && rows[i].testId.Some? ensures HasTest(tests + [t], rows[i].testId.value) {
      var j :| 0 <= j < |tests| && tests[j].id == rows[i].testId.value;
      assert (tests + [t])[j] == tests[j];
    }
  }

  /** Appending a session with the next id, a timestamp no earlier than the
      clock and a resolvable ASN reference keeps the store well formed. */
  lemma {:induction false} AppendTestKeepsOk(asns: seq<Asn>, tests: seq<Test>, sub: SubTables, nextId: nat, clock: nat,
                                             t: Test, tests': seq<Test>, nextId': nat)
    requires StoreOk(asns, tests, sub, nextId, clock)
    requires t.id == nextId && clock <= t.timestamp
    requires t.asnId.Some? ==> HasAsn(asns, t.asnId.value)
    requires tests' == tests + [t] && nextId' == nextId + 1
    ensures StoreOk(asns, tests', sub, nextId', t.timestamp)
  {
    forall i, j | 0 <= i < j < |tests'|
      ensures tests'[i].id < tests'[j].id && tests'[i].timestamp <= tests'[j].timestamp
    {
      if j == |tests| {
        assert tests'[i] == tests[i] && tests'[j] == t;
      }
    }
    forall i | 0 <= i < |tests'|
      ensures 1 <= tests'[i].id < nextId + 1 && tests'[i].timestamp <= t.timestamp
    {
      if i < |tests| { assert tests'[i] == tests[i]; }
    }
    TablesBump(sub, nextId);
    SessionOwnedGrow(tests, t, sub.protocol);
    SessionOwnedGrow(tests, t, sub.devices);
    SessionOwnedGrow(tests, t, sub.dns);
    SessionOwnedGrow(tests, t, sub.ndt);
    SessionOwnedGrow(tests, t, sub.web);
  }

  lemma {:induction false} TableAppendOk(k: Kind, rows: seq<Row>, nextId: nat, r: Row)
    requires TableOk(k, rows, nextId)
    requires r.id == nextId && 1 <= nextId && KindOf(r.payload) == k
    requires OwnerRequired(k) ==> r.testId.Some?
    ensures TableOk(k, rows + [r], nextId + 1)
  {
    var rows' := rows + [r];
    forall i, j | 0 <= i < j < |rows'| ensures rows'[i].id < rows'[j].id {
      if j == |rows| { assert rows'[i] == rows[i]; }
    }
    forall i | 0 <= i < |rows'|
      ensures 1 <= rows'[i].id < nextId + 1 && KindOf(rows'[i].payload) == k
      ensures OwnerRequired(k) ==> rows'[i].testId.Some?
    {
      if i < |rows| { assert rows'[i] == rows[i]; }
    }
  }

  /** Appending a row with the next id to the table of its kind keeps every
      table well formed under the advanced counter. */
  lemma {:induction false} AppendRowTablesOk(sub: SubTables, nextId: nat, r: Row)
    requires TablesOk(sub, nextId)
    requires r.id == nextId && 1 <= nextId
    requires OwnerRequired(KindOf(r.payload)) ==> r.testId.Some?
    ensures TablesOk(sub.Put(KindOf(r.payload), sub.Get(KindOf(r.payload)) + [r]), nextId + 1)
  {
    var k := KindOf(r.payload);
    TablesBump(sub, nextId);
    TableAppendOk(k, sub.Get(k), nextId, r);
    match k
    case ProtocolKind =>
    case DevicesKind =>
    case DnsKind =>
    case NdtKind =>
    case WebKind =>
    case TcpConnectKind =>
  }

  lemma {:induction false} SessionOwnedAppend(tests: seq<Test>, rows: seq<Row>, r: Row)
    requires SessionOwned(tests, rows)
    requires r.testId.Some? ==> HasTest(tests, r.testId.value)
    ensures SessionOwned(tests, rows + [r])
  {
    forall i | 0 <= i < |rows + [r]| && (rows + [r])[i].testId.Some?
      ensures HasTest(tests, (rows + [r])[i].testId.value)
    {
      if i < |rows| { assert (rows + [r])[i] == rows[i]; }
    }
  }

  lemma {:induction false} WebOwnedAppend(web: seq<Row>, rows: seq<Row>, r: Row)
    requires WebOwned(web, rows)
    requires r.testId.Some? ==> HasRow(web, r.testId.value)
    ensures WebOwned(web, rows + [r])
  {
    forall i | 0 <= i < |rows + [r]| && (rows + [r])[i].testId.Some?
      ensures HasRow(web, (rows + [r])[i].testId.value)
    {
      if i < |rows| { assert (rows + [r])[i] == rows[i]; }
    }
  }

  /** More web tests never break a TCP-connect reference. */
  lemma {:induction false} WebOwnedGrow(web: seq<Row>, w: Row, rows: seq<Row>)
    requires WebOwned(web, rows)
    ensures WebOwned(web + [w], rows)
  {
    forall i | 0 <= i < |rows| && rows[i].testId.Some? ensures HasRow(web + [w], rows[i].testId.value) {
      var j :| 0 <= j < |web| && web[j].id == rows[i].testId.value;
      assert (web + [w])[j] == web[j];
    }
  }

  /** Appending a row whose owner reference is acceptable keeps every owner
      reference resolvable. */
  lemma {:induction false} AppendRowOwnersOk(tests: seq<Test>, sub: SubTables, r: Row)
    requires OwnersExist(tests, sub)
    requires OwnerOk(tests, sub, KindOf(r.payload), r.testId)
    ensures OwnersExist(tests, sub.Put(KindOf(r.payload), sub.Get(KindOf(r.payload)) + [r]))
  {
    match KindOf(r.payload)
    case ProtocolKind => SessionOwnedAppend(tests, sub.protocol, r);
    case DevicesKind => SessionOwnedAppend(tests, sub.devices, r);
    case DnsKind => SessionOwnedAppend(tests, sub.dns, r);
    case NdtKind => SessionOwnedAppend(tests, sub.ndt, r);
    case WebKind =>
      SessionOwnedAppend(tests, sub.web, r);
      WebOwnedGrow(sub.web, r, sub.tcpConnect);
    case TcpConnectKind => WebOwnedAppend(sub.web, sub.tcpConnect, r);
  }

  /** Appending a row with the next id, of the table's kind, with an owner
      reference the table accepts, keeps the store well formed. */
  lemma {:induction false} AppendRowKeepsOk(asns: seq<Asn>, tests: seq<Test>, sub: SubTables, nextId: nat, clock: nat,
                                            r: Row, sub': SubTables, nextId': nat)
    requires StoreOk(asns, tests, sub, nextId, clock)
    requires r.id == nextId
    requires OwnerOk(tests, sub, KindOf(r.payload), r.testId)
    requires sub' == sub.Put(KindOf(r.payload), sub.Get(KindOf(r.payload)) + [r]) && nextId' == nextId + 1
    ensures StoreOk(asns, tests, sub', nextId', clock)
  {
    AppendRowTablesOk(sub, nextId, r);
    AppendRowOwnersOk(tests, sub, r);
    forall i | 0 <= i < |tests| ensures tests[i].id < nextId + 1 {
    }
  }

  /** In a well-formed store a row of a table whose owner column is NOT NULL
      always has an owner, and every owner reference names an existing owner:
      a web test for a TCP-connect row, a session for any other row. */
  lemma StoredOwnersExist(asns: seq<Asn>, tests: seq<Test>, sub: SubTables, nextId: nat, clock: nat, k: Kind, i: nat)
    requires StoreOk(asns, tests, sub, nextId, clock) && i < |sub.Get(k)|
    ensures OwnerRequired(k) ==> sub.Get(k)[i].testId.Some?
    ensures sub.Get(k)[i].testId.Some? ==> OwnerExists(tests, sub, k, sub.Get(k)[i].testId.value)
  {
    match k
    case ProtocolKind => assert TableOk(k, sub.protocol, nextId) && SessionOwned(tests, sub.protocol);
    case DevicesKind => assert SessionOwned(tests, sub.devices);
    case DnsKind => assert SessionOwned(tests, sub.dns);
    case NdtKind => assert TableOk(k, sub.ndt, nextId) && SessionOwned(tests, sub.ndt);
    case WebKind => assert TableOk(k, sub.web, nextId) && SessionOwned(tests, sub.web);
    case TcpConnectKind => assert TableOk(k, sub.tcpConnect, nextId) && WebOwned(sub.web, sub.tcpConnect);
  }
}
