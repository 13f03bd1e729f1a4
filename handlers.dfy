/** The HTTP endpoints: each one writes a session and its sub-test rows, or
    reads back the address's history. An exception inside an endpoint becomes
    a 404 reply with a fixed message; rows already committed stay. */
module Handlers {
  import opened Models
  import opened Schemas
  import opened Queries
  import opened History

  /** What an endpoint answers: 201 with a body, or 404 with a message. */
  datatype Reply<T> = Created(body: T) | NotFound(message: string)

  const ProtocolError := "Error adding results to protocol tests table"
  const DevicesError := "Error adding results to devices tests table"
  const DnsError := "Error adding results to dns tests table"
  const NdtError := "Error adding results to ndt tests table"
  const WebError := "Error adding results to web tests"

  /** Rows with consecutive ids starting at `first`, all with one owner. */
  function Numbered(first: nat, owner: Option<nat>, ps: seq<Payload>): (r: seq<Row>)
    ensures |r| == |ps|
    ensures forall i :: 0 <= i < |ps| ==> r[i] == Row(first + i, owner, ps[i])
  {
    seq(|ps|, i requires 0 <= i < |ps| => Row(first + i, owner, ps[i]))
  }

  lemma NumberedSnoc(first: nat, owner: Option<nat>, ps: seq<Payload>, i: nat)
    requires i < |ps|
    ensures Numbered(first, owner, ps[..i + 1]) == Numbered(first, owner, ps[..i]) + [Row(first + i, owner, ps[i])]
  {
    assert ps[..i + 1][..i] == ps[..i];
  }

  /** Appending the next numbered row to a table that holds the first `i`. */
  lemma AppendStep(rows: seq<Row>, first: nat, owner: Option<nat>, ps: seq<Payload>, i: nat)
    requires i < |ps|
    ensures rows + Numbered(first, owner, ps[..i]) + [Row(first + i, owner, ps[i])]
            == rows + Numbered(first, owner, ps[..i + 1])
  {
    NumberedSnoc(first, owner, ps, i);
  }

  /** A session that exists under a truthy id is an owner every
      session-owned table accepts. */
  lemma SessionOwnerOk(tests: seq<Test>, sub: SubTables, k: Kind, id: nat)
    requires k != TcpConnectKind && HasTest(tests, id) && id >= 1
    ensures OwnerOk(tests, sub, k, OwnerColumn(Some(id)))
  {
  }

  /** A web test that exists under a truthy id is an owner the TCP-connect
      table accepts. */
  lemma WebOwnerOk(tests: seq<Test>, sub: SubTables, id: nat)
    requires HasRow(sub.web, id) && id >= 1
    ensures OwnerOk(tests, sub, TcpConnectKind, OwnerColumn(Some(id)))
  {
  }

  // ---------------------------------------------------------------------
  // GET /asn
  // ---------------------------------------------------------------------

  datatype AsnReply = AsnReply(clientHost: IpAddr, asn: Option<Asn>)

  /** The client's address and the ASN whose network covers it, if any. */
  function GetAsn(store: Store, host: IpAddr): (r: AsnReply)
    ensures r.clientHost == host
    ensures r.asn.Some? ==> r.asn.value in store.asns && AsnCovers(store.networks, r.asn.value, host)
    ensures r.asn.None? ==> forall a :: a in store.asns ==> !AsnCovers(store.networks, a, host)
  {
    AsnByIpSpec(store.asns, store.networks, host);
    AsnReply(host, AsnByIp(store.asns, store.networks, host))
  }

  // ---------------------------------------------------------------------
  // POST /tests/protocol
  // ---------------------------------------------------------------------

  function ProtocolPayloads(ps: seq<ProtocolFields>): (r: seq<Payload>)
    ensures |r| == |ps| && forall i :: 0 <= i < |ps| ==> r[i] == ProtocolRow(ps[i])
  {
    seq(|ps|, i requires 0 <= i < |ps| => ProtocolRow(ps[i]))
  }

  /** One session, then one protocol row per submitted result, all owned by
      that session. The store checks no column types, so this never fails. */
  method AddProtocolTest(store: Store, tests: seq<ProtocolFields>, base: TestBaseIn, ip: IpAddr, elapsed: nat)
    returns (reply: Reply<()>)
    requires store.Valid()
    modifies store
    ensures store.Valid()
    ensures reply == Created(())
    ensures var id := old(store.nextId);
            && store.tests == old(store.tests) + [NewSession(store.asns, store.networks, id, base, ip, old(store.clock) + elapsed)]
            && store.sub == old(store.sub).(protocol := old(store.sub).protocol
                                                               + Numbered(id + 1, Some(id), ProtocolPayloads(tests)))
            && store.nextId == id + 1 + |tests|
    ensures store.clock == old(store.clock) + elapsed
  {
    var id := CreateTestBase(store, base, ip, elapsed);
    AddProtocolRows(store, tests, id);
    reply := Created(());
  }

  /** The loop over the submitted results: one protocol row each, in order,
      with consecutive ids, all owned by the session. */
  method AddProtocolRows(store: Store, tests: seq<ProtocolFields>, id: nat)
    requires store.Valid() && HasTest(store.tests, id) && id >= 1
    modifies store
    ensures store.Valid()
    ensures store.sub == old(store.sub).(protocol := old(store.sub).protocol
                                                     + Numbered(old(store.nextId), Some(id), ProtocolPayloads(tests)))
    ensures store.nextId == old(store.nextId) + |tests|
    ensures store.tests == old(store.tests) && store.clock == old(store.clock)
  {
    ghost var sub0 := store.sub;
    ghost var first := store.nextId;
    var payloads := ProtocolPayloads(tests);
    for i := 0 to |tests|
      invariant store.Valid()
      invariant store.tests == old(store.tests) && store.clock == old(store.clock)
      invariant store.nextId == first + i
      invariant store.sub == sub0.(protocol := sub0.protocol + Numbered(first, Some(id), payloads[..i]))
    {
      AppendStep(sub0.protocol, first, Some(id), payloads, i);
      AddProtocolRow(store, tests[i], id);
    }
    assert payloads[..|tests|] == payloads;
  }

  /** One iteration: a protocol row owned by an existing session. Its NOT
      NULL columns are filled and its owner exists, and the store checks no
      column types, so the insert cannot fail and the error reply is never
      taken. */
  method AddProtocolRow(store: Store, p: ProtocolFields, id: nat)
    requires store.Valid() && HasTest(store.tests, id) && id >= 1
    modifies store
    ensures store.Valid()
    ensures store.sub == old(store.sub).(protocol := old(store.sub).protocol + [Row(old(store.nextId), Some(id), ProtocolRow(p))])
    ensures store.nextId == old(store.nextId) + 1
    ensures store.tests == old(store.tests) && store.clock == old(store.clock)
  {
    SpreadColumnwise(ProtocolTest(p));
    SessionOwnerOk(store.tests, store.sub, ProtocolKind, id);
    var r := CreateSpecificTest(store, ProtocolTest(p), Some(id));
  }

  // ---------------------------------------------------------------------
  // POST /tests/devices
  // ---------------------------------------------------------------------

  /** As written: the session is created before the first device, and the
      first device row then fails because `private_ip` is not a column. So an
      empty list answers 201 with nothing written, and any other list answers
      404 after committing a session that owns no device. */
  method AddDevicesTests(store: Store, devices: seq<DevicesIn>, base: TestBaseIn, ip: IpAddr, elapsed: nat)
    returns (reply: Reply<seq<VendorInfo>>)
    requires store.Valid()
    modifies store
    ensures store.Valid()
    ensures store.sub == old(store.sub)
    ensures devices == [] ==> && reply == Created([])
                              && store.tests == old(store.tests) && store.nextId == old(store.nextId)
                              && store.clock == old(store.clock)
    ensures devices != [] ==>
              && reply == NotFound(DevicesError)
              && store.tests == old(store.tests)
                                + [NewSession(store.asns, store.networks, old(store.nextId), base, ip, old(store.clock) + elapsed)]
              && store.nextId == old(store.nextId) + 1
              && store.clock == old(store.clock) + elapsed
  {
    var baseId: Option<nat> := None;
    var manufDevices: seq<VendorInfo> := [];
    var failed := false;
    var i := 0;
    while i < |devices| && !failed
      invariant 0 <= i <= |devices|
      invariant failed <==> i > 0
      invariant store.Valid()
      invariant manufDevices == [] && store.sub == old(store.sub)
      invariant i == 0 ==> && baseId.None? && store.tests == old(store.tests)
                           && store.nextId == old(store.nextId) && store.clock == old(store.clock)
      invariant i > 0 ==> && store.tests == old(store.tests)
                                           + [NewSession(store.asns, store.networks, old(store.nextId), base, ip, old(store.clock) + elapsed)]
                          && store.nextId == old(store.nextId) + 1 && store.clock == old(store.clock) + elapsed
    {
      if baseId.None? {
        var id := CreateTestBase(store, base, ip, elapsed);
        baseId := Some(id);
      }
      var manuf := GetManuf(store.manufs, devices[i].mac, devices[i].mask);
      var r := AddDevice(store, devices[i], baseId);
      if r.Err? {
        failed := true;
      } else {
        manufDevices := manufDevices + [manuf];
      }
      i := i + 1;
    }
    reply := if failed then NotFound(DevicesError) else Created(manufDevices);
  }

  /** One iteration, as written: the insert passes `private_ip` along with
      the device's columns, so it always fails and writes nothing. */
  method AddDevice(store: Store, d: DevicesIn, testId: Option<nat>) returns (r: Result<nat>)
    requires store.Valid()
    modifies store
    ensures store.Valid()
    ensures r.Err?
    ensures store.sub == old(store.sub) && store.nextId == old(store.nextId)
    ensures store.tests == old(store.tests) && store.clock == old(store.clock)
  {
    r := CreateSpecificTest(store, DevicesTest(d), testId);
  }

  /** The row a device becomes once only its columns are passed. */
  function DevicePayload(d: DevicesIn): Payload
  {
    DevicesRow(DevicesFields(d.mac, d.mask, Some(d.router)))
  }

  function DevicesPayloads(ds: seq<DevicesIn>): (r: seq<Payload>)
    ensures |r| == |ds| && forall i :: 0 <= i < |ds| ==> r[i] == DevicePayload(ds[i])
  {
    seq(|ds|, i requires 0 <= i < |ds| => DevicePayload(ds[i]))
  }

  /** Corrected for the `private_ip` crash only: one vendor lookup per
      device, in order; a session only when there is a device (the loop's
      "create it before the first device"), and every device row owned by it.
      Like the code, it stores every device, known vendor or not: the
      filtering that the endpoint's docstring describes is never implemented. */
  method AddDevicesTestsCorrected(store: Store, devices: seq<DevicesIn>, base: TestBaseIn, ip: IpAddr, elapsed: nat)
    returns (reply: Reply<seq<VendorInfo>>)
    requires store.Valid()
    modifies store
    ensures store.Valid()
    ensures reply.Created?
    ensures |reply.body| == |devices|
    ensures forall i :: 0 <= i < |devices| ==> reply.body[i] == GetManuf(store.manufs, devices[i].mac, devices[i].mask)
    ensures devices == [] ==> && store.tests == old(store.tests) && store.sub == old(store.sub)
                              && store.nextId == old(store.nextId) && store.clock == old(store.clock)
    ensures devices != [] ==>
              var id := old(store.nextId);
              && store.tests == old(store.tests) + [NewSession(store.asns, store.networks, id, base, ip, old(store.clock) + elapsed)]
              && store.sub == old(store.sub).(devices := old(store.sub).devices
                                                                + Numbered(id + 1, Some(id), DevicesPayloads(devices)))
              && store.nextId == id + 1 + |devices|
              && store.clock == old(store.clock) + elapsed
  {
    if devices == [] {
      reply := Created([]);
      return;
    }
    var id := CreateTestBase(store, base, ip, elapsed);
    var manufDevices := AddDeviceRowsCorrected(store, devices, id);
    reply := Created(manufDevices);
  }

  /** The loop over the devices, corrected: one vendor lookup and one
      device row each, in order, with consecutive ids, all owned by the
      session. */
  method AddDeviceRowsCorrected(store: Store, devices: seq<DevicesIn>, id: nat) returns (manufDevices: seq<VendorInfo>)
    requires store.Valid() && HasTest(store.tests, id) && id >= 1
    modifies store
    ensures store.Valid()
    ensures |manufDevices| == |devices|
    ensures forall i :: 0 <= i < |devices| ==> manufDevices[i] == GetManuf(store.manufs, devices[i].mac, devices[i].mask)
    ensures store.sub == old(store.sub).(devices := old(store.sub).devices
                                                    + Numbered(old(store.nextId), Some(id), DevicesPayloads(devices)))
    ensures store.nextId == old(store.nextId) + |devices|
    ensures store.tests == old(store.tests) && store.clock == old(store.clock)
  {
    ghost var sub0 := store.sub;
    ghost var first := store.nextId;
    var payloads := DevicesPayloads(devices);
    manufDevices := [];
    for i := 0 to |devices|
      invariant store.Valid()
      invariant store.tests == old(store.tests) && store.clock == old(store.clock)
      invariant store.nextId == first + i
      invariant store.sub == sub0.(devices := sub0.devices + Numbered(first, Some(id), payloads[..i]))
      invariant |manufDevices| == i
      invariant forall j :: 0 <= j < i ==> manufDevices[j] == GetManuf(store.manufs, devices[j].mac, devices[j].mask)
    {
      AppendStep(sub0.devices, first, Some(id), payloads, i);
      var manuf := AddDeviceCorrected(store, devices[i], id);
      manufDevices := manufDevices + [manuf];
    }
    assert payloads[..|devices|] == payloads;
  }

  /** One iteration, corrected: the vendor lookup, then a device row owned
      by an existing session, which cannot fail in this store. */
  method AddDeviceCorrected(store: Store, d: DevicesIn, id: nat) returns (manuf: VendorInfo)
    requires store.Valid() && HasTest(store.tests, id) && id >= 1
    modifies store
    ensures store.Valid()
    ensures manuf == GetManuf(store.manufs, d.mac, d.mask)
    ensures store.sub == old(store.sub).(devices := old(store.sub).devices + [Row(old(store.nextId), Some(id), DevicePayload(d))])
    ensures store.nextId == old(store.nextId) + 1
    ensures store.tests == old(store.tests) && store.clock == old(store.clock)
  {
    manuf := GetManuf(store.manufs, d.mac, d.mask);
    SessionOwnerOk(store.tests, store.sub, DevicesKind, id);
    var r := CreateSpecificTestCorrected(store, DevicesTest(d), Some(id));
  }

  // ---------------------------------------------------------------------
  // POST /tests/dns and POST /tests/ooni/ndt
  // ---------------------------------------------------------------------

  /** One session and one DNS row owned by it. The store checks no column
      types, so this never fails. */
  method AddDnsTest(store: Store, dns: DnsFields, base: TestBaseIn, ip: IpAddr, elapsed: nat) returns (reply: Reply<()>)
    requires store.Valid()
    modifies store
    ensures store.Valid()
    ensures reply == Created(())
    ensures var id := old(store.nextId);
            && store.tests == old(store.tests) + [NewSession(store.asns, store.networks, id, base, ip, old(store.clock) + elapsed)]
            && store.sub == old(store.sub).(dns := old(store.sub).dns + [Row(id + 1, Some(id), DnsRow(dns))])
            && store.nextId == id + 2
    ensures store.clock == old(store.clock) + elapsed
  {
    var id := CreateTestBase(store, base, ip, elapsed);
    AddDnsRow(store, dns, id);
    reply := Created(());
  }

  /** The DNS row owned by an existing session. The store checks no column
      types, so the insert cannot fail and the error reply is never taken. */
  method AddDnsRow(store: Store, dns: DnsFields, id: nat)
    requires store.Valid() && HasTest(store.tests, id) && id >= 1
    modifies store
    ensures store.Valid()
    ensures store.sub == old(store.sub).(dns := old(store.sub).dns + [Row(old(store.nextId), Some(id), DnsRow(dns))])
    ensures store.nextId == old(store.nextId) + 1
    ensures store.tests == old(store.tests) && store.clock == old(store.clock)
  {
    SpreadColumnwise(DnsTest(dns));
    SessionOwnerOk(store.tests, store.sub, DnsKind, id);
    var r := CreateSpecificTest(store, DnsTest(dns), Some(id));
  }

  /** One session and one NDT row owned by it. The store checks no column
      types, so this never fails. */
  method AddNdtTest(store: Store, ndt: NdtFields, base: TestBaseIn, ip: IpAddr, elapsed: nat) returns (reply: Reply<()>)
    requires store.Valid()
    modifies store
    ensures store.Valid()
    ensures reply == Created(())
    ensures var id := old(store.nextId);
            && store.tests == old(store.tests) + [NewSession(store.asns, store.networks, id, base, ip, old(store.clock) + elapsed)]
            && store.sub == old(store.sub).(ndt := old(store.sub).ndt + [Row(id + 1, Some(id), NdtRow(ndt))])
            && store.nextId == id + 2
    ensures store.clock == old(store.clock) + elapsed
  {
    var id := CreateTestBase(store, base, ip, elapsed);
    AddNdtRow(store, ndt, id);
    reply := Created(());
  }

  /** The NDT row owned by an existing session. Its NOT NULL columns are
      filled and the store checks no column types, so the insert cannot fail
      and the error reply is never taken. */
  method AddNdtRow(store: Store, ndt: NdtFields, id: nat)
    requires store.Valid() && HasTest(store.tests, id) && id >= 1
    modifies store
    ensures store.Valid()
    ensures store.sub == old(store.sub).(ndt := old(store.sub).ndt + [Row(old(store.nextId), Some(id), NdtRow(ndt))])
    ensures store.nextId == old(store.nextId) + 1
    ensures store.tests == old(store.tests) && store.clock == old(store.clock)
  {
    SpreadColumnwise(NdtTestOoni(ndt));
    SessionOwnerOk(store.tests, store.sub, NdtKind, id);
    var r := CreateSpecificTest(store, NdtTestOoni(ndt), Some(id));
  }

  // ---------------------------------------------------------------------
  // POST /tests/ooni/web
  // ---------------------------------------------------------------------

  /** A TCP connection result with both NOT NULL columns present. */
  predicate TcpComplete(t: TcpConnectIn)
  {
    t.ip.Some? && t.port.Some?
  }

  /** The row a complete TCP result becomes. */
  function TcpPayload(t: TcpConnectIn): Payload
    requires TcpComplete(t)
  {
    TcpConnectRow(TcpConnectFields(t.ip.value, t.port.value, t.statusBlocked, t.statusFailureString, t.statusSuccess))
  }

  /** The rows of the TCP results before the first incomplete one. */
  function CompletePayloads(tcps: seq<TcpConnectIn>): (r: seq<Payload>)
    ensures |r| <= |tcps|
    ensures forall i :: 0 <= i < |r| ==> TcpComplete(tcps[i]) && r[i] == TcpPayload(tcps[i])
    ensures |r| < |tcps| ==> !TcpComplete(tcps[|r|])
  {
    if tcps == [] || !TcpComplete(tcps[0]) then [] else [TcpPayload(tcps[0])] + CompletePayloads(tcps[1..])
  }

  /** Spreading a TCP result succeeds exactly when both NOT NULL columns are
      present, and then gives its row. */
  lemma TcpSpread(t: TcpConnectIn)
    ensures Spread(TcpConnectWebTestOoni(t)).Ok? <==> TcpComplete(t)
    ensures TcpComplete(t) ==> Spread(TcpConnectWebTestOoni(t)).value == TcpPayload(t)
  {
    SpreadColumnwise(TcpConnectWebTestOoni(t));
  }

  /** One session; then the web row, owned by the session; then one TCP row
      per connection, owned by the web row. A missing DNS consistency, or a
      connection without address or port, answers 404 with the rows before it
      already committed. */
  method AddWebTestOoni(store: Store, web: WebIn, tcps: seq<TcpConnectIn>, base: TestBaseIn, ip: IpAddr, elapsed: nat)
    returns (reply: Reply<()>)
    requires store.Valid()
    modifies store
    ensures store.Valid()
    ensures reply.Created? <==> web.dnsConsistency.Some? && |CompletePayloads(tcps)| == |tcps|
    ensures reply.NotFound? ==> reply.message == WebError
    ensures var id := old(store.nextId);
            store.tests == old(store.tests) + [NewSession(store.asns, store.networks, id, base, ip, old(store.clock) + elapsed)]
    ensures web.dnsConsistency.None? ==> store.sub == old(store.sub) && store.nextId == old(store.nextId) + 1
    ensures web.dnsConsistency.Some? ==>
              var id := old(store.nextId);
              var ps := CompletePayloads(tcps);
              && store.sub == old(store.sub).(
                   web := old(store.sub).web + [Row(id + 1, Some(id), WebRow(WebColumns(web, web.dnsConsistency.value)))],
                   tcpConnect := old(store.sub).tcpConnect + Numbered(id + 2, Some(id + 1), ps))
              && store.nextId == id + 2 + |ps|
    ensures store.clock == old(store.clock) + elapsed
  {
    var id := CreateTestBase(store, base, ip, elapsed);
    reply := AddWebMeasurement(store, web, tcps, id);
  }

  /** Everything after the session: the web row, then its connections. */
  method AddWebMeasurement(store: Store, web: WebIn, tcps: seq<TcpConnectIn>, id: nat) returns (reply: Reply<()>)
    requires store.Valid() && HasTest(store.tests, id) && id >= 1
    modifies store
    ensures store.Valid()
    ensures reply == if web.dnsConsistency.Some? && |CompletePayloads(tcps)| == |tcps| then Created(()) else NotFound(WebError)
    ensures web.dnsConsistency.None? ==> store.sub == old(store.sub) && store.nextId == old(store.nextId)
    ensures web.dnsConsistency.Some? ==>
              var webId := old(store.nextId);
              var ps := CompletePayloads(tcps);
              && store.sub == old(store.sub).(
                   web := old(store.sub).web + [Row(webId, Some(id), WebRow(WebColumns(web, web.dnsConsistency.value)))],
                   tcpConnect := old(store.sub).tcpConnect + Numbered(webId + 1, Some(webId), ps))
              && store.nextId == webId + 1 + |ps|
    ensures store.tests == old(store.tests) && store.clock == old(store.clock)
  {
    var webId := AddWebRow(store, web, id);
    if webId.None? {
      reply := NotFound(WebError);
    } else {
      assert HasRow(store.sub.web, webId.value) by {
        assert store.sub.web[|store.sub.web| - 1].id == webId.value;
      }
      var ok := AddTcpConnects(store, tcps, webId.value);
      reply := if ok then Created(()) else NotFound(WebError);
    }
  }

  /** The web row owned by an existing session: refused, with nothing
      written, when the DNS consistency is missing. */
  method AddWebRow(store: Store, web: WebIn, id: nat) returns (webId: Option<nat>)
    requires store.Valid() && HasTest(store.tests, id) && id >= 1
    modifies store
    ensures store.Valid()
    ensures webId.Some? <==> web.dnsConsistency.Some?
    ensures webId.Some? ==>
              && webId.value == old(store.nextId)
              && store.sub == old(store.sub).(web := old(store.sub).web
                                                     + [Row(webId.value, Some(id), WebRow(WebColumns(web, web.dnsConsistency.value)))])
              && store.nextId == old(store.nextId) + 1
    ensures webId.None? ==> store.sub == old(store.sub) && store.nextId == old(store.nextId)
    ensures store.tests == old(store.tests) && store.clock == old(store.clock)
  {
    SpreadColumnwise(WebTestOoni(web));
    SessionOwnerOk(store.tests, store.sub, WebKind, id);
    var r := CreateSpecificTest(store, WebTestOoni(web), Some(id));
    if r.Err? {
      webId := None;
    } else {
      webId := Some(r.value);
    }
  }

  /** The loop over the connections: each becomes a row owned by the web row,
      until one lacks its address or port. */
  method AddTcpConnects(store: Store, tcps: seq<TcpConnectIn>, webId: nat) returns (ok: bool)
    requires store.Valid() && HasRow(store.sub.web, webId)
    modifies store
    ensures store.Valid()
    ensures ok <==> |CompletePayloads(tcps)| == |tcps|
    ensures var ps := CompletePayloads(tcps);
            && store.sub == old(store.sub).(tcpConnect := old(store.sub).tcpConnect + Numbered(old(store.nextId), Some(webId), ps))
            && store.nextId == old(store.nextId) + |ps|
    ensures store.tests == old(store.tests) && store.clock == old(store.clock)
  {
    ghost var sub0 := store.sub;
    ghost var first := store.nextId;
    ghost var ps := CompletePayloads(tcps);
    assert webId >= 1 by {
      var j :| 0 <= j < |sub0.web| && sub0.web[j].id == webId;
    }
    var failed := false;
    var i := 0;
    while i < |tcps| && !failed
      invariant 0 <= i <= |ps|
      invariant failed ==> i == |ps| < |tcps|
      invariant store.Valid()
      invariant store.tests == old(store.tests) && store.clock == old(store.clock)
      invariant store.nextId == first + i
      invariant store.sub == sub0.(tcpConnect := sub0.tcpConnect + Numbered(first, Some(webId), ps[..i]))
      decreases |tcps| - i, if failed then 0 else 1
    {
      var added := AddTcpStep(store, tcps, webId, first, sub0, i);
      if !added {
        failed := true;
      } else {
        i := i + 1;
      }
    }
    assert ps[..i] == ps;
    ok := !failed;
  }

  /** Iteration i of the loop, with the first i complete connections
      already written: the next one is written exactly when it is complete. */
  method AddTcpStep(store: Store, tcps: seq<TcpConnectIn>, webId: nat, ghost first: nat, ghost sub0: SubTables, i: nat)
    returns (added: bool)
    requires store.Valid() && HasRow(sub0.web, webId) && webId >= 1
    requires i <= |CompletePayloads(tcps)| && i < |tcps|
    requires store.nextId == first + i
    requires store.sub == sub0.(tcpConnect := sub0.tcpConnect + Numbered(first, Some(webId), CompletePayloads(tcps)[..i]))
    modifies store
    ensures store.Valid()
    ensures added <==> i < |CompletePayloads(tcps)|
    ensures added ==> && store.nextId == first + i + 1
                      && store.sub == sub0.(tcpConnect := sub0.tcpConnect + Numbered(first, Some(webId), CompletePayloads(tcps)[..i + 1]))
    ensures !added ==> store.sub == old(store.sub) && store.nextId == old(store.nextId)
    ensures store.tests == old(store.tests) && store.clock == old(store.clock)
  {
    CompletePrefixAt(tcps, i);
    added := AddTcpConnect(store, tcps[i], webId);
    if added {
      TcpStepTables(sub0, first, webId, tcps, i);
    }
  }

  /** Connection i is complete exactly when the complete prefix reaches
      past it, and then it gives the prefix's i-th row. */
  lemma CompletePrefixAt(tcps: seq<TcpConnectIn>, i: nat)
    requires i <= |CompletePayloads(tcps)| && i < |tcps|
    ensures TcpComplete(tcps[i]) <==> i < |CompletePayloads(tcps)|
  {
  }

  /** Appending connection i's row to the tables holding the first i rows
      gives the tables holding the first i + 1. */
  lemma TcpStepTables(sub0: SubTables, first: nat, webId: nat, tcps: seq<TcpConnectIn>, i: nat)
    requires i < |CompletePayloads(tcps)|
    ensures TcpComplete(tcps[i])
    ensures var before := sub0.(tcpConnect := sub0.tcpConnect + Numbered(first, Some(webId), CompletePayloads(tcps)[..i]));
            before.(tcpConnect := before.tcpConnect + [Row(first + i, Some(webId), TcpPayload(tcps[i]))])
            == sub0.(tcpConnect := sub0.tcpConnect + Numbered(first, Some(webId), CompletePayloads(tcps)[..i + 1]))
  {
    AppendStep(sub0.tcpConnect, first, Some(webId), CompletePayloads(tcps), i);
  }

  /** One connection of the loop: a row owned by the web row when both NOT
      NULL columns are present, nothing otherwise. */
  method AddTcpConnect(store: Store, t: TcpConnectIn, webId: nat) returns (added: bool)
    requires store.Valid() && HasRow(store.sub.web, webId) && webId >= 1
    modifies store
    ensures store.Valid()
    ensures added <==> TcpComplete(t)
    ensures added ==> && store.sub == old(store.sub).(tcpConnect := old(store.sub).tcpConnect
                                                                      + [Row(old(store.nextId), Some(webId), TcpPayload(t))])
                      && store.nextId == old(store.nextId) + 1
    ensures !added ==> store.sub == old(store.sub) && store.nextId == old(store.nextId)
    ensures store.tests == old(store.tests) && store.clock == old(store.clock)
  {
    TcpSpread(t);
    WebOwnerOk(store.tests, store.sub, webId);
    var r := CreateSpecificTest(store, TcpConnectWebTestOoni(t), Some(webId));
    added := r.Ok?;
  }

  // ---------------------------------------------------------------------
  // GET /tests
  // ---------------------------------------------------------------------

  datatype HistoryView = HistoryView(
    protocolsTest: seq<Entry<seq<Row>>>,
    devicesTest: seq<Entry<seq<VendorInfo>>>,
    dnsTests: seq<Entry<Row>>,
    ndtTestsOoni: seq<Entry<Row>>,
    webTestsOoni: seq<WebEntry>)

  /** The five histories of the client address; changes nothing. */
  method GetTests(store: Store, ip: IpAddr) returns (h: HistoryView)
    requires AllDevices(store.sub.devices)
    ensures h.protocolsTest == ListHistory(store.tests, store.sub.protocol, ip)
    ensures var l := ListHistory(store.tests, store.sub.devices, ip);
            && |h.devicesTest| == |l|
            && forall i :: 0 <= i < |l| ==> h.devicesTest[i] == Entry(Vendors(store.manufs, l[i].test), l[i].timestamp)
    ensures h.dnsTests == History.GetTests(store.tests, store.sub.dns, ip)
    ensures h.ndtTestsOoni == History.GetTests(store.tests, store.sub.ndt, ip)
    ensures var g := History.GetTests(store.tests, store.sub.web, ip);
            && |h.webTestsOoni| == |g|
            && forall i :: 0 <= i < |g| ==>
                 h.webTestsOoni[i] == WebEntry(g[i].test, OwnedBy(store.sub.tcpConnect, g[i].test.id), g[i].timestamp)
  {
    var protocols := GetTestsWithList(store, ip, ProtocolKind);
    var devices := GetDevicesTests(store, ip);
    var dns := History.GetTests(store.tests, store.sub.dns, ip);
    var ndt := History.GetTests(store.tests, store.sub.ndt, ip);
    var webs := GetOoniWebTests(store, ip);
    h := HistoryView(protocols, devices, dns, ndt, webs);
  }
}
