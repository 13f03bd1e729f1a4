/** Submission records and their checks: the field formats and bounds, and the
    cross-field root validators, each a pure rule over the submitted `values`
    mapping that either hands the mapping back or rejects it with a message. */
module Schemas {
  import opened Models

  // ---------------------------------------------------------------------
  // The values a validator sees
  // ---------------------------------------------------------------------

  datatype Value =
    | Null
    | Text(s: string)
    | Int(i: int)
    | Bool(b: bool)
    | Ip(a: IpAddr)
    | Rating(r: RatingOarc)
    | Real(f: Float)

  /** Field name to submitted value, as handed to a root validator. */
  type Values = map<string, Value>

  /** `values.get(key)`: nothing when the key is missing or holds null. */
  function Get(values: Values, key: string): (r: Option<Value>)
    ensures r.None? <==> key !in values || values[key] == Null
    ensures r.Some? ==> r.value == values[key]
  {
    if key in values && values[key] != Null then Some(values[key]) else None
  }

  predicate Present(values: Values, key: string)
  {
    Get(values, key).Some?
  }

  /** A validator's outcome: the values passed on, or the error it raised. */
  datatype Verdict = Accepted(values: Values) | Rejected(message: string)

  const MacMaskMessage := "missing mask or mac values"
  const ResolverIpMessage := "at least one resolver ip"
  const DnssecMessage := "some dnssec values are missing"
  const OarcTransactionIdMessage := "some oarc values of transaction_id are missing"
  const OarcSourcePortMessage := "some oarc values of source_port are missing"
  const OarcAllMissingMessage := "some oarc values are missing"
  const OarcResolverMissingMessage := "resolver_ip_oarc is missing"

  // ---------------------------------------------------------------------
  // Root validators
  // ---------------------------------------------------------------------

  /** Session mac and mask come together or not at all. */
  function CheckMacMask(values: Values): (r: Verdict)
    ensures r.Accepted? <==> (Present(values, "mac") <==> Present(values, "mask"))
    ensures r.Accepted? ==> r.values == values
    ensures r.Rejected? ==> r.message == MacMaskMessage
  {
    var mac, mask := Get(values, "mac"), Get(values, "mask");
    if (mac.None? && mask.Some?) || (mac.Some? && mask.None?) then Rejected(MacMaskMessage)
    else Accepted(values)
  }

  /** At least one resolver: reads `dns1_android` and the key `ns`; neither
      `dns2_android` nor `ns_akamai` is consulted. */
  function CheckResolverIp(values: Values): (r: Verdict)
    ensures r.Rejected? <==> !Present(values, "dns1_android") && !Present(values, "ns")
    ensures r.Accepted? ==> r.values == values
    ensures r.Rejected? ==> r.message == ResolverIpMessage
  {
    var dnsAndroid, dnsAkamai := Get(values, "dns1_android"), Get(values, "ns");
    if dnsAndroid.None? && dnsAkamai.None? then Rejected(ResolverIpMessage) else Accepted(values)
  }

  /** The resolver rule as its message states it: either the Android resolver
      or the Akamai name server the session saw is enough. */
  function CheckResolverIpCorrected(values: Values): (r: Verdict)
    ensures r.Rejected? <==> !Present(values, "dns1_android") && !Present(values, "ns_akamai")
    ensures r.Accepted? ==> r.values == values
    ensures r.Rejected? ==> r.message == ResolverIpMessage
  {
    var dnsAndroid, dnsAkamai := Get(values, "dns1_android"), Get(values, "ns_akamai");
    if dnsAndroid.None? && dnsAkamai.None? then Rejected(ResolverIpMessage) else Accepted(values)
  }

  /** The three DNSSEC indicators are all present or all absent. */
  predicate DnssecComplete(values: Values)
  {
    Present(values, "do_flag") == Present(values, "ad_flag") == Present(values, "rrsig")
  }

  function CheckDnssec(values: Values): (r: Verdict)
    ensures r.Accepted? <==> DnssecComplete(values)
    ensures r.Accepted? ==> r.values == values
    ensures r.Rejected? ==> r.message == DnssecMessage
  {
    var doFlag, adFlag, rrsig := Get(values, "do_flag"), Get(values, "ad_flag"), Get(values, "rrsig");
    if (doFlag.Some? && (adFlag.None? || rrsig.None?)) || (doFlag.None? && (adFlag.Some? || rrsig.Some?)) then
      Rejected(DnssecMessage)
    else
      Accepted(values)
  }

  /** The OARC family as a whole: with a resolver, every rating/deviation pair is
      complete and at least one is present; without one, none of the four is. */
  predicate OarcConsistent(values: Values)
  {
    var rsp, ssp := Present(values, "rating_source_port"), Present(values, "std_source_port");
    var rti, sti := Present(values, "rating_transaction_id"), Present(values, "std_transaction_id");
    if Present(values, "resolver_ip_oarc") then rsp == ssp && rti == sti && (rsp || rti)
    else !rsp && !ssp && !rti && !sti
  }

  function CheckOarc(values: Values): (r: Verdict)
    ensures r.Accepted? <==> OarcConsistent(values)
    ensures r.Accepted? ==> r.values == values
    // with a resolver, the transaction-id pair is checked before the source-port pair
    ensures Present(values, "resolver_ip_oarc")
            && Present(values, "rating_transaction_id") != Present(values, "std_transaction_id")
            ==> r == Rejected(OarcTransactionIdMessage)
    ensures Present(values, "resolver_ip_oarc")
            && Present(values, "rating_transaction_id") == Present(values, "std_transaction_id")
            && Present(values, "rating_source_port") != Present(values, "std_source_port")
            ==> r == Rejected(OarcSourcePortMessage)
    ensures Present(values, "resolver_ip_oarc")
            && !Present(values, "rating_source_port") && !Present(values, "std_source_port")
            && !Present(values, "rating_transaction_id") && !Present(values, "std_transaction_id")
            ==> r == Rejected(OarcAllMissingMessage)
    ensures !Present(values, "resolver_ip_oarc")
            && (Present(values, "rating_source_port") || Present(values, "std_source_port")
                || Present(values, "rating_transaction_id") || Present(values, "std_transaction_id"))
            ==> r == Rejected(OarcResolverMissingMessage)
  {
    var resolverIpOarc := Get(values, "resolver_ip_oarc");
    var ratingSourcePort := Get(values, "rating_source_port");
    var ratingTransactionId := Get(values, "rating_transaction_id");
    var stdSourcePort := Get(values, "std_source_port");
    var stdTransactionId := Get(values, "std_transaction_id");
    if resolverIpOarc.Some? then
      if (ratingTransactionId.Some? && stdTransactionId.None?) || (ratingTransactionId.None? && stdTransactionId.Some?) then
        Rejected(OarcTransactionIdMessage)
      else if (ratingSourcePort.Some? && stdSourcePort.None?) || (ratingSourcePort.None? && stdSourcePort.Some?) then
        Rejected(OarcSourcePortMessage)
      else if ratingSourcePort.None? && stdSourcePort.None? && ratingTransactionId.None? && stdTransactionId.None? then
        Rejected(OarcAllMissingMessage)
      else
        Accepted(values)
    else if ratingSourcePort.Some? || stdSourcePort.Some? || ratingTransactionId.Some? || stdTransactionId.Some? then
      Rejected(OarcResolverMissingMessage)
    else
      Accepted(values)
  }

  /** Changing `dns2_android` or `ns_akamai` never changes whether the
      resolver check rejects. */
  lemma ResolverIpIgnores(values: Values, key: string, v: Value)
    requires key == "dns2_android" || key == "ns_akamai"
    ensures CheckResolverIp(values[key := v]).Rejected? == CheckResolverIp(values).Rejected?
  {
    assert Get(values[key := v], "dns1_android") == Get(values, "dns1_android");
    assert Get(values[key := v], "ns") == Get(values, "ns");
  }

  // ---------------------------------------------------------------------
  // Field formats
  // ---------------------------------------------------------------------

  predicate IsHexDigit(c: char)
  {
    ('0' <= c <= '9') || ('a' <= c <= 'f') || ('A' <= c <= 'F')
  }

  predicate IsDecDigit(c: char)
  {
    '0' <= c <= '9'
  }

  /** `^([0-9A-Fa-f]{2}[:]){5}([0-9A-Fa-f]{2})` matched from the start with no
      end anchor: six colon-separated hex pairs, then anything. */
  predicate MacFormat(s: string)
  {
    |s| >= 17 && forall i :: 0 <= i < 17 ==> if i % 3 == 2 then s[i] == ':' else IsHexDigit(s[i])
  }

  /** Only the first 17 characters decide the MAC format. */
  lemma MacFormatIgnoresTail(s: string, tail: string)
    ensures MacFormat(s) ==> MacFormat(s + tail)
    ensures MacFormat(s + tail) && |s| >= 17 ==> MacFormat(s)
  {
    if |s| >= 17 {
      assert forall i :: 0 <= i < 17 ==> (s + tail)[i] == s[i];
    }
  }

  predicate StartsWith(s: string, p: string)
  {
    |p| <= |s| && s[..|p|] == p
  }

  /** Length of the alternative of `(10|127|169\.254|172\.1[6-9]|172\.2[0-9]|172\.3[0-1]|192\.168)`
      that opens s, or 0 when none does. The alternatives exclude each other. */
  function PrivateLead(s: string): (n: nat)
    ensures n <= |s|
  {
    if StartsWith(s, "10") then 2
    else if StartsWith(s, "127") then 3
    else if StartsWith(s, "169.254") then 7
    else if StartsWith(s, "172.1") && |s| > 5 && '6' <= s[5] <= '9' then 6
    else if StartsWith(s, "172.2") && |s| > 5 && IsDecDigit(s[5]) then 6
    else if StartsWith(s, "172.3") && |s| > 5 && '0' <= s[5] <= '1' then 6
    else if StartsWith(s, "192.168") then 7
    else 0
  }

  /** Number of consecutive decimal digits in s from index i. */
  function DigitRun(s: string, i: nat): (n: nat)
    ensures i + n <= |s| || (i >= |s| && n == 0)
    ensures forall j :: i <= j < i + n ==> IsDecDigit(s[j])
    ensures i + n < |s| ==> !IsDecDigit(s[i + n])
    decreases |s| - i
  {
    if i < |s| && IsDecDigit(s[i]) then 1 + DigitRun(s, i + 1) else 0
  }

  /** `\.[0-9]{1,3}\.[0-9]{1,3}` matched at index i, with anything after. */
  predicate DottedPairAt(s: string, i: nat)
  {
    var k := DigitRun(s, i + 1);
    && i < |s| && s[i] == '.'
    && 1 <= k <= 3
    && i + k + 2 < |s|
    && s[i + 1 + k] == '.'
    && IsDecDigit(s[i + 2 + k])
  }

  /** The private-address pattern matched from the start with no end anchor. */
  predicate PrivateIpFormat(s: string)
  {
    PrivateLead(s) > 0 && DottedPairAt(s, PrivateLead(s))
  }

  /** A prefix no longer than s opens s + t exactly when it opens s. */
  lemma StartsWithAppend(s: string, t: string, p: string)
    requires |p| <= |s|
    ensures StartsWith(s + t, p) == StartsWith(s, p)
  {
    assert (s + t)[..|p|] == s[..|p|];
  }

  /** A run of digits that ends inside s is not lengthened by what follows s. */
  lemma {:induction false} DigitRunAppend(s: string, t: string, i: nat)
    requires i + DigitRun(s, i) < |s|
    ensures DigitRun(s + t, i) == DigitRun(s, i)
    decreases |s| - i
  {
    assert (s + t)[i] == s[i];
    if IsDecDigit(s[i]) {
      DigitRunAppend(s, t, i + 1);
    }
  }

  /** The leading block of a matching address is the same once text is appended. */
  lemma PrivateLeadAppend(s: string, t: string)
    requires PrivateIpFormat(s)
    ensures PrivateLead(s + t) == PrivateLead(s)
  {
    if StartsWith(s, "10") {
      StartsWithAppend(s, t, "10");
    } else {
      assert |s| >= 7;
      StartsWithAppend(s, t, "10");
      StartsWithAppend(s, t, "127");
      StartsWithAppend(s, t, "169.254");
      StartsWithAppend(s, t, "172.1");
      StartsWithAppend(s, t, "172.2");
      StartsWithAppend(s, t, "172.3");
      StartsWithAppend(s, t, "192.168");
      assert (s + t)[5] == s[5];
    }
  }

  /** The pattern has no end anchor: whatever follows a match, it still matches. */
  lemma PrivateIpTail(s: string, t: string)
    requires PrivateIpFormat(s)
    ensures PrivateIpFormat(s + t)
  {
    var i := PrivateLead(s);
    PrivateLeadAppend(s, t);
    var k := DigitRun(s, i + 1);
    DigitRunAppend(s, t, i + 1);
    assert (s + t)[i] == s[i];
    assert (s + t)[i + 1 + k] == s[i + 1 + k];
    assert (s + t)[i + 2 + k] == s[i + 2 + k];
  }

  /** A full private class-C address matches. */
  lemma PrivateIpAcceptsAddress()
    ensures PrivateIpFormat("192.168.0.1")
  {
    var t := "192.168.0.1";
    assert t[..2] != "10" && t[..3] != "127" && t[..7] != "169.254" by { assert t[1] == '9'; assert t[0] == '1'; }
    assert t[..5] != "172.1" && t[..5] != "172.2" && t[..5] != "172.3" by { assert t[1] == '9'; }
    assert t[..7] == "192.168";
    assert PrivateLead(t) == 7;
    assert t[8] == '0' && t[9] == '.' && t[10] == '1';
    assert DigitRun(t, 10) == 0 + 1 by { assert DigitRun(t, 11) == 0; }
    assert DigitRun(t, 9) == 0;
    assert DigitRun(t, 8) == 1;
  }

  /** Three dotted groups are enough: the pattern has no fourth group. */
  lemma PrivateIpAcceptsThreeGroups()
    ensures PrivateIpFormat("10.1.2")
  {
    var t := "10.1.2";
    assert t[..2] == "10";
    assert PrivateLead(t) == 2;
    assert t[4] == '.';
    assert DigitRun(t, 4) == 0;
    assert DigitRun(t, 3) == 1;
  }

  /** Nothing after the fourth group's first digit is looked at. */
  lemma PrivateIpIgnoresTail()
    ensures PrivateIpFormat("10.0.0.999")
  {
    var t := "10.0.0.999";
    assert t[..2] == "10";
    assert PrivateLead(t) == 2;
    assert t[3] == '0' && t[4] == '.' && t[5] == '0';
    assert DigitRun(t, 4) == 0;
    assert DigitRun(t, 3) == 1;
  }

  /** 172.32/16 is outside the private 172.16/12 block. */
  lemma PrivateIpRejectsOutsideBlock()
    ensures !PrivateIpFormat("172.32.0.1")
  {
    var t := "172.32.0.1";
    assert t[..2] != "10" by { assert t[1] == '7'; }
    assert t[..3] != "127" by { assert t[2] == '2'; }
    assert t[..7] != "169.254" && t[..7] != "192.168" by { assert t[1] == '7'; }
    assert t[..5] != "172.1" && t[..5] != "172.2" by { assert t[4] == '3'; }
    assert t[5] == '2';
    assert PrivateLead(t) == 0;
  }

  /** A public address does not match. */
  lemma PrivateIpRejectsPublic()
    ensures !PrivateIpFormat("8.8.8.8")
  {
    var t := "8.8.8.8";
    assert t[..2] != "10" && t[..3] != "127" && t[..5] != "172.1" && t[..5] != "172.2"
      && t[..5] != "172.3" && t[..7] != "169.254" && t[..7] != "192.168" by { assert t[0] == '8'; }
    assert PrivateLead(t) == 0;
  }

  // ---------------------------------------------------------------------
  // Submission records and their field bounds
  // ---------------------------------------------------------------------

  /** The optional session fields of a submission. */
  type TestBaseIn = TestInfo

  /** A discovered device; `privateIp` has no column in the devices table. */
  datatype DevicesIn = DevicesIn(mac: string, mask: int, router: bool, privateIp: string)

  const DefaultDevicesMask := 24

  /** A device as the request supplies it: an omitted mask becomes 24 and an
      omitted router flag false. */
  function NewDevicesIn(mac: string, mask: Option<int>, router: Option<bool>, privateIp: string): (d: DevicesIn)
    ensures d.mac == mac && d.privateIp == privateIp
    ensures mask.None? ==> d.mask == DefaultDevicesMask && DevicesFieldsOk(d) == (MacFormat(mac) && PrivateIpFormat(privateIp))
    ensures mask.Some? ==> d.mask == mask.value
    ensures d.router <==> router == Some(true)
  {
    DevicesIn(mac, if mask.Some? then mask.value else DefaultDevicesMask,
              if router.Some? then router.value else false, privateIp)
  }

  /** A web test as submitted: `dnsConsistency` may be missing. */
  datatype WebIn = WebIn(
    reportId: string,
    url: string,
    resolverAsn: string,
    resolverIp: IpAddr,
    resolverNetworkName: string,
    clientResolver: IpAddr,
    dnsExperimentFailure: Option<string>,
    controlFailure: Option<string>,
    httpExperimentFailure: Option<string>,
    dnsConsistency: Option<DnsConsistency>,
    bodyLengthMatch: Option<bool>,
    headersMatch: Option<bool>,
    statusCodeMatch: Option<bool>,
    titleMatch: Option<bool>,
    accessible: Option<bool>,
    blocking: Option<Blocking>)

  /** A TCP-connect result as submitted: ip and port may be missing. */
  datatype TcpConnectIn = TcpConnectIn(
    ip: Option<IpAddr>,
    port: Option<int>,
    statusBlocked: Option<bool>,
    statusFailureString: Option<string>,
    statusSuccess: bool)

  /** One sub-test submission of any kind. */
  datatype Submission =
    | ProtocolTest(protocol: ProtocolFields)
    | DevicesTest(device: DevicesIn)
    | DnsTest(dns: DnsFields)
    | NdtTestOoni(ndt: NdtFields)
    | WebTestOoni(web: WebIn)
    | TcpConnectWebTestOoni(tcp: TcpConnectIn)

  function SubmissionKind(s: Submission): Kind
  {
    match s
    case ProtocolTest(_) => ProtocolKind
    case DevicesTest(_) => DevicesKind
    case DnsTest(_) => DnsKind
    case NdtTestOoni(_) => NdtKind
    case WebTestOoni(_) => WebKind
    case TcpConnectWebTestOoni(_) => TcpConnectKind
  }

  /** The field names a submission of each kind spreads into its row. */
  function SchemaFields(k: Kind): set<string>
  {
    match k
    case ProtocolKind => {"protocol_name", "key_management", "cipher"}
    case DevicesKind => {"mac", "mask", "router", "private_ip"}
    case DnsKind => {"dns1_android", "dns2_android", "ns_akamai", "ecs_akamai", "ip_akamai",
                     "do_flag", "ad_flag", "rrsig", "resolver_ip_oarc", "rating_source_port",
                     "rating_transaction_id", "std_source_port", "std_transaction_id",
                     "bits_of_entropy_source_port", "bits_of_entropy_transaction_id"}
    case NdtKind => {"report_id", "avg_rtt", "download", "mss", "max_rtt", "min_rtt", "ping",
                     "retransmit_rate", "upload"}
    case WebKind => {"report_id", "url", "resolver_asn", "resolver_ip", "resolver_network_name",
                     "client_resolver", "dns_experiment_failure", "control_failure", "http_experiment_failure",
                     "dns_consistency", "body_length_match", "headers_match", "status_code_match",
                     "title_match", "accessible", "blocking"}
    case TcpConnectKind => {"ip", "port", "status_blocked", "status_failure_string", "status_success"}
  }

  /** The schema fields of a kind that its table has no column for. */
  function UnknownKeywords(k: Kind): set<string>
  {
    if k == DevicesKind then {"private_ip"} else {}
  }

  /** Every schema field is a column of its table except the devices'
      `private_ip`. */
  lemma {:induction false} UnknownFields(k: Kind)
    ensures SchemaFields(k) - Columns(k) == UnknownKeywords(k)
  {
    match k
    case ProtocolKind =>
    case DevicesKind =>
      assert "private_ip" in SchemaFields(k) - Columns(k);
    case DnsKind =>
    case NdtKind =>
    case WebKind =>
    case TcpConnectKind =>
  }

  /** Field bounds: a positive mask and a well-formed MAC on a session. */
  predicate TestBaseFieldsOk(b: TestBaseIn)
  {
    && (b.mac.Some? ==> MacFormat(b.mac.value))
    && (b.mask.Some? ==> b.mask.value > 0)
  }

  predicate DevicesFieldsOk(d: DevicesIn)
  {
    MacFormat(d.mac) && d.mask > 0 && PrivateIpFormat(d.privateIp)
  }

  /** Both deviations are non-negative when present. */
  predicate DnsFieldsOk(d: DnsFields)
  {
    && (d.stdSourcePort.Some? ==> d.stdSourcePort.value >= 0)
    && (d.stdTransactionId.Some? ==> d.stdTransactionId.value >= 0)
  }

  predicate TcpConnectFieldsOk(t: TcpConnectIn)
  {
    t.port.Some? ==> t.port.value > 0
  }

  // ---------------------------------------------------------------------
  // The values mapping of a typed submission
  // ---------------------------------------------------------------------

  function OptText(o: Option<string>): Value { if o.Some? then Text(o.value) else Null }
  function OptInt(o: Option<int>): Value { if o.Some? then Int(o.value) else Null }
  function OptBool(o: Option<bool>): Value { if o.Some? then Bool(o.value) else Null }
  function OptIp(o: Option<IpAddr>): Value { if o.Some? then Ip(o.value) else Null }
  function OptRating(o: Option<RatingOarc>): Value { if o.Some? then Rating(o.value) else Null }
  function OptReal(o: Option<Float>): Value { if o.Some? then Real(o.value) else Null }

  function TestBaseValues(b: TestBaseIn): Values
  {
    map["device_android" := OptText(b.deviceAndroid), "mac" := OptText(b.mac), "mask" := OptInt(b.mask),
        "place" := OptText(b.place), "username" := OptText(b.username)]
  }

  function DnsValues(d: DnsFields): Values
  {
    map["dns1_android" := OptIp(d.dns1Android), "dns2_android" := OptIp(d.dns2Android),
        "ns_akamai" := OptIp(d.nsAkamai), "ecs_akamai" := OptIp(d.ecsAkamai), "ip_akamai" := OptIp(d.ipAkamai),
        "do_flag" := OptBool(d.doFlag), "ad_flag" := OptBool(d.adFlag), "rrsig" := OptBool(d.rrsig),
        "resolver_ip_oarc" := OptIp(d.resolverIpOarc),
        "rating_source_port" := OptRating(d.ratingSourcePort),
        "rating_transaction_id" := OptRating(d.ratingTransactionId),
        "std_source_port" := OptInt(d.stdSourcePort), "std_transaction_id" := OptInt(d.stdTransactionId),
        "bits_of_entropy_source_port" := OptReal(d.bitsOfEntropySourcePort),
        "bits_of_entropy_transaction_id" := OptReal(d.bitsOfEntropyTransactionId)]
  }

  /** On a typed session the pairing rule asks for mac and mask together. */
  lemma TestBaseMacMask(b: TestBaseIn)
    ensures CheckMacMask(TestBaseValues(b)).Accepted? <==> (b.mac.Some? <==> b.mask.Some?)
  {
    var v := TestBaseValues(b);
    assert Present(v, "mac") <==> b.mac.Some?;
    assert Present(v, "mask") <==> b.mask.Some?;
  }

  /** A typed DNS test has no `ns` field, so only `dns1_android` can satisfy
      the resolver rule: an `ns_akamai` alone is rejected. */
  lemma DnsResolverOnFields(d: DnsFields)
    ensures CheckResolverIp(DnsValues(d)).Rejected? <==> d.dns1Android.None?
  {
    var v := DnsValues(d);
    assert "ns" !in v;
    assert Present(v, "dns1_android") <==> d.dns1Android.Some?;
  }

  /** With the key corrected, a typed DNS test passes exactly when it names
      at least one of the two resolvers. */
  lemma DnsResolverCorrectedOnFields(d: DnsFields)
    ensures CheckResolverIpCorrected(DnsValues(d)).Rejected? <==> d.dns1Android.None? && d.nsAkamai.None?
  {
    var v := DnsValues(d);
    assert Present(v, "dns1_android") <==> d.dns1Android.Some?;
    assert Present(v, "ns_akamai") <==> d.nsAkamai.Some?;
  }

  /** On typed fields the DNSSEC rule is all-or-none over the three flags. */
  lemma DnsDnssecOnFields(d: DnsFields)
    ensures CheckDnssec(DnsValues(d)).Accepted? <==>
            (d.doFlag.Some? == d.adFlag.Some? == d.rrsig.Some?)
  {
    var v := DnsValues(d);
    assert Present(v, "do_flag") <==> d.doFlag.Some?;
    assert Present(v, "ad_flag") <==> d.adFlag.Some?;
    assert Present(v, "rrsig") <==> d.rrsig.Some?;
  }

  /** On typed fields the OARC rule reads the resolver and the two pairs. */
  lemma DnsOarcOnFields(d: DnsFields)
    ensures CheckOarc(DnsValues(d)).Accepted? <==>
            if d.resolverIpOarc.Some? then
              && d.ratingSourcePort.Some? == d.stdSourcePort.Some?
              && d.ratingTransactionId.Some? == d.stdTransactionId.Some?
              && (d.ratingSourcePort.Some? || d.ratingTransactionId.Some?)
            else
              d.ratingSourcePort.None? && d.stdSourcePort.None?
              && d.ratingTransactionId.None? && d.stdTransactionId.None?
  {
    var v := DnsValues(d);
    assert Present(v, "resolver_ip_oarc") <==> d.resolverIpOarc.Some?;
    assert Present(v, "rating_source_port") <==> d.ratingSourcePort.Some?;
    assert Present(v, "std_source_port") <==> d.stdSourcePort.Some?;
    assert Present(v, "rating_transaction_id") <==> d.ratingTransactionId.Some?;
    assert Present(v, "std_transaction_id") <==> d.stdTransactionId.Some?;
  }
}
