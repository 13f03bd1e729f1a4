# WiFi Advisor backend — a verified model of its core

The WiFi Advisor backend stores the results a mobile client submits after
measuring its network. A client posts a *test session* (its public IP, the
ASN that IP belongs to, an optional MAC and mask, a place and a user name),
together with sub-tests of one category:

- protocol tests (one row per list element);
- device discovery (one row per device found on the LAN, each answered with its
  vendor from the `macs_manuf` table);
- a DNS test;
- an OONI NDT measurement;
- an OONI web test, with the TCP-connect rows it owns.

`GET /tests` answers, for the caller's IP, the five most recent sessions
of each category. `GET /asn` answers the ASN whose network block contains the
caller's address.

The model has six modules:

| module | file | models |
|---|---|---|
| `Models` | `models.dfy` | The tables of `models.py` as datatypes: ASNs, ASN networks (CIDR blocks), vendor rows, sessions, the six sub-test row kinds, and the three enums with their value strings (the strings submissions carry and replies show; the enum columns store the member names). It also has `InBlock`/`StrictlyContains`, the CIDR prefix semantics of section 3.1 of RFC 4632 and PostgreSQL's strict containment `>>`. `StoreOk` is the database's well-formedness: fresh ids, ordered sessions, the NOT NULL owner columns, and owner references (sessions for the five test kinds, web tests for TCP rows). Lemmas show that every insert keeps it. |
| `Schemas` | `schemas.dfy` | The pydantic submission records and their root validators. Each validator is a pure rule over the `values` mapping: it hands the mapping back or rejects it with its message. The module also has the MAC and private-IP format predicates, the field bounds, and the `DevicesTest` default mask of 24. |
| `Queries` | `queries.dfy` | The database session as a `Store` class. Its reference tables (ASNs, networks, vendors) are fixed. Its session list, sub-test tables, id counter and clock are updated by `AddTest`/`AddRow`, the counterpart of `add_to_database`: add, commit, refresh. It also models the lookups `get_asn_by_ip`, `check_mac_mask_exists` and `get_manuf`, the spreading of a schema into a row constructor, and `create_test_base`/`create_specific_test`. |
| `Recency` | `recency.dfy` | "Order by timestamp descending, first n" over candidates in ascending timestamp order. |
| `History` | `history.dfy` | The four history queries: `get_tests_with_list`, `get_devices_tests`, `get_tests` and `get_ooni_web_tests`. Each is specified by a function, with lemmas: at most five entries, newest first; every entry comes from a session with the caller's IP; every qualifying session is listed unless five sessions no older than it are; each entry holds every owned row. The looping queries are methods proved against those functions. |
| `Handlers` | `handlers.dfy` | The `main.py` endpoints as methods on the store. Each states the whole new state: the session appended, the rows appended with their ids and owners, the counter. It also states the reply: 201 with its body, or 404 with the endpoint's fixed message. Rows committed before a failure stay. |

Where the system's written design and the code differ, the model follows the
code:
- ASN resolution takes a block without any preference for the most specific
  prefix (`.first()` with no ordering).
- History ties between equal timestamps have no tie-break in the code. The
  model breaks them by descending session id, which is one order the SQL
  permits.
- NDT history entries are returned without percentile scoring.

## Model

| member | source | states |
|---|---|---|
| Models.DnsConsistencyOf | models.py:11-14 | a string parses exactly when it is one of the three value strings of the DNS-consistency enum, and parses to the member with that value |
| Models.BlockingOf | models.py:16-21 | a string parses exactly when it is one of the five blocking values (including `http-diff` and `http-failure` with hyphens), to the member with that value |
| Models.RatingOf | models.py:23-26 | a string parses exactly when it is GREAT, GOOD or POOR, to the member with that value |
| Models.EnumLabelsRoundTrip | models.py:11-26 | every enum member's value string parses back to that member, for all three enums |
| Models.InBlockIsRange | models.py:41 | for a well-formed CIDR block, prefix membership is exactly the address range from the base to base + 2^(width − prefix length) |
| Models.StrictlyContains | queries.py:10 | PostgreSQL's `>>` between a block and a host address: the address is in the block and the block is wider than one host. Its meaning is given by InBlockIsRange and HostBlockContainsNothing |
| Models.HostBlockContainsNothing | queries.py:10 | a full-length block (/32 or /128) strictly contains no address, not even its own |
| Models.AppendTestKeepsOk | models.py:52-63 | appending a session with the fresh id, a timestamp no earlier than the clock, and an `asn_id` that is null or names a stored ASN keeps the database well-formed |
| Models.TableAppendOk | models.py:65-154 | appending a row of the table's own kind with the fresh id keeps the table well-formed, when the row has an owner wherever the kind's `test_id` is NOT NULL |
| Models.AppendRowKeepsOk | models.py:65-154 | appending a sub-test row with the fresh id and an acceptable owner (a session, or a web test for TCP rows, or null where the column is nullable) keeps the whole database well-formed |
| Models.StoredOwnersExist | models.py:65-154 | in a well-formed database every stored protocol, NDT, web and TCP row has a non-null owner, and every owner a row names exists: a session for the five test kinds, a web test for TCP-connect rows |
| Schemas.CheckMacMask | schemas.py:26-30 | the session check accepts exactly when mac and mask are both present or both absent; on acceptance it returns the values unchanged, on rejection its message |
| Schemas.TestBaseMacMask | schemas.py:17-30 | on a typed session the check accepts exactly when `mac` and `mask` are given together or both left out |
| Schemas.CheckResolverIp | schemas.py:77-81 | the resolver check rejects exactly when both `dns1_android` and the key `ns` are absent, and otherwise returns the values unchanged |
| Schemas.ResolverIpIgnores | schemas.py:77-81 | changing `dns2_android` or `ns_akamai` never changes whether the resolver check rejects |
| Schemas.DnsResolverOnFields | schemas.py:58-81 | on a typed DNS test (which has no `ns` field) the check rejects exactly when `dns1_android` is absent, so a test with only `ns_akamai` is rejected |
| Schemas.CheckResolverIpCorrected | schemas.py:77-81 | the resolver check reading `ns_akamai` rejects exactly when both resolvers are absent |
| Schemas.DnsResolverCorrectedOnFields | schemas.py:58-81 | with the corrected key, a typed DNS test is rejected exactly when it names neither `dns1_android` nor `ns_akamai` |
| Schemas.CheckDnssec | schemas.py:85-89 | the DNSSEC check accepts exactly when `do_flag`, `ad_flag` and `rrsig` are all present or all absent, returning the values unchanged |
| Schemas.DnsDnssecOnFields | schemas.py:64-89 | on typed fields, acceptance is all-or-none over the three DNSSEC flags |
| Schemas.CheckOarc | schemas.py:93-109 | the OARC check accepts exactly on consistent fields. With a resolver, an incomplete transaction-id pair is reported before an incomplete source-port pair, and four absent fields give "some oarc values are missing". Without a resolver, any rating or std field gives "resolver_ip_oarc is missing" |
| Schemas.DnsOarcOnFields | schemas.py:67-109 | on typed fields the OARC check accepts exactly when a resolver comes with at least one complete rating/std pair and no half pair, or no resolver comes with none of the four fields |
| Schemas.MacFormatIgnoresTail | schemas.py:11 | the unanchored MAC pattern accepts any text that starts with a well-formed address, whatever follows |
| Schemas.MacFormat | schemas.py:11 | the MAC pattern without an end anchor: the first 17 characters are six hex pairs separated by colons. Its meaning over all inputs is given by MacFormatIgnoresTail |
| Schemas.PrivateIpFormat | schemas.py:45 | the private-IP pattern matched from the start: one of the seven leading blocks, a dotted group of one to three digits, then a dot and a digit. It is specified by PrivateIpTail and the examples below |
| Schemas.PrivateIpTail | schemas.py:45 | the pattern has no end anchor: any text that matches still matches whatever is appended |
| Schemas.PrivateIpAcceptsAddress | schemas.py:45 | the private-IP pattern accepts `192.168.0.1` |
| Schemas.PrivateIpAcceptsThreeGroups | schemas.py:45 | the pattern accepts `10.1.2`: after the leading block it asks for only two dotted groups |
| Schemas.PrivateIpIgnoresTail | schemas.py:45 | the pattern accepts `10.0.0.999`: groups are up to three digits and are not range-checked |
| Schemas.PrivateIpRejectsOutsideBlock | schemas.py:45 | the pattern rejects `172.32.0.1`, outside 172.16–172.31 |
| Schemas.PrivateIpRejectsPublic | schemas.py:45 | the pattern rejects the public address `8.8.8.8` |
| Schemas.NewDevicesIn | schemas.py:41-45 | a device submitted without a mask gets mask 24, which meets the positive-mask bound, so it is valid exactly when its mac and private IP are well-formed; `router` defaults to false |
| Schemas.UnknownFields | schemas.py:41-45 | the only schema field with no column in its table is the devices schema's `private_ip` |
| Schemas.TestBaseFieldsOk | schemas.py:17-22 | the session's field bounds: a given mac has the MAC format and a given mask is positive |
| Schemas.DevicesFieldsOk | schemas.py:41-45 | a device's bounds: MAC format, positive mask, private-IP format |
| Schemas.DnsFieldsOk | schemas.py:70-71 | both std deviations are non-negative when present |
| Schemas.TcpConnectFieldsOk | schemas.py:149 | a given port is positive |
| Queries.Store.constructor | models.py:28-50 | an empty database over the given reference tables: no sessions, no sub-test rows, and the well-formedness invariant holds |
| Queries.Store.AddTest | queries.py:14-17 | inserting a session succeeds exactly when its `asn_id` is null or names a stored ASN (models.py:58). On success the session gets the fresh id and the server time, the counter advances, and the well-formedness invariant holds. On failure it reports a foreign-key error on `asn_id` and changes nothing |
| Queries.Store.AddRow | queries.py:14-17 | inserting a sub-test row succeeds exactly when its owner is acceptable: non-null where required, naming a session, or a web test for TCP rows. On success it appends exactly that row with the fresh id to its own table and leaves every other table alone; on failure nothing changes |
| Queries.FindAsn | queries.py:9 | the join finds an ASN exactly when one with that id is stored, and returns that row |
| Queries.AsnByIp | queries.py:8-12 | the join of ASNs with their networks under `>>`, first row, taking the first covering network in table order. It is specified by AsnByIpSpec |
| Queries.AsnByIpSpec | queries.py:8-12 | ASN resolution returns a stored ASN owning a block that strictly contains the address, and returns nothing exactly when no stored ASN owns such a block |
| Queries.CheckMacMaskExists | queries.py:19-20 | true exactly when some vendor row has that mac and mask |
| Queries.FirstVendor | queries.py:36 | the vendor query finds a row exactly when the pair exists, and that row has the mac and mask asked for |
| Queries.GetManuf | queries.py:34-39 | the lookup is a stored vendor row exactly when the pair exists. It always carries the submitted mac and mask, and the fallback has no manufacturer |
| Queries.GetManufFindsStoredRow | queries.py:34-39 | with `(mac, mask)` as the vendor table's key (models.py:47-48), looking up a stored row's key returns that row |
| Queries.Columnwise | queries.py:30 | building a row column by column fails exactly when a NOT NULL column would be null (web `dns_consistency`, TCP `ip`/`port`), and otherwise gives a row of the submission's kind |
| Queries.Spread | queries.py:30 | spreading every schema field into the row constructor always fails for a device, on its `private_ip` keyword. For other kinds it fails exactly when a NOT NULL column would be null |
| Queries.ColumnwiseRoundTrip | queries.py:30 | a stored row reads back as the submission it was made from, except for the device's private IP, which has no column |
| Queries.SpreadRoundTrip | queries.py:30 | a row made by spreading reads back as exactly the submission |
| Queries.SpreadColumnwise | queries.py:30 | apart from devices, spreading a schema and building the row column by column agree |
| Queries.NewSession | queries.py:22-25 | the session row for a client address: the fresh id, the address, the timestamp, the submitted fields, and the id of the ASN resolution's answer or none |
| Queries.CreateTestBase | queries.py:22-27 | appends one session with the caller's IP, the resolved ASN (none on a miss, which never fails), the submitted fields and the current time; returns its fresh id; sub-test tables unchanged |
| Queries.CreateSpecificTest | queries.py:29-32 | inserts one row of the submission's kind, with `test_id` set only when `id_fk` is truthy. It succeeds exactly when spreading works and the owner is acceptable, and then appends exactly that row with the fresh id; on failure nothing changes |
| Queries.CreateSpecificTestCorrected | queries.py:29-32 | the same insert, building the row column by column, so device rows can be stored |
| Recency.TakeRecentDescending | queries.py:62 | the selected entries never increase in timestamp |
| Recency.TakeRecentCovers | queries.py:62 | every candidate is selected, or the selection is full and holds nothing older than it |
| Recency.TakeRecentDistinct | queries.py:42 | candidates with strictly increasing keys stay pairwise distinct after selection |
| History.OwnedBy | queries.py:46 | the filter on `test_id` keeps exactly the rows owned by that session |
| History.CandidateSource | queries.py:42 | every `(test_id, timestamp)` pair the distinct join yields comes from a session with the caller's IP that owns at least one row |
| History.CandidateOf | queries.py:42 | every such session yields its pair |
| History.OwnerCandidatesOrdered | queries.py:42 | with sessions stored in time order, the pairs ascend in timestamp and have strictly increasing, so distinct, session ids |
| History.ListHistory | queries.py:41-49 | the meaning of `get_tests_with_list`: the five newest qualifying sessions, newest first, each with all the rows it owns and its timestamp. It is specified by the lemmas in the rows that follow |
| History.ListHistoryOrdered | queries.py:41-49 | at most five entries, with non-increasing timestamps |
| History.ListHistoryEntry | queries.py:44-48 | each entry is a selected session's timestamp with every row that session owns |
| History.ListHistorySound | queries.py:41-49 | every entry is non-empty and belongs to a session with the caller's IP, holding all of that session's rows and its timestamp |
| History.ListHistoryDistinct | queries.py:42 | no two entries are for the same session |
| History.ListHistoryNewestIdFirst | queries.py:42 | with sessions stored in time order, later entries belong to strictly older sessions, so ties are broken by descending session id |
| History.CandidateListed | queries.py:42 | a candidate inside the newest five is listed with all its rows |
| History.CandidateOutranked | queries.py:42 | a candidate outside the newest five is no newer than any of the five listed |
| History.ListHistoryComplete | queries.py:41-49 | every qualifying session is listed with all its rows, or five sessions no older than it are listed |
| History.GetTestsWithList | queries.py:41-49 | the loop builds exactly the specified history for the table asked for |
| History.GetDevicesTests | queries.py:51-59 | the device history has one entry per selected session, each mapping its device rows, in table order, to their `get_manuf` answers, under the session's timestamp |
| History.RowCandidateSource | queries.py:62 | every joined `(row, timestamp)` comes from a session with the caller's IP that owns the row |
| History.RowCandidateOf | queries.py:62 | every row owned by such a session is joined with its session's timestamp |
| History.RowCandidatesAscending | queries.py:62 | with sessions in time order, joined rows ascend in timestamp |
| History.GetTests | queries.py:61-63 | the meaning of `get_tests`: the five newest rows owned by sessions from the address, newest first, each with its session's timestamp. It is specified by the lemmas in the rows that follow |
| History.GetTestsOrdered | queries.py:61-63 | at most five rows, with non-increasing timestamps |
| History.GetTestsEntry | queries.py:61-63 | every returned entry is one of the joined pairs |
| History.GetTestsSound | queries.py:61-63 | every returned row is owned by a session with the caller's IP, paired with that session's timestamp |
| History.RowListed | queries.py:62 | a joined row inside the newest five is returned |
| History.RowOutranked | queries.py:62 | a joined row outside the newest five is no newer than any of the five returned |
| History.GetTestsComplete | queries.py:61-63 | every row owned by a session with the caller's IP is returned, or five rows no older than it are |
| History.GetOoniWebTests | queries.py:65-75 | one entry per selected web test, each with every TCP row that web test owns (not capped at five) and its session's timestamp |
| Handlers.GetAsn | main.py:51-63 | the reply carries the client host; its ASN is a stored one owning a block strictly containing the host, or absent exactly when no ASN covers it |
| Handlers.AddProtocolTest | main.py:66-77 | replies 201. Appends one session, then one protocol row per submitted element, in order, each owned by that session with consecutive fresh ids |
| Handlers.AddProtocolRows | main.py:72-73 | the loop appends one protocol row per element, in order, owned by the given session, with consecutive ids |
| Handlers.AddProtocolRow | main.py:73 | one protocol row owned by the session is appended |
| Handlers.AddDevicesTests | main.py:82-98 | as written: an empty list creates no session and replies `[]`. Otherwise one session is committed, the first device insert fails on `private_ip`, no device row is stored, and the reply is 404 with the devices message |
| Handlers.AddDevice | main.py:92 | as written, a device insert always fails and changes nothing |
| Handlers.AddDevicesTestsCorrected | main.py:82-98 | with column-wise inserts, fixing only the `private_ip` crash: an empty list creates no session and replies `[]`. Otherwise exactly one session is created, every device gets a row owned by it in submission order, and the reply lists one `get_manuf` answer per device, in order |
| Handlers.AddDeviceRowsCorrected | main.py:88-93 | the loop appends one device row per submitted device, owned by the session, and collects their vendor answers in order |
| Handlers.AddDeviceCorrected | main.py:91-93 | one device's vendor answer, and its row appended under the session |
| Handlers.AddDnsTest | main.py:100-109 | replies 201. Appends one session and one DNS row owned by it |
| Handlers.AddDnsRow | main.py:105 | the DNS row is appended under the session |
| Handlers.AddNdtTest | main.py:111-120 | replies 201. Appends one session and one NDT row owned by it |
| Handlers.AddNdtRow | main.py:116 | the NDT row is appended under the session |
| Handlers.CompletePayloads | main.py:128-129 | the TCP rows stored before the loop stops are the longest prefix of submissions with ip and port present, in order |
| Handlers.TcpSpread | models.py:145-154 | a TCP submission makes a row exactly when its ip and port are present |
| Handlers.AddWebTestOoni | main.py:122-133 | the session is always committed (column types are not checked, see below). The reply is 201 exactly when `dns_consistency` is given and every TCP submission is complete, otherwise 404 with the web message. Without `dns_consistency` nothing else is stored. With it, the web row is owned by the session, and the complete prefix of TCP rows follows in order, owned by the web test (not the session) |
| Handlers.AddWebMeasurement | main.py:127-129 | the web row then its TCP rows, with the same reply and prefix behaviour, relative to the given session |
| Handlers.AddWebRow | main.py:127 | the web row is stored exactly when `dns_consistency` is given, with the fresh id, owned by the session |
| Handlers.AddTcpConnects | main.py:128-129 | the loop stores the complete prefix of TCP rows, owned by the web test, and reports whether every submission was stored |
| Handlers.AddTcpStep | main.py:128-129 | one iteration of the loop: with the first i complete rows stored, connection i is stored exactly when the complete prefix reaches past it, and then the table holds the first i + 1; otherwise nothing changes |
| Handlers.AddTcpConnect | main.py:129 | one TCP row is stored exactly when its ip and port are present |
| Handlers.GetTests | main.py:135-149 | the history view holds exactly the five category histories for the caller's IP: protocol and device by session, DNS and NDT by row, web with their TCP rows |

## Left out

- FastAPI routing, the CORS middleware, the `get_db` session lifecycle and the psycopg2 IP adapter are plumbing. They are not modelled. HTTP status codes appear only as the two reply shapes, 201 and 404.
- custom_worker.py (uvicorn worker configuration) is not part of this model.
- Pydantic parsing is not modelled. This covers type coercion, the regex and bound checks at parse time, and whether the validators stacked under `@classmethod` are registered at all. Handlers take typed submissions as given, and the validators are modelled as rules over the `values` mapping.
- The field bounds (positive `mask` and `port`, non-negative `std_*`) are stated as predicates. The handlers do not assume them, because nothing else in the core depends on them. The non-negative `bits_of_entropy_*` bounds are not stated, because floats are opaque here.
- Float columns (NDT metrics, `bits_of_entropy_*`) are carried as opaque bit patterns, with no arithmetic.
- The server clock (`func.now()`) is modelled as the store clock advanced by a caller-given elapsed time, so timestamps never decrease.
- Ids come from one counter shared by all tables, not from a sequence per table. An insert that fails does not consume an id, which a real PostgreSQL sequence does. The owner links, orderings and uniqueness the model proves do not depend on this difference.
- Transactions, rollback and concurrency are not modelled. Every row is committed on its own, so a failure leaves earlier rows in place.
- MAC addresses are compared as text. PostgreSQL's MACADDR normalisation (case, separators) is not modelled.
- The store checks no column types. The ints the schemas accept (PositiveInt, `conint(ge=0)`, `int`) have no upper bound, and an `Integer` column stores only 32 bits. A `mask`, `port`, `std_*` or `mss` of 2^31 or more therefore raises "integer out of range" at commit. A MAC that passes the unanchored pattern with trailing text (MacFormatIgnoresTail) is refused by the MACADDR column. The model accepts any int and any MAC text, so it does not capture those commit failures:
- Queries.CreateTestBase: does not model the session insert failing on an out-of-range `mask` or a malformed `mac`.
- Handlers.AddProtocolTest: does not model a failure of the session insert. It promises 201 and the session where the code would reply 404 with nothing stored.
- Handlers.AddDnsTest: does not model a failure of the session insert, or of the DNS insert on an out-of-range `std_*`. It promises 201 where the code would reply 404.
- Handlers.AddNdtTest: does not model a failure of the session insert, or of the NDT insert on an out-of-range `mss`. It promises 201 where the code would reply 404.
- Handlers.AddWebTestOoni: does not model a failure of the session insert, or of a TCP insert on an out-of-range `port`. It promises the committed session and the 201/404 split by `dns_consistency` and missing ip/port only.
- Handlers.AddDevicesTests: does not model a failure of the session insert. It promises the committed session where the code would reply 404 with nothing stored.
- Handlers.AddDevicesTestsCorrected: does not model a failure of the session insert or of a device insert on an out-of-range `mask`.
- Handlers.AddDevicesTestsCorrected: the docstring above the endpoint (main.py:79-81) says a session is added only if some device has a known MAC, and a device only if its MAC is known. Neither the code nor this member filters: it stores every device.
- The reference tables (ASNs, networks, vendors) are given at construction and satisfy `ReferenceTablesOk`: ASN ids unique, network owners stored, vendor keys unique. No endpoint writes them.
- Queries.AsnByIpSpec: `.first()` has no ordering, so the model takes the first covering block in table order. The lemma states only what holds for any choice.
- History ties between equal timestamps have no tie-break in the code. The model breaks them by descending session id (ListHistoryNewestIdFirst), one order the SQL permits. The other history lemmas hold for any tie order.
- The `.all()` queries that collect an entry's rows (queries.py:46, 56, 69) have no `order_by`. The model lists each entry's rows in table order, which is one order the database may return. So "in order" in the history rows means table order.
- `GET /asn`'s exception branch (main.py:60-63) is not modelled: the in-memory lookup cannot fail.
- `response_model=List[MacManufOut]` shapes the devices reply. The model returns the vendor answer itself, either a stored row or mac and mask without a manufacturer.

## Findings

| source | as written | input that shows it | evidently intended | confidence | as-written member | corrected member |
|---|---|---|---|---|---|---|
| queries.py:30 | `create_specific_test` spreads every `DevicesTest` schema field into `models.DevicesTest`, including `private_ip` (schemas.py:45), which that table has no column for (models.py:74-82). Every device insert raises after the session is committed, so `POST /tests/devices` with any device answers 404 and leaves an empty session | one device `{mac: "00:11:22:33:44:55", private_ip: "192.168.0.2"}` | store each device row under the session and return one vendor answer per device. The corrected member fixes only the crash. The docstring at main.py:79-81 also asks to skip devices with an unknown MAC, and a session with none known; the code never did this, and the corrected member does not either | not executed | Handlers.AddDevicesTests | Handlers.AddDevicesTestsCorrected |
| schemas.py:78 | `check_resolver_ip` reads the key `ns`, which no DNS field has, so `ns_akamai` never counts as a resolver | a DNS test with only `ns_akamai` present: rejected with "at least one resolver ip" | accept when `dns1_android` or `ns_akamai` is present | not executed | Schemas.DnsResolverOnFields | Schemas.DnsResolverCorrectedOnFields |
