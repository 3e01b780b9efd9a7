/** The emulator's own announcement: five records built from the settings, and what they parse to. */
module Announcement {
  import opened Bytes
  import opened DnsNames
  import opened DnsMessages
  import opened NameCache
  import opened ServicePolicy
  import opened RelayFilter
  import S = Settings

  const FLUSH_IN: u16 := 0x8001
  const LOCAL: bytes := Ascii(".local")
  const PRODUCT: bytes := Ascii("id=E70640 ")
  const MODEL: bytes := Ascii("model=Raymarine YachtSense Link")
  const VERSION: bytes := Ascii("version=")
  const MAC: bytes := Ascii("mac=")

  /** The part of the daemon's configuration an announcement is made from. */
  datatype Identity = Identity(serial: bytes, version: bytes, hostLabel: bytes, inst: bytes, dashboardPort: u16)

  /** As the daemon derives it: a disabled dashboard leaves the port zero. */
  function IdentityOf(c: S.Settings): Identity
    requires S.Valid(c)
  {
    Identity(c.serial, c.version, c.hostname, c.inst, if c.dashboard then c.dashboardPort else 0)
  }

  function InstanceName(id: Identity): bytes {
    id.inst + [DOT] + HTTP
  }

  function HostName(id: Identity): bytes {
    id.hostLabel + LOCAL
  }

  function Port(id: Identity): u16 {
    if id.dashboardPort == 0 then 80 else id.dashboardPort
  }

  function TxtValues(id: Identity, mac: bytes): (values: seq<bytes>)
    ensures |values| == 4
  {
    [PRODUCT + id.serial, MODEL, VERSION + id.version, MAC + Lower(mac)]
  }

  /** Length-prefixed strings; a string over 255 octets is an error. */
  function TxtData(values: seq<bytes>): Option<bytes> {
    if values == [] then Some([])
    else if |values[0]| > 255 then None
    else
      var rest := TxtData(values[1..]);
      if rest.None? then None else Some([|values[0]|] + values[0] + rest.value)
  }

  method BuildTXTData(values: seq<bytes>) returns (r: Option<bytes>)
    ensures r == TxtData(values)
  {
    var out: bytes := [];
    assert values[0..] == values;
    assert TxtData(values).Some? ==> [] + TxtData(values).value == TxtData(values).value;
    for i := 0 to |values|
      invariant TxtData(values) ==
                var rest := TxtData(values[i..]);
                (if rest.None? then None else Some(out + rest.value))
    {
      if |values[i]| > 255 {
        return None;
      }
      assert values[i..][1..] == values[i + 1..];
      var rest := TxtData(values[i + 1..]);
      if rest.Some? {
        assert out + ([|values[i]|] + values[i] + rest.value) == out + [|values[i]|] + values[i] + rest.value;
      }
      out := out + [|values[i]|] + values[i];
    }
    assert values[|values|..] == [] && out + [] == out;
    return Some(out);
  }

  ghost function PointerTo(name: bytes, wire: bytes, target: bytes, targetWire: bytes, ttl: u32): Record {
    Record(Normalize(name), PTR, 1, ttl, Normalize(target), 0, [], targetWire, wire, targetWire)
  }

  /** The wire forms and payloads the five records are made of. */
  datatype Parts = Parts(inst: bytes, host: bytes, service: bytes, browse: bytes, txt: bytes)

  function PartsOf(id: Identity, mac: bytes): Option<Parts> {
    var iw, hw, sw, bw := Encode(InstanceName(id)), Encode(HostName(id)), Encode(HTTP), Encode(BROWSE);
    var txt := TxtData(TxtValues(id, mac));
    if iw.None? || hw.None? || sw.None? || bw.None? || txt.None? then None
    else Some(Parts(iw.value, hw.value, sw.value, bw.value, txt.value))
  }

  /** The five records, as a reader of the announcement sees them. */
  ghost function Five(id: Identity, w: Parts, ip: bytes, ttl: u32): seq<Record> {
    [PointerTo(HTTP, w.service, InstanceName(id), w.inst, ttl),
     Record(Normalize(InstanceName(id)), SRV, FLUSH_IN, ttl, Normalize(HostName(id)), Port(id), [],
            [0, 0, 0, 0] + BE16(Port(id)) + w.host, w.inst, w.host),
     Record(Normalize(InstanceName(id)), TXT, FLUSH_IN, ttl, [], 0, [], w.txt, w.inst, []),
     Record(Normalize(HostName(id)), A, FLUSH_IN, ttl, [], 0, AddressKey(ip), ip, w.host, []),
     PointerTo(BROWSE, w.browse, HTTP, w.service, ttl)]
  }

  lemma EncodedNames(name: bytes)
    requires Encode(name).Some?
    ensures Names(Normalize(name), Encode(name).value) && DisplayOf(Encode(name).value) == Normalize(name)
  {
    EncodedIsNameWire(name);
    ShownInPlace(LabelsOf(Encode(name).value));
  }

  lemma {:induction false} TxtDataOk(values: seq<bytes>)
    ensures var t := TxtData(values); t.Some? ==> TxtOk(t.value) && |t.value| <= 256 * |values|
  {
    var t := TxtData(values);
    if values != [] && t.Some? {
      TxtDataOk(values[1..]);
      var rest := TxtData(values[1..]).value;
      assert t.value[1 + |values[0]|..] == rest;
    }
  }

  lemma FiveOk(id: Identity, mac: bytes, ip: bytes, ttl: u32)
    requires |ip| == 4 && PartsOf(id, mac).Some?
    ensures var five := Five(id, PartsOf(id, mac).value, ip, ttl);
            && (forall i :: 0 <= i < |five| ==> RecordOk(five[i]))
            && UncompressedAll(five) == five
  {
    hide Encode, TxtOk, TxtData, Normalize, AddressKey, InstanceName, HostName, Port, TxtValues, Names, DisplayOf,
         HighByte;
    EncodedNames(InstanceName(id));
    EncodedNames(HostName(id));
    EncodedNames(HTTP);
    EncodedNames(BROWSE);
    TxtDataOk(TxtValues(id, mac));
    var w := PartsOf(id, mac).value;
    NameSizes(Normalize(HTTP), w.service);
    NameSizes(Normalize(HostName(id)), w.host);
    NameSizes(Normalize(InstanceName(id)), w.inst);
    SrvData(Port(id), w.host);
    var five := Five(id, w, ip, ttl);
    forall i | 0 <= i < |five|
      ensures RecordOk(five[i]) && Uncompressed(five[i]) == five[i]
    {}
  }

  lemma NameSizes(name: bytes, wire: bytes)
    requires Names(name, wire)
    ensures 1 <= |wire| <= MAX_WIRE
  {}

  lemma SrvData(port: u16, wire: bytes)
    ensures var d := [0, 0, 0, 0] + BE16(port) + wire;
            U16At(d, 4) == port && d[..6] + wire == d
  {
    hide HighByte;
    var d := [0, 0, 0, 0] + BE16(port) + wire;
    assert d[4] == BE16(port)[0] && d[5] == BE16(port)[1];
  }

  /** What an announcement is: an error, or the five records printed after a response header. */
  ghost function Announced(id: Identity, mac: bytes, ip: bytes, ttl: u32): Option<bytes> {
    if |ip| != 4 || PartsOf(id, mac).None? then None
    else
      FiveOk(id, mac, ip, ttl);
      Some(PrintedMessage(0, RESPONSE_FLAGS, [], Five(id, PartsOf(id, mac).value, ip, ttl)))
  }

  datatype Item = Item(name: bytes, typ: u16, cls: u16, data: bytes)

  /** The records as the source lists them: each name is encoded again when it is appended. */
  function Items(id: Identity, w: Parts, ip: bytes): seq<Item> {
    [Item(HTTP, PTR, 1, w.inst),
     Item(InstanceName(id), SRV, FLUSH_IN, [0, 0, 0, 0] + BE16(Port(id)) + w.host),
     Item(InstanceName(id), TXT, FLUSH_IN, w.txt),
     Item(HostName(id), A, FLUSH_IN, ip),
     Item(BROWSE, PTR, 1, w.service)]
  }

  lemma ItemData(id: Identity, mac: bytes, ip: bytes, ttl: u32, i: nat)
    requires |ip| == 4 && PartsOf(id, mac).Some? && i < 5
    ensures var w := PartsOf(id, mac).value;
            var it, r := Items(id, w, ip)[i], Five(id, w, ip, ttl)[i];
            && (r.typ == SRV ==> |r.data| >= 6)
            && it.typ == r.typ && it.cls == r.cls && r.ttl == ttl && it.data == EmitData(r)
            && Encode(it.name) == Some(r.wire)
  {
    hide Encode, TxtData, Normalize, AddressKey, InstanceName, HostName, TxtValues, HighByte, U16At;
    var w := PartsOf(id, mac).value;
    SrvData(Port(id), w.host);
  }

  lemma ItemBytes(id: Identity, mac: bytes, ip: bytes, ttl: u32, i: nat)
    requires |ip| == 4 && PartsOf(id, mac).Some? && i < 5
    ensures var w := PartsOf(id, mac).value;
            var it, r := Items(id, w, ip)[i], Five(id, w, ip, ttl)[i];
            && RecordOk(r)
            && Encode(it.name) == Some(r.wire)
            && |it.data| < 0x1_0000
            && RRBytes(r.wire, it.typ, it.cls, ttl, it.data) == RecordBytes(r)
  {
    FiveOk(id, mac, ip, ttl);
    ItemData(id, mac, ip, ttl, i);
    ItemFits(Five(id, PartsOf(id, mac).value, ip, ttl)[i]);
    hide RRBytes, Five, Items, Encode, PartsOf, EmitData, RecordOk;
  }

  lemma ItemFits(r: Record)
    requires RecordOk(r)
    ensures |EmitData(r)| < 0x1_0000
  {
    hide Shown, TxtOk;
  }

  lemma RecordsBytesPrefix(rs: seq<Record>, i: nat)
    requires i < |rs| && forall k :: 0 <= k < |rs| ==> RecordOk(rs[k])
    ensures RecordsBytes(rs[..i + 1]) == RecordsBytes(rs[..i]) + RecordBytes(rs[i])
  {
    hide RecordOk, RecordBytes, RecordsBytes;
    RecordsBytesSnoc(rs[..i], rs[i]);
    assert rs[..i] + [rs[i]] == rs[..i + 1];
  }

  /** `it`, appended with `ttl`, is the record `r`. */
  ghost predicate Matches(it: Item, r: Record, ttl: u32) {
    && RecordOk(r)
    && Encode(it.name) == Some(r.wire)
    && |it.data| < 0x1_0000
    && RRBytes(r.wire, it.typ, it.cls, ttl, it.data) == RecordBytes(r)
  }

  method AppendItems(items: seq<Item>, ttl: u32, ghost rs: seq<Record>) returns (p: bytes)
    requires |items| == |rs| <= MAX_ENTRIES
    requires forall i :: 0 <= i < |rs| ==> Matches(items[i], rs[i], ttl)
    ensures forall i :: 0 <= i < |rs| ==> RecordOk(rs[i])
    ensures p == PrintedMessage(0, RESPONSE_FLAGS, [], rs)
  {
    hide Encode, RecordOk, RecordBytes, RecordsBytes, Header, RRBytes;
    p := Header(0, RESPONSE_FLAGS, 0, |items|);
    NoRecordsBytes();
    assert rs[..0] == [];
    for i := 0 to |items|
      invariant p == Header(0, RESPONSE_FLAGS, 0, |items|) + RecordsBytes(rs[..i])
    {
      var wire := EncodeDNSName(items[i].name);
      assert Matches(items[i], rs[i], ttl);
      RecordsBytesPrefix(rs, i);
      p := p + RRBytes(wire.value, items[i].typ, items[i].cls, ttl, items[i].data);
    }
    assert rs[..|items|] == rs;
    assert Header(0, RESPONSE_FLAGS, 0, |items|) + [] + RecordsBytes(rs)
        == Header(0, RESPONSE_FLAGS, 0, |items|) + RecordsBytes(rs);
  }

  method BuildAnnouncement(id: Identity, mac: bytes, ip: bytes, ttl: u32) returns (r: Option<bytes>)
    ensures r == Announced(id, mac, ip, ttl)
  {
    hide Encode, TxtData, InstanceName, HostName, Items, PrintedMessage, Five, RecordOk, RRBytes, RecordBytes;
    if |ip| != 4 {
      return None;
    }
    var iw := EncodeDNSName(InstanceName(id));
    var hw := EncodeDNSName(HostName(id));
    var sw := EncodeDNSName(HTTP);
    var bw := EncodeDNSName(BROWSE);
    var txt := BuildTXTData(TxtValues(id, mac));
    if iw.None? || hw.None? || sw.None? || bw.None? || txt.None? {
      return None;
    }
    var w := Parts(iw.value, hw.value, sw.value, bw.value, txt.value);
    assert PartsOf(id, mac) == Some(w);
    FiveLength(id, w, ip, ttl);
    forall i | 0 <= i < 5
      ensures Matches(Items(id, w, ip)[i], Five(id, w, ip, ttl)[i], ttl)
    {
      ItemBytes(id, mac, ip, ttl, i);
    }
    var p := AppendItems(Items(id, w, ip), ttl, Five(id, w, ip, ttl));
    return Some(p);
  }

  lemma FiveLength(id: Identity, w: Parts, ip: bytes, ttl: u32)
    ensures |Five(id, w, ip, ttl)| == 5 && |Items(id, w, ip)| == 5
  {}

  // ----- what validated settings announce ---------------------------------------------------

  lemma EncodeUnder(l: bytes, s: bytes)
    requires LabelOk(l) && DOT !in l && s != [] && !EndsWithDot(s) && Encode(s).Some?
    requires |l| + 1 + |Encode(s).value| <= MAX_WIRE
    ensures Encode(l + [DOT] + s) == Some([|l|] + l + Encode(s).value)
  {
    var name := l + [DOT] + s;
    assert name[|name| - 1] == s[|s| - 1];
    assert TrimDot(name) == name && TrimDot(s) == s;
    SplitAfterPiece(l, s);
    var ls := Split(s);
    assert WireOf([l] + ls) == [|l|] + l + WireOf(ls) by {
      assert ([l] + ls)[1..] == ls;
    }
  }

  lemma EncodeLabel(l: bytes)
    requires LabelOk(l) && DOT !in l
    ensures Encode(l) == Some([|l|] + l + [0])
  {
    assert l[|l| - 1] in l;
    assert TrimDot(l) == l;
    SplitPiece(l);
    assert WireBody([l][1..]) == [];
    assert WireOf([l]) == [|l|] + l + [0];
  }

  const LOCAL_LABEL: bytes := Ascii("local")
  const TCP_LABEL: bytes := Ascii("_tcp")
  const HTTP_LABEL: bytes := Ascii("_http")
  const UDP_LABEL: bytes := Ascii("_udp")
  const DNS_SD_LABEL: bytes := Ascii("_dns-sd")
  const SERVICES_LABEL: bytes := Ascii("_services")

  lemma FixedLabels()
    ensures forall l :: l in {LOCAL_LABEL, TCP_LABEL, HTTP_LABEL, UDP_LABEL, DNS_SD_LABEL, SERVICES_LABEL} ==>
                          LabelOk(l) && DOT !in l
  {}

  lemma FixedNames()
    ensures HTTP == HTTP_LABEL + [DOT] + (TCP_LABEL + [DOT] + LOCAL_LABEL)
    ensures BROWSE == SERVICES_LABEL + [DOT] + (DNS_SD_LABEL + [DOT] + (UDP_LABEL + [DOT] + LOCAL_LABEL))
    ensures LOCAL == [DOT] + LOCAL_LABEL
  {}

  lemma FixedSizes()
    ensures |LOCAL_LABEL| == 5 && |TCP_LABEL| == 4 && |HTTP_LABEL| == 5 && |UDP_LABEL| == 4 && |DNS_SD_LABEL| == 7
    ensures |SERVICES_LABEL| == 9 && !EndsWithDot(LOCAL_LABEL)
  {}

  lemma ServicesEncode()
    ensures Encode(LOCAL_LABEL).Some? && |Encode(LOCAL_LABEL).value| == 7
    ensures Encode(HTTP).Some? && |Encode(HTTP).value| == 18
    ensures Encode(BROWSE).Some?
  {
    FixedLabels();
    FixedNames();
    FixedSizes();
    hide LOCAL_LABEL, TCP_LABEL, HTTP_LABEL, UDP_LABEL, DNS_SD_LABEL, SERVICES_LABEL, HTTP, BROWSE, Encode;
    EncodeLabel(LOCAL_LABEL);
    var tcp, udp := TCP_LABEL + [DOT] + LOCAL_LABEL, UDP_LABEL + [DOT] + LOCAL_LABEL;
    EncodeUnder(TCP_LABEL, LOCAL_LABEL);
    EncodeUnder(HTTP_LABEL, tcp);
    EncodeUnder(UDP_LABEL, LOCAL_LABEL);
    EncodeUnder(DNS_SD_LABEL, udp);
    EncodeUnder(SERVICES_LABEL, DNS_SD_LABEL + [DOT] + udp);
  }

  /** A validated identity: one label each for host and instance, short texts. */
  ghost predicate Announceable(id: Identity) {
    && |id.serial| <= 32 && |id.version| <= 64
    && 1 <= |id.inst| <= 63 && DOT !in id.inst
    && S.HostLabel(id.hostLabel)
  }

  lemma ValidIsAnnounceable(c: S.Settings)
    requires S.Valid(c)
    ensures Announceable(IdentityOf(c))
  {
    hide S.Fields, S.Cidr, S.UnicastV4, S.CleanSerial, S.SafeInterface, S.HostLabel;
  }

  lemma PartsExist(id: Identity, mac: bytes)
    requires Announceable(id) && |mac| <= 251
    ensures PartsOf(id, mac).Some?
  {
    ServicesEncode();
    FixedNames();
    FixedSizes();
    assert LabelOk(id.hostLabel) && DOT !in id.hostLabel;
    assert HostName(id) == id.hostLabel + [DOT] + LOCAL_LABEL;
    assert !EndsWithDot(HTTP) && HTTP != [];
    TextSizes(id, mac);
    TxtFits(TxtValues(id, mac));
    hide LOCAL_LABEL, HTTP, BROWSE, Encode, TxtData, TxtValues, S.HostLabel;
    EncodeUnder(id.hostLabel, LOCAL_LABEL);
    EncodeUnder(id.inst, HTTP);
  }

  lemma TextSizes(id: Identity, mac: bytes)
    requires |id.serial| <= 32 && |id.version| <= 64 && |mac| <= 251
    ensures forall v :: v in TxtValues(id, mac) ==> |v| <= 255
  {}

  lemma {:induction false} TxtFits(values: seq<bytes>)
    requires forall v :: v in values ==> |v| <= 255
    ensures TxtData(values).Some?
  {
    if values != [] {
      TxtFits(values[1..]);
    }
  }

  lemma AnnouncedParses(id: Identity, mac: bytes, ip: bytes, ttl: u32)
    requires |ip| == 4 && PartsOf(id, mac).Some?
    ensures Announced(id, mac, ip, ttl).Some?
    ensures Parse(Announced(id, mac, ip, ttl).value)
         == Some(Message(0, RESPONSE_FLAGS, [], Five(id, PartsOf(id, mac).value, ip, ttl)))
  {
    hide PartsOf, ReadMessage, FlagsSupported, RecordOk, Header, RecordsBytes, UncompressedAll;
    var w := PartsOf(id, mac).value;
    FiveOk(id, mac, ip, ttl);
    FivePort(id, w, ip, ttl);
    hide Five;
    ReplyFlagsSupported();
    PrintedMessageReads(0, RESPONSE_FLAGS, [], Five(id, w, ip, ttl));
  }

  lemma PortOf(c: S.Settings)
    requires S.Valid(c)
    ensures Port(IdentityOf(c)) == if c.dashboard then c.dashboardPort else 80
  {
    hide S.Fields, S.Cidr, S.UnicastV4, S.CleanSerial, S.SafeInterface, S.HostLabel, S.Printable;
  }

  /**
   * Every valid record announces: building succeeds for any MAC text of at most 251 octets, and the packet
   * parses to exactly the five records, with the service port of the dashboard, or 80 without one.
   */
  lemma AnnouncementParses(c: S.Settings, mac: bytes, ip: bytes, ttl: u32)
    requires S.Valid(c) && |mac| <= 251 && |ip| == 4
    ensures PartsOf(IdentityOf(c), mac).Some? && Announced(IdentityOf(c), mac, ip, ttl).Some?
    ensures var five := Five(IdentityOf(c), PartsOf(IdentityOf(c), mac).value, ip, ttl);
            && |five| == 5 && five[1].typ == SRV && five[1].port == (if c.dashboard then c.dashboardPort else 80)
            && Parse(Announced(IdentityOf(c), mac, ip, ttl).value) == Some(Message(0, RESPONSE_FLAGS, [], five))
  {
    PortOf(c);
    ValidIsAnnounceable(c);
    hide S.Valid, PartsOf, Parse, Announced, Port, Announceable;
    PartsExist(IdentityOf(c), mac);
    FivePort(IdentityOf(c), PartsOf(IdentityOf(c), mac).value, ip, ttl);
    hide Five;
    AnnouncedParses(IdentityOf(c), mac, ip, ttl);
  }

  lemma {:induction false} TextIs(values: seq<bytes>)
    ensures TxtData(values) ==
            if (forall i :: 0 <= i < |values| ==> |values[i]| <= 255) then Some(Prefixed(values)) else None
  {
    if values != [] {
      TextIs(values[1..]);
      assert (forall i :: 0 <= i < |values| ==> |values[i]| <= 255) <==>
             |values[0]| <= 255 && forall i :: 0 <= i < |values[1..]| ==> |values[1..][i]| <= 255;
    }
  }

  /** There is an announcement exactly for an IPv4 address, names that encode, and texts of at most 255 octets. */
  lemma AnnouncedIff(id: Identity, mac: bytes, ip: bytes, ttl: u32)
    ensures Announced(id, mac, ip, ttl).Some? <==>
            && |ip| == 4
            && Encode(id.inst + [46] + Ascii("_http._tcp.local")).Some? && Encode(id.hostLabel + Ascii(".local")).Some?
            && |id.serial| <= 245 && |id.version| <= 247 && |mac| <= 251
  {
    AnnouncedHas(id, mac, ip, ttl);
    TextIs(TxtValues(id, mac));
    TextsFit(id, mac);
    ServicesEncode();
    FixedEnds();
    assert LOCAL == Ascii(".local");
    hide Announced, Encode, TxtValues, TxtData, Prefixed, HTTP, BROWSE, LOCAL;
  }

  lemma AnnouncedHas(id: Identity, mac: bytes, ip: bytes, ttl: u32)
    ensures Announced(id, mac, ip, ttl).Some? <==> |ip| == 4 && PartsOf(id, mac).Some?
  {
    hide PartsOf, PrintedMessage, Five;
  }

  lemma TextsFit(id: Identity, mac: bytes)
    ensures (forall i :: 0 <= i < |TxtValues(id, mac)| ==> |TxtValues(id, mac)[i]| <= 255) <==>
            |id.serial| <= 245 && |id.version| <= 247 && |mac| <= 251
  {
    var values := TxtValues(id, mac);
    TextStarts();
    hide PRODUCT, MODEL, VERSION, MAC;
    assert |values[0]| == 10 + |id.serial| && |values[1]| == 31;
    assert |values[2]| == 8 + |id.version| && |values[3]| == 4 + |mac|;
  }

  lemma TextStarts()
    ensures |PRODUCT| == 10 && |VERSION| == 8 && |MAC| == 4 && |MODEL| == 31
  {}

  lemma LocalNames(l: bytes)
    ensures Normalize(l + Ascii(".local")) == Lower(l + Ascii(".local"))
    ensures Normalize(l + [46] + Ascii("_http._tcp.local")) == Lower(l + [46] + Ascii("_http._tcp.local"))
  {
    assert Ascii(".local")[5] == 108 && Ascii("_http._tcp.local")[15] == 108;
  }

  /** Five records: a service `page` on `host` at `ip`, with its pointer, text, address and enumeration. */
  ghost predicate Says(rs: seq<Record>, http: bytes, browse: bytes, page: bytes, host: bytes, port: int,
                       texts: seq<bytes>, ip: bytes, ttl: u32)
  {
    && |rs| == 5 && (forall i :: 0 <= i < 5 ==> rs[i].ttl == ttl)
    && rs[0].typ == 12 && rs[0].cls == 1 && rs[0].name == http && rs[0].target == page
    && rs[1].typ == 33 && rs[1].cls == 0x8001 && rs[1].name == page && rs[1].target == host && rs[1].port == port
    && rs[2].typ == 16 && rs[2].cls == 0x8001 && rs[2].name == page && DnsMessages.Spells(texts, rs[2].data)
    && rs[3].typ == 1 && rs[3].cls == 0x8001 && rs[3].name == host && rs[3].data == ip
    && rs[4].typ == 12 && rs[4].cls == 1 && rs[4].name == browse && rs[4].target == http
  }

  lemma FiveSay(id: Identity, mac: bytes, ip: bytes, ttl: u32)
    requires PartsOf(id, mac).Some?
    ensures Says(Five(id, PartsOf(id, mac).value, ip, ttl), Normalize(HTTP), Normalize(BROWSE),
                 Normalize(InstanceName(id)), Normalize(HostName(id)), Port(id), TxtValues(id, mac), ip, ttl)
  {
    hide Encode, Normalize, HTTP, BROWSE, InstanceName, HostName, Port, TxtValues, AddressKey, BE16, Prefixed;
    TextIs(TxtValues(id, mac));
  }

  /** The texts of the announcement. */
  function TextsSaid(c: S.Settings, mac: bytes): seq<bytes> {
    [Ascii("id=E70640 ") + c.serial, Ascii("model=Raymarine YachtSense Link"), Ascii("version=") + c.version,
     Ascii("mac=") + Lower(mac)]
  }

  ghost predicate SaysSettings(rs: seq<Record>, c: S.Settings, mac: bytes, ip: bytes, ttl: u32) {
    Says(rs, Ascii("_http._tcp.local"), Ascii("_services._dns-sd._udp.local"),
         Lower(c.inst + [46] + Ascii("_http._tcp.local")), Lower(c.hostname + Ascii(".local")),
         if c.dashboard then c.dashboardPort else 80, TextsSaid(c, mac), ip, ttl)
  }

  /**
   * What a reader of the announcement learns: the web page of the instance, on the host named in the settings, at the
   * announcing address and the dashboard's port, with the product, model, version and hardware address as its text.
   */
  lemma AnnouncementSays(c: S.Settings, mac: bytes, ip: bytes, ttl: u32)
    requires S.Valid(c) && |mac| <= 251 && |ip| == 4
    ensures var packet := Announced(IdentityOf(c), mac, ip, ttl);
      && packet.Some? && Parse(packet.value).Some? && Parse(packet.value).value.questions == []
      && SaysSettings(Parse(packet.value).value.records, c, mac, ip, ttl)
  {
    AnnouncementParses(c, mac, ip, ttl);
    PortOf(c);
    SettingsNames(c, mac);
    hide S.Valid, Parse, Announced, PartsOf, Five, Says, TextsSaid, TxtValues, Port, Lower, InstanceName, HostName;
    FiveSay(IdentityOf(c), mac, ip, ttl);
  }

  lemma SettingsNames(c: S.Settings, mac: bytes)
    requires S.Valid(c)
    ensures var id := IdentityOf(c);
      && Normalize(HTTP) == Ascii("_http._tcp.local") && Normalize(BROWSE) == Ascii("_services._dns-sd._udp.local")
      && Normalize(InstanceName(id)) == Lower(c.inst + [46] + Ascii("_http._tcp.local"))
      && Normalize(HostName(id)) == Lower(c.hostname + Ascii(".local"))
      && TxtValues(id, mac) == TextsSaid(c, mac)
  {
    hide S.Valid, Lower;
    LocalNames(c.inst);
    LocalNames(c.hostname);
    AlreadyLower();
    FixedEnds();
  }

  lemma FixedEnds()
    ensures !EndsWithDot(HTTP) && !EndsWithDot(BROWSE)
    ensures HTTP == Ascii("_http._tcp.local") && BROWSE == Ascii("_services._dns-sd._udp.local")
  {}

  lemma FivePort(id: Identity, w: Parts, ip: bytes, ttl: u32)
    ensures |Five(id, w, ip, ttl)| == 5
    ensures Five(id, w, ip, ttl)[1].typ == SRV && Five(id, w, ip, ttl)[1].port == Port(id)
  {}

  /** Records with another TTL. */
  function WithTtl(rs: seq<Record>, ttl: u32): (ts: seq<Record>)
    ensures |ts| == |rs| && forall i :: 0 <= i < |rs| ==> ts[i] == rs[i].(ttl := ttl)
  {
    seq(|rs|, i requires 0 <= i < |rs| => rs[i].(ttl := ttl))
  }

  /**
   * The two packets as built: the goodbye exists exactly when the announcement does, and parses to its records
   * with the TTLs zero and nothing else changed.
   */
  lemma GoodbyeDiffersInTtl(id: Identity, mac: bytes, ip: bytes, ttl: u32)
    ensures var goodbye, announcement := Announced(id, mac, ip, 0), Announced(id, mac, ip, ttl);
      && (goodbye.Some? <==> announcement.Some?)
      && (announcement.Some? ==>
            && Parse(announcement.value).Some? && Parse(goodbye.value).Some?
            && var m := Parse(announcement.value).value;
               Parse(goodbye.value).value == m.(records := WithTtl(m.records, 0))
               && forall i :: 0 <= i < |m.records| ==> m.records[i].ttl == ttl)
  {
    hide Parse, PartsOf, PrintedMessage, RecordOk, HostName, InstanceName;
    if |ip| == 4 && PartsOf(id, mac).Some? {
      AnnouncedParses(id, mac, ip, 0);
      AnnouncedParses(id, mac, ip, ttl);
      var w := PartsOf(id, mac).value;
      FiveLength(id, w, ip, ttl);
      FiveLength(id, w, ip, 0);
      assert Five(id, w, ip, 0) == WithTtl(Five(id, w, ip, ttl), 0);
    }
  }

  lemma OwnNamesDiffer(id: Identity)
    requires Announceable(id)
    ensures Normalize(HTTP) == HTTP && Normalize(BROWSE) == BROWSE && HTTP != BROWSE
    ensures Normalize(HostName(id)) !in {[], BROWSE}
    ensures Normalize(InstanceName(id)) !in {[], BROWSE, HTTP}
  {
    var h, n := HostName(id), InstanceName(id);
    assert |HTTP| == 16 && |BROWSE| == 28;
    assert !EndsWithDot(HTTP) && !EndsWithDot(BROWSE);
    assert h[|h| - 1] == LOCAL[5] && h[0] == id.hostLabel[0];
    assert n[|n| - 1] == HTTP[15] && n[|n| - 9] == HTTP[7];
    assert BROWSE[0] == 95 && BROWSE[19] == 117 && HTTP[7] == 116 && HTTP[15] == 108 && LOCAL[5] == 108;
    assert Lower(HTTP) == HTTP && Lower(BROWSE) == BROWSE by {
      AlreadyLower();
    }
    assert Normalize(h)[0] == LowerByte(id.hostLabel[0]);
    assert |Normalize(n)| == |n| >= 18 && Normalize(n)[|n| - 9] == 116;
  }

  lemma AlreadyLower()
    ensures Lower(HTTP) == HTTP && Lower(BROWSE) == BROWSE
  {
    assert forall i :: 0 <= i < |HTTP| ==> LowerByte(HTTP[i]) == HTTP[i];
    assert forall i :: 0 <= i < |BROWSE| ==> LowerByte(BROWSE[i]) == BROWSE[i];
  }

  lemma FiveHeads(id: Identity, w: Parts, ip: bytes, ttl: u32)
    ensures var five := Five(id, w, ip, ttl);
            && |five| == 5 && (forall i :: 0 <= i < 5 ==> Internet(five[i]))
            && five[0].target == Normalize(InstanceName(id)) && five[1].name == Normalize(InstanceName(id))
            && five[2].name == Normalize(InstanceName(id)) && five[3].name == Normalize(HostName(id))
            && five[4].typ == PTR && five[4].name == Normalize(BROWSE) && five[4].target == Normalize(HTTP)
  {
    hide Normalize, InstanceName, HostName, HTTP, BROWSE, HighByte;
    assert PlainClass(1) == 1 && PlainClass(FLUSH_IN) == 1;
  }

  lemma OwnRecordsSuppressed(id: Identity, w: Parts, ip: bytes, ttl: u32)
    requires Announceable(id)
    ensures var own := Own(Normalize(HostName(id)), Normalize(InstanceName(id)));
            var five := Five(id, w, ip, ttl);
            && |five| == 5
            && Suppressed(five[0], own) && Suppressed(five[1], own)
            && Suppressed(five[2], own) && Suppressed(five[3], own)
            && five[4].typ == PTR && five[4].name == BROWSE && PermittedPointer(five[4]) && !Suppressed(five[4], own)
  {
    OwnNamesDiffer(id);
    FiveHeads(id, w, ip, ttl);
    hide Five, HTTP, BROWSE, HostName, InstanceName, Normalize, Announceable, RelevantHttp, Internet;
  }

  /** Filtering the emulator's own announcement leaves exactly the service-enumeration pointer. */
  lemma OwnAnnouncementNotRelayed(id: Identity, w: Parts, ip: bytes, ttl: u32, s: State, env: Environment)
    requires Announceable(id)
    ensures var own := Own(Normalize(HostName(id)), Normalize(InstanceName(id)));
            var five := Five(id, w, ip, ttl);
            |five| == 5 && Kept(s, five, 5, own, env) == [five[4]] && five[4].name == BROWSE
  {
    OwnRecordsSuppressed(id, w, ip, ttl);
    FivePort(id, w, ip, ttl);
    hide Five, HostName, InstanceName, Normalize, Announceable, PermittedPointer, Suppressed, Knows, AllowedInstance,
         BROWSE;
    var own := Own(Normalize(HostName(id)), Normalize(InstanceName(id)));
    var five := Five(id, w, ip, ttl);
    assert Kept(s, five, 1, own, env) == [];
    assert Kept(s, five, 2, own, env) == [];
    assert Kept(s, five, 3, own, env) == [];
    assert Kept(s, five, 4, own, env) == [];
  }
}
