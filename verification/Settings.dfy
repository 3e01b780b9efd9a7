/** The typed settings record: validation, reading it from UCI values, and writing it back. */
module Settings {
  import opened Bytes
  import opened UciWords
  import opened UciConfig
  import DnsNames

  datatype Settings = Settings(
    enabled: bool, mdns: bool, http: bool, manageIP: bool, removeIP: bool, dashboard: bool, dashboardAllowAll: bool,
    raynetMode: bytes, appMode: bytes, axiomInterface: bytes, discoveryMode: bytes, ip: bytes, serial: bytes,
    version: bytes, hostname: bytes, inst: bytes, logLevel: bytes, dashboardCIDRs: bytes,
    prefix: int, ttl: int, healthPort: int, logLines: int, dashboardPort: int,
    remoteInterfaces: seq<bytes>)

  const DEFAULTS: Settings := Settings(
    false, true, true, false, false, true, true,
    Ascii("auto"), Ascii("auto"), Ascii("br-lan"), Ascii("auto"), Ascii("198.18.0.1"), Ascii("AF002A4"),
    Ascii("V142.242.530"), Ascii("yachtsense-main"), Ascii("yachtsense-main Settings"), Ascii("info"),
    Ascii("192.168.4.0/24"),
    21, 120, 7777, 40, 8088,
    [Ascii("br-lan")])

  // ----- text forms -------------------------------------------------------------------------

  predicate Digit(ch: byte) {
    48 <= ch <= 57
  }

  predicate AllDigits(s: bytes) {
    s != [] && forall i :: 0 <= i < |s| ==> Digit(s[i])
  }

  function Itoa(n: nat): (s: bytes)
    ensures AllDigits(s)
  {
    if n < 10 then [48 + n] else Itoa(n / 10) + [48 + n % 10]
  }

  function Decimal(n: int): bytes {
    if n < 0 then [45] + Itoa(-n) else Itoa(n)
  }

  function DigitValue(ch: byte): (v: nat)
    requires Digit(ch)
    ensures v < 10 && 48 + v == ch
  {
    ch - 48
  }

  function Number(s: bytes): nat
    requires AllDigits(s)
  {
    var last := DigitValue(s[|s| - 1]);
    if |s| == 1 then last
    else
      var before: nat := Number(s[..|s| - 1]);
      10 * before + last
  }

  /** Decimal with an optional sign, within the 32-bit integers of the target. */
  function Atoi(s: bytes): Option<int> {
    var negative := s != [] && s[0] == 45;
    var t := if s != [] && (s[0] == 45 || s[0] == 43) then s[1..] else s;
    if !AllDigits(t) then None
    else
      var n: int := Number(t);
      var v := if negative then -n else n;
      if -0x8000_0000 <= v < 0x8000_0000 then Some(v) else None
  }

  function BoolText(b: bool): bytes {
    if b then [49] else [48]
  }

  function AsBool(s: bytes): Option<bool> {
    var l := Lower(s);
    if l in {[49], Ascii("on"), Ascii("yes"), Ascii("true"), Ascii("enabled")} then Some(true)
    else if l in {[48], Ascii("off"), Ascii("no"), Ascii("false"), Ascii("disabled")} then Some(false)
    else None
  }

  // ----- validation -------------------------------------------------------------------------

  predicate Alphanumeric(ch: byte) {
    97 <= ch <= 122 || 65 <= ch <= 90 || 48 <= ch <= 57
  }

  predicate SafeInterface(n: bytes) {
    && 1 <= |n| <= 15 && n != Ascii("lo")
    && forall i :: 0 <= i < |n| ==> Alphanumeric(n[i]) || n[i] in {95, 46, 58, 45}
  }

  predicate Printable(s: bytes, max: nat) {
    1 <= |s| <= max && forall i :: 0 <= i < |s| ==> 32 <= s[i] != 127
  }

  function SerialCharacters(s: bytes): bytes {
    if s == [] then []
    else (if Alphanumeric(s[0]) || s[0] == 45 || s[0] == 95 then [s[0]] else []) + SerialCharacters(s[1..])
  }

  function CleanSerial(s: bytes): bytes {
    var v := SerialCharacters(s);
    var w := if v == [] then Ascii("AF002A4") else v;
    if |w| > 32 then w[..32] else w
  }

  /** One field of a dotted quad: up to three digits, no leading zero, at most 255. */
  predicate Octet(s: bytes) {
    AllDigits(s) && |s| <= 3 && (|s| > 1 ==> s[0] != 48) && Number(s) <= 255
  }

  predicate DottedQuad(s: bytes) {
    var f := DnsNames.Split(s);
    |f| == 4 && forall i :: 0 <= i < 4 ==> Octet(f[i])
  }

  predicate UnicastV4(s: bytes) {
    && DottedQuad(s)
    && s != Ascii("0.0.0.0") && s != Ascii("255.255.255.255")
    && var first := Number(DnsNames.Split(s)[0]); (first != 127 && !(224 <= first <= 239))
  }

  /** Length digits of a prefix: 0 to 32 with no leading zero. */
  predicate PrefixLength(s: bytes) {
    AllDigits(s) && |s| <= 2 && (|s| > 1 ==> s[0] != 48) && Number(s) <= 32
  }

  predicate Cidr(s: bytes) {
    exists i :: 0 <= i < |s| && s[i] == 47 && DottedQuad(s[..i]) && PrefixLength(s[i + 1..])
  }

  predicate Separator(ch: byte) {
    ch == 44 || ch == 32 || 9 <= ch <= 13
  }

  /** The non-empty runs between separators; `word` is the run being read. */
  function Fields(s: bytes, word: bytes): seq<bytes> {
    if s == [] then if word == [] then [] else [word]
    else if Separator(s[0]) then (if word == [] then [] else [word]) + Fields(s[1..], [])
    else Fields(s[1..], word + [s[0]])
  }

  predicate HostLabel(s: bytes) {
    && 1 <= |s| <= 63 && s[0] != 45 && s[|s| - 1] != 45
    && forall i :: 0 <= i < |s| ==> Alphanumeric(s[i]) || s[i] == 45
  }

  predicate Valid(c: Settings) {
    && 1024 <= c.dashboardPort <= 65535 && c.dashboardPort != c.healthPort
    && |c.dashboardCIDRs| <= 1024
    && (forall f :: f in Fields(c.dashboardCIDRs, []) ==> Cidr(f))
    && c.raynetMode in {Ascii("auto"), Ascii("manual")}
    && c.appMode in {Ascii("auto"), Ascii("manual")}
    && c.discoveryMode in {Ascii("auto"), Ascii("builtin"), Ascii("avahi"), Ascii("disabled")}
    && UnicastV4(c.ip)
    && 0 <= c.prefix <= 32 && 1 <= c.healthPort <= 65535 && 1 <= c.ttl <= 86400 && 5 <= c.logLines <= 200
    && (c.raynetMode == Ascii("manual") ==> SafeInterface(c.axiomInterface))
    && |c.remoteInterfaces| <= 16
    && (c.appMode == Ascii("manual") ==> c.remoteInterfaces != [])
    && (forall n :: n in c.remoteInterfaces ==> SafeInterface(n))
    && Printable(c.serial, 32) && c.serial == CleanSerial(c.serial)
    && Printable(c.version, 64) && Printable(c.inst, 63) && DOT !in c.inst
    && HostLabel(c.hostname)
    && c.logLevel in {Ascii("info"), Ascii("debug")}
    && (c.manageIP ==> c.raynetMode == Ascii("manual"))
  }

  // ----- keys -------------------------------------------------------------------------------

  const ENABLED: bytes := Ascii("enabled")
  const MDNS: bytes := Ascii("mdns_enabled")
  const WEB: bytes := Ascii("web_enabled")
  const MANAGE_IP: bytes := Ascii("manage_ip")
  const REMOVE_IP: bytes := Ascii("remove_ip_on_stop")
  const DASHBOARD: bytes := Ascii("dashboard_enabled")
  const ALLOW_ALL: bytes := Ascii("dashboard_allow_all")
  const RAYNET_MODE: bytes := Ascii("raynet_mode")
  const APP_MODE: bytes := Ascii("app_mode")
  const AXIOM: bytes := Ascii("axiom_interface")
  const DISCOVERY: bytes := Ascii("discovery_mode")
  const IPADDR: bytes := Ascii("ipaddr")
  const SERIAL: bytes := Ascii("serial")
  const VERSION: bytes := Ascii("version")
  const HOSTNAME: bytes := Ascii("hostname")
  const INSTANCE: bytes := Ascii("instance")
  const LOG_LEVEL: bytes := Ascii("log_level")
  const CIDRS: bytes := Ascii("dashboard_allowed_cidrs")
  const PREFIX: bytes := Ascii("prefix")
  const TTL: bytes := Ascii("ttl")
  const HEALTH_PORT: bytes := Ascii("health_port")
  const LOG_LINES: bytes := Ascii("log_lines")
  const DASHBOARD_PORT: bytes := Ascii("dashboard_port")
  const REMOTE: bytes := Ascii("remote_interface")
  const RELAY_MODE: bytes := Ascii("relay_mode")

  const KEYS: seq<bytes> := [
    ENABLED, MDNS, WEB, MANAGE_IP, REMOVE_IP, DASHBOARD, ALLOW_ALL,
    RAYNET_MODE, APP_MODE, AXIOM, DISCOVERY, IPADDR, SERIAL, VERSION, HOSTNAME, INSTANCE, LOG_LEVEL, CIDRS,
    PREFIX, TTL, HEALTH_PORT, LOG_LINES, DASHBOARD_PORT]

  // ----- reading ----------------------------------------------------------------------------

  function Get(v: Values, k: bytes): Option<bytes> {
    if k !in v || v[k] == [] then None else Some(v[k][|v[k]| - 1])
  }

  function Text(v: Values, k: bytes, default: bytes): bytes {
    var s := Get(v, k);
    if s.Some? then s.value else default
  }

  function Flag(v: Values, k: bytes, default: bool): Option<bool> {
    var s := Get(v, k);
    if s.Some? then AsBool(s.value) else Some(default)
  }

  function Count(v: Values, k: bytes, default: int): Option<int> {
    var s := Get(v, k);
    if s.Some? then Atoi(s.value) else Some(default)
  }

  function FlagsOf(v: Values): Option<Settings> {
    var d := DEFAULTS;
    var enabled, mdns, http := Flag(v, ENABLED, d.enabled), Flag(v, MDNS, d.mdns), Flag(v, WEB, d.http);
    var manageIP, removeIP := Flag(v, MANAGE_IP, d.manageIP), Flag(v, REMOVE_IP, d.removeIP);
    var dashboard, allowAll := Flag(v, DASHBOARD, d.dashboard), Flag(v, ALLOW_ALL, d.dashboardAllowAll);
    if enabled.None? || mdns.None? || http.None? || manageIP.None? || removeIP.None? || dashboard.None?
        || allowAll.None? then
      None
    else
      Some(d.(enabled := enabled.value, mdns := mdns.value, http := http.value, manageIP := manageIP.value,
              removeIP := removeIP.value, dashboard := dashboard.value, dashboardAllowAll := allowAll.value))
  }

  function CountsOf(v: Values, c: Settings): Option<Settings> {
    var prefix, ttl, healthPort := Count(v, PREFIX, c.prefix), Count(v, TTL, c.ttl),
        Count(v, HEALTH_PORT, c.healthPort);
    var logLines, dashboardPort := Count(v, LOG_LINES, c.logLines), Count(v, DASHBOARD_PORT, c.dashboardPort);
    if prefix.None? || ttl.None? || healthPort.None? || logLines.None? || dashboardPort.None? then None
    else
      Some(c.(prefix := prefix.value, ttl := ttl.value, healthPort := healthPort.value, logLines := logLines.value,
              dashboardPort := dashboardPort.value))
  }

  function TextsOf(v: Values, c: Settings): Settings {
    c.(raynetMode := Text(v, RAYNET_MODE, c.raynetMode), appMode := Text(v, APP_MODE, c.appMode),
       axiomInterface := Text(v, AXIOM, c.axiomInterface), discoveryMode := Text(v, DISCOVERY, c.discoveryMode),
       ip := Text(v, IPADDR, c.ip), serial := Text(v, SERIAL, c.serial), version := Text(v, VERSION, c.version),
       hostname := Text(v, HOSTNAME, c.hostname), inst := Text(v, INSTANCE, c.inst),
       logLevel := Text(v, LOG_LEVEL, c.logLevel), dashboardCIDRs := Text(v, CIDRS, c.dashboardCIDRs))
  }

  /** Old files without the mode options keep their explicit interfaces and relay mode. */
  function Legacy(v: Values, c: Settings): Settings {
    c.(raynetMode := OldMode(v, RAYNET_MODE, c.raynetMode), appMode := OldMode(v, APP_MODE, c.appMode),
       discoveryMode := OldDiscovery(v, c.discoveryMode))
  }

  function OldMode(v: Values, key: bytes, mode: bytes): bytes {
    if key !in v && v != map[] then Ascii("manual") else mode
  }

  function OldDiscovery(v: Values, mode: bytes): bytes {
    if DISCOVERY in v then mode
    else if Get(v, RELAY_MODE) == Some(Ascii("force")) then Ascii("builtin")
    else if Get(v, RELAY_MODE) == Some(Ascii("disabled")) then Ascii("disabled")
    else mode
  }

  function FromValues(v: Values): Option<Settings> {
    var flags := FlagsOf(v);
    var counts := if flags.None? then None else CountsOf(v, flags.value);
    if counts.None? then None
    else
      var c := TextsOf(v, counts.value);
      var c := if REMOTE in v then c.(remoteInterfaces := v[REMOTE]) else c;
      var c := Legacy(v, c);
      if Valid(c) then Some(c) else None
  }

  function SettingsFrom(data: bytes): Option<Settings> {
    var section := ParseFrom(data, NO_SECTION);
    if section.None? then None else FromValues(section.value.values)
  }

  // ----- writing ----------------------------------------------------------------------------

  /** The option values in the order of KEYS. */
  function Texts(c: Settings): (ts: seq<bytes>)
    requires Valid(c)
    ensures |ts| == |KEYS|
  {
    [BoolText(c.enabled), BoolText(c.mdns), BoolText(c.http), BoolText(c.manageIP), BoolText(c.removeIP),
     BoolText(c.dashboard), BoolText(c.dashboardAllowAll),
     c.raynetMode, c.appMode, c.axiomInterface, c.discoveryMode, c.ip, c.serial, c.version, c.hostname, c.inst,
     c.logLevel, c.dashboardCIDRs,
     Itoa(c.prefix), Itoa(c.ttl), Itoa(c.healthPort), Itoa(c.logLines), Itoa(c.dashboardPort)]
  }

  function Options(keys: seq<bytes>, texts: seq<bytes>): (es: seq<Entry>)
    requires |keys| == |texts|
    ensures |es| == |keys|
    ensures forall i :: 0 <= i < |es| ==> es[i] == Entry(false, keys[i], texts[i])
  {
    seq(|keys|, i requires 0 <= i < |keys| => Entry(false, keys[i], texts[i]))
  }

  function Lists(key: bytes, texts: seq<bytes>): (es: seq<Entry>)
    ensures |es| == |texts|
    ensures forall i :: 0 <= i < |es| ==> es[i] == Entry(true, key, texts[i])
  {
    seq(|texts|, i requires 0 <= i < |texts| => Entry(true, key, texts[i]))
  }

  /** First occurrences, in order. */
  function Distinct(ns: seq<bytes>): (ds: seq<bytes>)
    ensures forall n :: n in ds <==> n in ns
    ensures |ds| <= |ns|
  {
    if ns == [] then []
    else
      var before, last := ns[..|ns| - 1], ns[|ns| - 1];
      assert ns == before + [last];
      var ds := Distinct(before);
      if last in ds then ds else ds + [last]
  }

  function Entries(c: Settings): seq<Entry>
    requires Valid(c)
  {
    Options(KEYS, Texts(c)) + Lists(REMOTE, Distinct(c.remoteInterfaces))
  }

  /** The file a save produces. */
  function FileOf(c: Settings): bytes
    requires Valid(c)
  {
    RenderSection(Entries(c))
  }

  // ----- round trip -------------------------------------------------------------------------

  lemma {:induction false} ItoaReads(n: nat)
    ensures Number(Itoa(n)) == n
  {
    if n >= 10 {
      ItoaReads(n / 10);
      var s := Itoa(n);
      assert s[..|s| - 1] == Itoa(n / 10);
    }
  }

  function Power(k: nat): (n: nat)
    ensures n > 0
  {
    if k == 0 then 1 else 10 * Power(k - 1)
  }

  lemma {:induction false} DigitsOf(n: nat, k: nat)
    requires k > 0
    ensures |Itoa(n)| <= k <==> n < Power(k)
  {
    if k == 1 {
      assert Power(1) == 10 * Power(0);
    } else if n >= 10 {
      DigitsOf(n / 10, k - 1);
      assert n / 10 < Power(k - 1) <==> n < 10 * Power(k - 1);
    } else {
      assert Power(k) == 10 * Power(k - 1);
    }
  }

  lemma AtoiItoa(n: nat)
    requires n < 0x8000_0000
    ensures Atoi(Itoa(n)) == Some(n)
  {
    hide Itoa, Number;
    ItoaReads(n);
    assert Digit(Itoa(n)[0]);
  }

  lemma BoolReads(b: bool)
    ensures AsBool(BoolText(b)) == Some(b)
  {
    assert Lower(BoolText(b)) == BoolText(b);
    assert |Ascii("on")| == 2 && |Ascii("yes")| == 3 && |Ascii("true")| == 4 && |Ascii("enabled")| == 7;
  }

  ghost predicate PairwiseDistinct(ks: seq<bytes>) {
    forall i, j :: 0 <= i < j < |ks| ==> ks[i] != ks[j]
  }

  /** What storing options under distinct new keys does to a map. */
  ghost predicate Holds(before: Values, after: Values, keys: seq<bytes>, texts: seq<bytes>)
    requires |keys| == |texts|
  {
    && (forall i :: 0 <= i < |keys| ==> keys[i] in after && after[keys[i]] == [texts[i]])
    && (forall k :: k in after ==> k in before || k in keys)
    && (forall k :: k in before && k !in keys ==> k in after && after[k] == before[k])
  }

  lemma {:induction false} StoredConcat(v: Values, a: seq<Entry>, b: seq<Entry>)
    ensures StoredAll(v, a + b) == StoredAll(StoredAll(v, a), b)
    decreases |a|
  {
    hide Stored;
    if a == [] {
      assert a + b == b;
    } else {
      assert (a + b)[1..] == a[1..] + b;
      StoredConcat(Stored(v, a[0]), a[1..], b);
    }
  }

  lemma {:induction false} StoreOptions(v: Values, keys: seq<bytes>, texts: seq<bytes>)
    requires |keys| == |texts| && PairwiseDistinct(keys)
    ensures Holds(v, StoredAll(v, Options(keys, texts)), keys, texts)
    decreases |keys|
  {
    var es := Options(keys, texts);
    if keys != [] {
      var n := |keys| - 1;
      var front := Options(keys[..n], texts[..n]);
      assert es == front + [Entry(false, keys[n], texts[n])];
      StoreOptions(v, keys[..n], texts[..n]);
      StoredConcat(v, front, [Entry(false, keys[n], texts[n])]);
      var mid := StoredAll(v, front);
      assert StoredAll(v, es) == mid[keys[n] := [texts[n]]] by {
        assert [] + [texts[n]] == [texts[n]];
      }
      assert keys == keys[..n] + [keys[n]];
    }
  }

  lemma {:induction false} StoreLists(v: Values, key: bytes, texts: seq<bytes>)
    ensures StoredAll(v, Lists(key, texts)) ==
            if texts == [] then v else v[key := (if key in v then v[key] else []) + texts]
    decreases |texts|
  {
    var es := Lists(key, texts);
    if texts == [] {
      assert es == [];
    } else {
      var had := if key in v then v[key] else [];
      var next := v[key := had + [texts[0]]];
      assert Stored(v, es[0]) == next;
      assert es[1..] == Lists(key, texts[1..]);
      StoreLists(next, key, texts[1..]);
      assert had + [texts[0]] + texts[1..] == had + texts;
      assert next[key := had + texts] == v[key := had + texts];
      if texts[1..] == [] {
        assert [texts[0]] == texts;
      }
    }
  }

  lemma {:induction false} KeysDistinct(i: nat, j: nat)
    requires i < j < |KEYS|
    ensures KEYS[i] != KEYS[j] && KEYS[i] != REMOTE && KEYS[j] != REMOTE
  {
    assert |ENABLED| == 7 && |MDNS| == 12 && |WEB| == 11 && |MANAGE_IP| == 9 && |REMOVE_IP| == 17 && |DASHBOARD| == 17
        && |ALLOW_ALL| == 19 && |RAYNET_MODE| == 11 && |APP_MODE| == 8 && |AXIOM| == 15 && |DISCOVERY| == 14
        && |IPADDR| == 6 && |SERIAL| == 6 && |VERSION| == 7 && |HOSTNAME| == 8 && |INSTANCE| == 8 && |LOG_LEVEL| == 9
        && |CIDRS| == 23 && |PREFIX| == 6 && |TTL| == 3 && |HEALTH_PORT| == 11 && |LOG_LINES| == 9
        && |DASHBOARD_PORT| == 14 && |REMOTE| == 16;
    assert ENABLED[0] == 101 && VERSION[0] == 118;
    assert WEB[0] == 119 && RAYNET_MODE[0] == 114 && HEALTH_PORT[0] == 104;
    assert REMOVE_IP[0] == 114 && DASHBOARD[0] == 100;
    assert MANAGE_IP[5] == 101 && LOG_LEVEL[5] == 101 && LOG_LINES[5] == 105 && MANAGE_IP[0] == 109
        && LOG_LEVEL[0] == 108;
    assert APP_MODE[0] == 97 && HOSTNAME[0] == 104 && INSTANCE[0] == 105;
    assert DISCOVERY[1] == 105 && DASHBOARD_PORT[1] == 97;
    assert IPADDR[0] == 105 && SERIAL[0] == 115 && PREFIX[0] == 112;
  }

  lemma KeysAreDistinct()
    ensures PairwiseDistinct(KEYS) && REMOTE !in KEYS
  {
    hide KEYS, REMOTE;
    forall i, j | 0 <= i < j < |KEYS|
      ensures KEYS[i] != KEYS[j]
    {
      KeysDistinct(i, j);
    }
    forall i | 0 <= i < |KEYS|
      ensures KEYS[i] != REMOTE
    {
      KeysCount();
      if i == 0 {
        KeysDistinct(0, 1);
      } else {
        KeysDistinct(0, i);
      }
    }
  }

  lemma KeysCount()
    ensures |KEYS| == 23
  {}

  /** The stored form of a record: one value per option, and the interface list if there is one. */
  lemma EntriesStored(c: Settings)
    requires Valid(c)
    ensures var v := StoredAll(map[], Entries(c));
            && (forall i :: 0 <= i < |KEYS| ==> KEYS[i] in v && v[KEYS[i]] == [Texts(c)[i]])
            && (if c.remoteInterfaces == [] then REMOTE !in v
                else REMOTE in v && v[REMOTE] == Distinct(c.remoteInterfaces))
  {
    hide Valid, KEYS, REMOTE, Texts, Distinct;
    KeysAreDistinct();
    var options, names := Options(KEYS, Texts(c)), Distinct(c.remoteInterfaces);
    StoreOptions(map[], KEYS, Texts(c));
    StoredConcat(map[], options, Lists(REMOTE, names));
    StoreLists(StoredAll(map[], options), REMOTE, names);
    assert [] + names == names;
    assert c.remoteInterfaces == [] <==> names == [] by {
      if names != [] {
        assert names[0] in c.remoteInterfaces;
      }
      if c.remoteInterfaces != [] {
        assert c.remoteInterfaces[0] in names;
      }
    }
  }

  lemma FlagReads(v: Values, k: bytes, b: bool, default: bool)
    requires k in v && v[k] == [BoolText(b)]
    ensures Flag(v, k, default) == Some(b)
  {
    BoolReads(b);
  }

  lemma CountReads(v: Values, k: bytes, n: nat, default: int)
    requires k in v && v[k] == [Itoa(n)] && n < 0x8000_0000
    ensures Count(v, k, default) == Some(n)
  {
    AtoiItoa(n);
  }

  ghost predicate Stores(v: Values, k: bytes, text: bytes) {
    k in v && v[k] == [text]
  }

  lemma FlagsStored(v: Values, c: Settings)
    requires Stores(v, ENABLED, BoolText(c.enabled)) && Stores(v, MDNS, BoolText(c.mdns))
        && Stores(v, WEB, BoolText(c.http))
    requires Stores(v, MANAGE_IP, BoolText(c.manageIP)) && Stores(v, REMOVE_IP, BoolText(c.removeIP))
    requires Stores(v, DASHBOARD, BoolText(c.dashboard)) && Stores(v, ALLOW_ALL, BoolText(c.dashboardAllowAll))
    ensures FlagsOf(v) == Some(DEFAULTS.(enabled := c.enabled, mdns := c.mdns, http := c.http, manageIP := c.manageIP,
                                         removeIP := c.removeIP, dashboard := c.dashboard,
                                         dashboardAllowAll := c.dashboardAllowAll))
  {
    var d := DEFAULTS;
    FlagReads(v, ENABLED, c.enabled, d.enabled);
    FlagReads(v, MDNS, c.mdns, d.mdns);
    FlagReads(v, WEB, c.http, d.http);
    FlagReads(v, MANAGE_IP, c.manageIP, d.manageIP);
    FlagReads(v, REMOVE_IP, c.removeIP, d.removeIP);
    FlagReads(v, DASHBOARD, c.dashboard, d.dashboard);
    FlagReads(v, ALLOW_ALL, c.dashboardAllowAll, d.dashboardAllowAll);
    hide Flag, DEFAULTS, BoolText;
  }

  lemma CountsStored(v: Values, c: Settings, d: Settings)
    requires 0 <= c.prefix < 0x8000_0000 && 0 <= c.ttl < 0x8000_0000 && 0 <= c.healthPort < 0x8000_0000
    requires 0 <= c.logLines < 0x8000_0000 && 0 <= c.dashboardPort < 0x8000_0000
    requires Stores(v, PREFIX, Itoa(c.prefix)) && Stores(v, TTL, Itoa(c.ttl))
        && Stores(v, HEALTH_PORT, Itoa(c.healthPort))
    requires Stores(v, LOG_LINES, Itoa(c.logLines)) && Stores(v, DASHBOARD_PORT, Itoa(c.dashboardPort))
    ensures CountsOf(v, d) == Some(d.(prefix := c.prefix, ttl := c.ttl, healthPort := c.healthPort,
                                      logLines := c.logLines, dashboardPort := c.dashboardPort))
  {
    hide Count, Itoa;
    CountReads(v, PREFIX, c.prefix, d.prefix);
    CountReads(v, TTL, c.ttl, d.ttl);
    CountReads(v, HEALTH_PORT, c.healthPort, d.healthPort);
    CountReads(v, LOG_LINES, c.logLines, d.logLines);
    CountReads(v, DASHBOARD_PORT, c.dashboardPort, d.dashboardPort);
  }

  lemma TextsStored(v: Values, c: Settings, d: Settings)
    requires Stores(v, RAYNET_MODE, c.raynetMode) && Stores(v, APP_MODE, c.appMode)
        && Stores(v, AXIOM, c.axiomInterface)
    requires Stores(v, DISCOVERY, c.discoveryMode) && Stores(v, IPADDR, c.ip) && Stores(v, SERIAL, c.serial)
    requires Stores(v, VERSION, c.version) && Stores(v, HOSTNAME, c.hostname) && Stores(v, INSTANCE, c.inst)
    requires Stores(v, LOG_LEVEL, c.logLevel) && Stores(v, CIDRS, c.dashboardCIDRs)
    ensures TextsOf(v, d) == d.(raynetMode := c.raynetMode, appMode := c.appMode, axiomInterface := c.axiomInterface,
                                discoveryMode := c.discoveryMode, ip := c.ip, serial := c.serial, version := c.version,
                                hostname := c.hostname, inst := c.inst, logLevel := c.logLevel,
                                dashboardCIDRs := c.dashboardCIDRs)
    ensures Legacy(v, d) == d
  {}

  /** All keys of KEYS, one by one. */
  lemma StoresEach(v: Values, ts: seq<bytes>)
    requires |ts| == |KEYS| && forall i :: 0 <= i < |KEYS| ==> KEYS[i] in v && v[KEYS[i]] == [ts[i]]
    ensures Stores(v, ENABLED, ts[0]) && Stores(v, MDNS, ts[1]) && Stores(v, WEB, ts[2]) && Stores(v, MANAGE_IP, ts[3])
    ensures Stores(v, REMOVE_IP, ts[4]) && Stores(v, DASHBOARD, ts[5]) && Stores(v, ALLOW_ALL, ts[6])
    ensures Stores(v, RAYNET_MODE, ts[7]) && Stores(v, APP_MODE, ts[8]) && Stores(v, AXIOM, ts[9])
    ensures Stores(v, DISCOVERY, ts[10]) && Stores(v, IPADDR, ts[11]) && Stores(v, SERIAL, ts[12])
    ensures Stores(v, VERSION, ts[13]) && Stores(v, HOSTNAME, ts[14]) && Stores(v, INSTANCE, ts[15])
    ensures Stores(v, LOG_LEVEL, ts[16]) && Stores(v, CIDRS, ts[17]) && Stores(v, PREFIX, ts[18])
        && Stores(v, TTL, ts[19])
    ensures Stores(v, HEALTH_PORT, ts[20]) && Stores(v, LOG_LINES, ts[21]) && Stores(v, DASHBOARD_PORT, ts[22])
  {
    assert KEYS[0] == ENABLED && KEYS[1] == MDNS && KEYS[2] == WEB && KEYS[3] == MANAGE_IP && KEYS[4] == REMOVE_IP;
    assert KEYS[5] == DASHBOARD && KEYS[6] == ALLOW_ALL && KEYS[7] == RAYNET_MODE && KEYS[8] == APP_MODE
        && KEYS[9] == AXIOM;
    assert KEYS[10] == DISCOVERY && KEYS[11] == IPADDR && KEYS[12] == SERIAL && KEYS[13] == VERSION
        && KEYS[14] == HOSTNAME;
    assert KEYS[15] == INSTANCE && KEYS[16] == LOG_LEVEL && KEYS[17] == CIDRS && KEYS[18] == PREFIX && KEYS[19] == TTL;
    assert KEYS[20] == HEALTH_PORT && KEYS[21] == LOG_LINES && KEYS[22] == DASHBOARD_PORT;
  }

  /** What reading back a written record can differ in: only the interface list. */
  function ReadBack(c: Settings): Settings {
    c.(remoteInterfaces := if c.remoteInterfaces == [] then DEFAULTS.remoteInterfaces else Distinct(c.remoteInterfaces))
  }

  lemma ReadBackValid(c: Settings)
    requires Valid(c)
    ensures Valid(ReadBack(c))
  {
    hide Fields, Cidr, UnicastV4, CleanSerial, Printable, HostLabel;
    if c.remoteInterfaces == [] {
      assert SafeInterface(Ascii("br-lan"));
    } else {
      assert c.remoteInterfaces[0] in Distinct(c.remoteInterfaces);
    }
  }

  lemma StoresFields(v: Values, c: Settings)
    requires Valid(c)
    requires forall i :: 0 <= i < |KEYS| ==> KEYS[i] in v && v[KEYS[i]] == [Texts(c)[i]]
    ensures Stores(v, ENABLED, BoolText(c.enabled)) && Stores(v, MDNS, BoolText(c.mdns))
        && Stores(v, WEB, BoolText(c.http))
    ensures Stores(v, MANAGE_IP, BoolText(c.manageIP)) && Stores(v, REMOVE_IP, BoolText(c.removeIP))
    ensures Stores(v, DASHBOARD, BoolText(c.dashboard)) && Stores(v, ALLOW_ALL, BoolText(c.dashboardAllowAll))
    ensures Stores(v, RAYNET_MODE, c.raynetMode) && Stores(v, APP_MODE, c.appMode) && Stores(v, AXIOM, c.axiomInterface)
    ensures Stores(v, DISCOVERY, c.discoveryMode) && Stores(v, IPADDR, c.ip) && Stores(v, SERIAL, c.serial)
    ensures Stores(v, VERSION, c.version) && Stores(v, HOSTNAME, c.hostname) && Stores(v, INSTANCE, c.inst)
    ensures Stores(v, LOG_LEVEL, c.logLevel) && Stores(v, CIDRS, c.dashboardCIDRs)
    ensures Numbers(c)
    ensures Stores(v, PREFIX, Itoa(c.prefix)) && Stores(v, TTL, Itoa(c.ttl))
        && Stores(v, HEALTH_PORT, Itoa(c.healthPort))
    ensures Stores(v, LOG_LINES, Itoa(c.logLines)) && Stores(v, DASHBOARD_PORT, Itoa(c.dashboardPort))
  {
    hide Fields, Cidr, UnicastV4, CleanSerial, Printable, HostLabel, SafeInterface, KEYS, Stores, Itoa, BoolText;
    StoresEach(v, Texts(c));
  }

  lemma ValuesReadBack(c: Settings, v: Values)
    requires Valid(c)
    requires forall i :: 0 <= i < |KEYS| ==> KEYS[i] in v && v[KEYS[i]] == [Texts(c)[i]]
    requires if c.remoteInterfaces == [] then REMOTE !in v else REMOTE in v && v[REMOTE] == Distinct(c.remoteInterfaces)
    ensures FromValues(v) == Some(ReadBack(c))
  {
    hide Valid, Itoa, BoolText, KEYS, FlagsOf, CountsOf, TextsOf, Legacy, Stores, Distinct, DEFAULTS, REMOTE, Texts;
    StoresFields(v, c);
    ReadBackValid(c);
    FlagsStored(v, c);
    var d1 := FlagsOf(v).value;
    CountsStored(v, c, d1);
    var d2 := CountsOf(v, d1).value;
    TextsStored(v, c, d2);
    var d3 := TextsOf(v, d2);
    TextsStored(v, c, if REMOTE in v then d3.(remoteInterfaces := v[REMOTE]) else d3);
  }

  ghost predicate Numbers(c: Settings) {
    && 0 <= c.prefix < 0x8000_0000 && 0 <= c.ttl < 0x8000_0000 && 0 <= c.healthPort < 0x8000_0000
    && 0 <= c.logLines < 0x8000_0000 && 0 <= c.dashboardPort < 0x8000_0000
  }

  lemma KeysArePlain(c: Settings)
    requires Valid(c)
    ensures KeysPlain(Entries(c))
  {
    hide Valid, KEYS, REMOTE, Texts, Distinct, PlainWord;
    forall i | 0 <= i < |Entries(c)|
      ensures PlainWord(Entries(c)[i].key) && NEWLINE !in Entries(c)[i].key
    {
      if i < |KEYS| {
        KeyIsPlain(i);
      } else {
        RemoteIsPlain();
      }
    }
  }

  predicate KeyCharacter(ch: byte) {
    97 <= ch <= 122 || ch == 95
  }

  lemma KeyCharacters(k: bytes)
    requires k != [] && forall i :: 0 <= i < |k| ==> KeyCharacter(k[i])
    ensures PlainKey(k)
  {}

  predicate PlainKey(k: bytes) {
    PlainWord(k) && NEWLINE !in k
  }

  lemma SwitchKeysArePlain()
    ensures PlainKey(ENABLED) && PlainKey(MDNS) && PlainKey(WEB) && PlainKey(MANAGE_IP) && PlainKey(REMOVE_IP)
        && PlainKey(DASHBOARD) && PlainKey(ALLOW_ALL)
  {
    hide PlainKey;
    KeyCharacters(ENABLED);
    KeyCharacters(MDNS);
    KeyCharacters(WEB);
    KeyCharacters(MANAGE_IP);
    KeyCharacters(REMOVE_IP);
    KeyCharacters(DASHBOARD);
    KeyCharacters(ALLOW_ALL);
  }

  lemma ModeKeysArePlain()
    ensures PlainKey(RAYNET_MODE) && PlainKey(APP_MODE) && PlainKey(AXIOM) && PlainKey(DISCOVERY) && PlainKey(IPADDR)
  {
    hide PlainKey;
    KeyCharacters(RAYNET_MODE);
    KeyCharacters(APP_MODE);
    KeyCharacters(AXIOM);
    KeyCharacters(DISCOVERY);
    KeyCharacters(IPADDR);
  }

  lemma TextKeysArePlain()
    ensures PlainKey(SERIAL) && PlainKey(VERSION) && PlainKey(HOSTNAME) && PlainKey(INSTANCE) && PlainKey(LOG_LEVEL)
        && PlainKey(CIDRS)
  {
    hide PlainKey;
    KeyCharacters(SERIAL);
    KeyCharacters(VERSION);
    KeyCharacters(HOSTNAME);
    KeyCharacters(INSTANCE);
    KeyCharacters(LOG_LEVEL);
    KeyCharacters(CIDRS);
  }

  lemma NumberKeysArePlain()
    ensures PlainKey(PREFIX) && PlainKey(TTL) && PlainKey(HEALTH_PORT) && PlainKey(LOG_LINES)
        && PlainKey(DASHBOARD_PORT)
  {
    hide PlainKey;
    KeyCharacters(PREFIX);
    KeyCharacters(TTL);
    KeyCharacters(HEALTH_PORT);
    KeyCharacters(LOG_LINES);
    KeyCharacters(DASHBOARD_PORT);
  }

  lemma KeyIsPlain(i: nat)
    requires i < |KEYS|
    ensures PlainKey(KEYS[i])
  {
    hide PlainKey;
    SwitchKeysArePlain();
    ModeKeysArePlain();
    TextKeysArePlain();
    NumberKeysArePlain();
  }

  lemma RemoteIsPlain()
    ensures PlainKey(REMOTE)
  {
    hide PlainKey;
    KeyCharacters(REMOTE);
  }

  lemma DistinctSnoc(before: seq<bytes>, last: bytes)
    ensures PairwiseDistinct(before + [last]) <==> PairwiseDistinct(before) && last !in before
  {
    var ns := before + [last];
    if PairwiseDistinct(ns) {
      forall i, j | 0 <= i < j < |before|
        ensures before[i] != before[j]
      {
        assert ns[i] != ns[j];
      }
      forall i | 0 <= i < |before|
        ensures before[i] != last
      {
        assert ns[i] != ns[|before|];
      }
    }
  }

  lemma {:induction false} DistinctIsSame(ns: seq<bytes>)
    ensures Distinct(ns) == ns <==> PairwiseDistinct(ns)
  {
    hide PairwiseDistinct;
    if ns == [] {
      assert PairwiseDistinct(ns) by {
        NothingRepeats();
      }
    } else {
      var before, last := ns[..|ns| - 1], ns[|ns| - 1];
      var ds := Distinct(before);
      assert ns == before + [last];
      DistinctIsSame(before);
      DistinctSnoc(before, last);
      assert |ds| <= |before|;
      assert (ds + [last])[..|ds|] == ds;
    }
  }

  /** `ds` lists the names of `ns` by their first occurrences, found at the positions `at`. */
  ghost predicate FirstsAt(ns: seq<bytes>, ds: seq<bytes>, at: seq<nat>) {
    && |at| == |ds| && (ds != [] ==> ns != [])
    && (forall i, j :: 0 <= i < j < |at| ==> at[i] < at[j])
    && (forall i :: 0 <= i < |at| ==> at[i] < |ns| && ns[at[i]] == ds[i] && ds[i] !in ns[..at[i]])
    && (forall k :: 0 <= k < |ns| ==> ns[k] in ds)
  }

  lemma FirstsSnoc(before: seq<bytes>, last: bytes, ds: seq<bytes>, at: seq<nat>)
    requires FirstsAt(before, ds, at)
    ensures last in ds ==> FirstsAt(before + [last], ds, at)
    ensures last !in ds ==> FirstsAt(before + [last], ds + [last], at + [|before|])
  {
    var ns := before + [last];
    assert forall k :: 0 <= k <= |before| ==> ns[..k] == before[..k];
    assert last !in ds ==> last !in before;
  }

  /** Dropping repeats keeps the first occurrence of every name, in order. */
  lemma {:induction false} DistinctIsFirsts(ns: seq<bytes>) returns (at: seq<nat>)
    ensures FirstsAt(ns, Distinct(ns), at) && PairwiseDistinct(Distinct(ns))
  {
    if ns == [] {
      at := [];
    } else {
      hide FirstsAt, PairwiseDistinct;
      var before, last := ns[..|ns| - 1], ns[|ns| - 1];
      at := DistinctIsFirsts(before);
      var ds := Distinct(before);
      assert ns == before + [last];
      FirstsSnoc(before, last, ds, at);
      DistinctSnoc(ds, last);
      if last !in ds {
        at := at + [|before|];
      }
    }
  }

  lemma FirstsWithLast(ns: seq<bytes>, ds: seq<bytes>, at: seq<nat>)
    requires FirstsAt(ns, ds, at) && ns != [] && at != [] && at[|at| - 1] == |ns| - 1
    ensures FirstsAt(ns[..|ns| - 1], ds[..|ds| - 1], at[..|at| - 1])
    ensures ds[|ds| - 1] == ns[|ns| - 1] && ds[|ds| - 1] !in ns[..|ns| - 1]
  {
    var before := ns[..|ns| - 1];
    assert |at| > 1 ==> at[0] < |before|;
    assert forall i :: 0 <= i < |at| - 1 ==> before[..at[i]] == ns[..at[i]];
  }

  lemma FirstsWithoutLast(ns: seq<bytes>, ds: seq<bytes>, at: seq<nat>)
    requires FirstsAt(ns, ds, at) && ns != [] && (at == [] || at[|at| - 1] < |ns| - 1)
    ensures FirstsAt(ns[..|ns| - 1], ds, at) && ns[|ns| - 1] in ds
  {
    var before := ns[..|ns| - 1];
    assert forall i :: 0 <= i < |at| ==> before[..at[i]] == ns[..at[i]];
  }

  /** No other list does. */
  lemma {:induction false} FirstsAreDistinct(ns: seq<bytes>, ds: seq<bytes>, at: seq<nat>)
    requires FirstsAt(ns, ds, at)
    ensures ds == Distinct(ns)
  {
    hide FirstsAt;
    if ns == [] {
      NoFirsts(ds, at);
    } else {
      var before := ns[..|ns| - 1];
      AtMostEach(ns, ds, at);
      if at != [] && at[|at| - 1] == |ns| - 1 {
        FirstsWithLast(ns, ds, at);
        FirstsAreDistinct(before, ds[..|ds| - 1], at[..|at| - 1]);
        assert ds == ds[..|ds| - 1] + [ds[|ds| - 1]];
      } else {
        FirstsWithoutLast(ns, ds, at);
        FirstsAreDistinct(before, ds, at);
      }
    }
  }

  lemma NoFirsts(ds: seq<bytes>, at: seq<nat>)
    requires FirstsAt([], ds, at)
    ensures ds == []
  {}

  lemma AtMostEach(ns: seq<bytes>, ds: seq<bytes>, at: seq<nat>)
    requires FirstsAt(ns, ds, at)
    ensures |at| == |ds| && (at != [] ==> at[|at| - 1] <= |ns| - 1)
  {}

  lemma NothingRepeats()
    ensures PairwiseDistinct([])
  {}

  /**
   * Writing a valid record and reading the file gives the same record exactly when every value fits on
   * its line, the interface list is not empty and it has no duplicates. Otherwise the default list, the
   * shortened list or an error is read.
   */
  lemma SettingsRoundTrip(c: Settings)
    requires Valid(c)
    ensures SettingsFrom(FileOf(c)) ==
            if forall i :: 0 <= i < |Entries(c)| ==> Fits(Entries(c)[i]) then Some(ReadBack(c)) else None
    ensures SettingsFrom(FileOf(c)) == Some(c) <==>
            && (forall i :: 0 <= i < |Entries(c)| ==> Fits(Entries(c)[i]))
            && c.remoteInterfaces != [] && PairwiseDistinct(c.remoteInterfaces)
  {
    hide Valid, Entries, Fits, KEYS, REMOTE, Texts, FromValues, ParseFrom, StoredAll, Distinct, PairwiseDistinct,
         RenderSection;
    KeysArePlain(c);
    RenderThenParse(Entries(c));
    EntriesStored(c);
    ValuesReadBack(c, StoredAll(map[], Entries(c)));
    DistinctIsSame(c.remoteInterfaces);
    assert |DEFAULTS.remoteInterfaces| == 1;
  }

  // ----- saving -----------------------------------------------------------------------------

  const MAX_FILE: nat := 65536

  function ReadSettings(data: bytes): Option<Settings> {
    if |data| > MAX_FILE then None else SettingsFrom(data)
  }

  /** The steps of a save outside the program's control. */
  datatype Io = Io(readLive: bool, stage: bool, uciBatch: bool, readStaged: bool, writePrevious: bool,
           writeLive: bool) {
    predicate Works() {
      readLive && stage && uciBatch && readStaged && writePrevious && writeLive
    }
  }

  class ConfigStore {
    var live: bytes
    var previous: bytes

    constructor (live: bytes)
      ensures this.live == live && previous == []
    {
      this.live := live;
      previous := [];
    }

    /** Replaces the live file only by one that reads back as the record being saved. */
    method WriteSettings(c: Settings, io: Io) returns (ok: bool)
      modifies this
      ensures ok <==> Valid(c) && SettingsFrom(FileOf(c)) == Some(c) && io.Works()
      ensures ok ==> live == FileOf(c) && previous == old(live) && SettingsFrom(live) == Some(c)
      ensures !ok ==> live == old(live)
    {
      hide Valid, SettingsFrom, FileOf;
      if !Valid(c) || !io.readLive || !io.stage || !io.uciBatch || !io.readStaged {
        return false;
      }
      var data := FileOf(c);
      var saved := SettingsFrom(data);
      if saved != Some(c) {
        return false;
      }
      if !io.writePrevious {
        return false;
      }
      previous := live;
      if !io.writeLive {
        return false;
      }
      live := data;
      return true;
    }
  }

  lemma {:induction false} RenderedLength(es: seq<Entry>, i: nat)
    requires KeysPlain(es) && i < |es|
    ensures |Rendered(es)| >= |EntryLine(es[i])| + 1 + 11 * (|es| - 1)
    decreases |es|
  {
    hide EntryLine, PlainWord;
    if i == 0 {
      RenderedMinimum(es[1..]);
    } else {
      EntryLineLength(es[0]);
      RenderedLength(es[1..], i - 1);
    }
  }

  lemma {:induction false} RenderedMinimum(es: seq<Entry>)
    requires KeysPlain(es)
    ensures |Rendered(es)| >= 11 * |es|
    decreases |es|
  {
    hide EntryLine, PlainWord;
    if es != [] {
      EntryLineLength(es[0]);
      RenderedMinimum(es[1..]);
    }
  }

  lemma EntryLineLength(e: Entry)
    requires PlainWord(e.key)
    ensures |EntryLine(e)| == 5 + |Kind(e)| + |e.key| + |Escaped(e.value)| >= 10
  {}

  function Quotes(n: nat): (s: bytes)
    ensures |s| == n && (forall i :: 0 <= i < n ==> s[i] == SINGLE)
  {
    if n == 0 then [] else [SINGLE] + Quotes(n - 1)
  }

  lemma {:induction false} EscapedQuotes(s: bytes)
    requires forall i :: 0 <= i < |s| ==> s[i] == SINGLE
    ensures |Escaped(s)| == 4 * |s|
  {
    if s != [] {
      EscapedQuotes(s[1..]);
    }
  }

  /**
   * The save check does not look at the size of the whole file, while the next read does: any valid
   * automatic-RayNet record that can be saved becomes one that saves but cannot be read back once its unused
   * interface name is replaced by 16350 single quotes.
   */
  lemma SavedButTooLargeToRead(c: Settings, s: Settings)
    requires Valid(c) && c.raynetMode == Ascii("auto") && SettingsFrom(FileOf(c)) == Some(c)
    requires s == c.(axiomInterface := Quotes(16350))
    ensures Valid(s) && SettingsFrom(FileOf(s)) == Some(s)
    ensures ReadSettings(FileOf(s)) == None
  {
    ReplacedIsValid(c, s);
    ReplacedFits(c, s);
    hide Valid, SettingsFrom, Entries, Rendered, HEADING;
    KeysArePlain(s);
    RenderedLength(Entries(s), 9);
    ReplacedLine(s);
  }

  lemma ReplacedIsValid(c: Settings, s: Settings)
    requires Valid(c) && c.raynetMode == Ascii("auto") && s == c.(axiomInterface := Quotes(16350))
    ensures Valid(s)
  {
    hide Fields, Cidr, UnicastV4, CleanSerial, Printable, HostLabel, SafeInterface, Quotes;
    assert Ascii("auto") != Ascii("manual");
  }

  lemma ReplacedLine(s: Settings)
    requires Valid(s) && s.axiomInterface == Quotes(16350)
    ensures |Entries(s)| >= 23 && |EntryLine(Entries(s)[9])| == 65426 && Fits(Entries(s)[9])
  {
    hide Valid, Quotes, Distinct;
    EscapedQuotes(s.axiomInterface);
    KeysCount();
    assert KEYS[9] == AXIOM && Texts(s)[9] == s.axiomInterface;
    KeyIsPlain(9);
    EntryLineLength(Entries(s)[9]);
  }

  lemma OtherEntries(c: Settings, s: Settings, i: nat)
    requires Valid(c) && Valid(s) && s == c.(axiomInterface := s.axiomInterface)
    requires i < |Entries(s)| && i != 9
    ensures |Entries(s)| == |Entries(c)| && Entries(s)[i] == Entries(c)[i]
  {
    hide Valid, KEYS, Distinct, REMOTE, Itoa, BoolText;
    KeysCount();
  }

  lemma ReplacedFits(c: Settings, s: Settings)
    requires Valid(c) && Valid(s) && SettingsFrom(FileOf(c)) == Some(c)
    requires s == c.(axiomInterface := Quotes(16350))
    ensures SettingsFrom(FileOf(s)) == Some(s)
  {
    hide Valid, Quotes, SettingsFrom, FileOf, Fits, Entries, PairwiseDistinct;
    SettingsRoundTrip(c);
    SettingsRoundTrip(s);
    forall i | 0 <= i < |Entries(s)|
      ensures Fits(Entries(s)[i])
    {
      if i == 9 {
        ReplacedLine(s);
      } else {
        OtherEntries(c, s, i);
      }
    }
  }
}
