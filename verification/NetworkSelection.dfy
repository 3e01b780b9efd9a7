/**
 * Which interfaces serve as RayNet and app networks, which engine crosses between them, and the relay
 * decision the running engine takes for itself from its configuration.
 */
module NetworkSelection {
  import opened Bytes
  import S = Settings

  /** An IPv4 interface address: its CIDR text, its address text and whether it is private. */
  datatype Address = Address(cidr: bytes, ip: bytes, isPrivate: bool)

  datatype Interface = Interface(name: bytes, addresses: seq<Address>, up: bool, defaultRoute: bool, readError: bool)

  datatype Resolved = Resolved(raynet: bytes, cidr: bytes, apps: seq<bytes>)

  const BR_LAN: bytes := Ascii("br-lan")
  const AUTO: bytes := Ascii("auto")
  const MANUAL: bytes := Ascii("manual")

  // ----- resolving interfaces ---------------------------------------------------------------

  /** The CIDR text of the first address with the given IP. */
  function HasIP(i: Interface, ip: bytes): Option<bytes> {
    AddressWith(i.addresses, ip)
  }

  function AddressWith(addresses: seq<Address>, ip: bytes): Option<bytes> {
    if addresses == [] then None
    else if addresses[0].ip == ip then Some(addresses[0].cidr)
    else AddressWith(addresses[1..], ip)
  }

  function ByName(ifs: seq<Interface>): map<bytes, Interface> {
    if ifs == [] then map[] else ByName(ifs[..|ifs| - 1])[ifs[|ifs| - 1].name := ifs[|ifs| - 1]]
  }

  predicate Usable(i: Interface) {
    i.up && !i.readError
  }

  predicate Suitable(i: Interface) {
    Usable(i) && !i.defaultRoute && exists k :: 0 <= k < |i.addresses| && i.addresses[k].isPrivate
  }

  function Matches(ifs: seq<Interface>, ip: bytes): seq<Interface> {
    if ifs == [] then []
    else Matches(ifs[..|ifs| - 1], ip) + (if HasIP(ifs[|ifs| - 1], ip).Some? then [ifs[|ifs| - 1]] else [])
  }

  function Candidates(ifs: seq<Interface>): seq<bytes> {
    if ifs == [] then []
    else Candidates(ifs[..|ifs| - 1]) + (if Suitable(ifs[|ifs| - 1]) then [ifs[|ifs| - 1].name] else [])
  }

  /** The RayNet interface and its CIDR. */
  function RayNet(c: S.Settings, ifs: seq<Interface>): Option<(bytes, bytes)> {
    if c.raynetMode == AUTO then
      var m := Matches(ifs, c.ip);
      if |m| != 1 then None
      else
        var cidr := HasIP(m[0], c.ip);
        if cidr.None? then None else Some((m[0].name, cidr.value))
    else if c.axiomInterface !in ByName(ifs) then None
    else
      var i := ByName(ifs)[c.axiomInterface];
      var cidr := HasIP(i, c.ip);
      if cidr.Some? then Some((i.name, cidr.value))
      else if !c.manageIP then None
      else Some((i.name, c.ip + [47] + S.Decimal(c.prefix)))
  }

  predicate LanServes(named: map<bytes, Interface>, raynet: bytes) {
    BR_LAN in named && (Suitable(named[BR_LAN]) || (named[BR_LAN].name == raynet && Usable(named[BR_LAN])))
  }

  function ChosenApps(c: S.Settings, ifs: seq<Interface>, raynet: bytes): Option<seq<bytes>> {
    if c.appMode == MANUAL then Some(c.remoteInterfaces)
    else if LanServes(ByName(ifs), raynet) then Some([ByName(ifs)[BR_LAN].name])
    else if |Candidates(ifs)| != 1 then None
    else Some(Candidates(ifs))
  }

  predicate AppOk(named: map<bytes, Interface>, raynet: bytes, n: bytes) {
    n in named && Usable(named[n]) && (named[n].addresses == [] ==> n == raynet)
  }

  /** First occurrences of the names, or nothing if one of them cannot be used. */
  function CheckedApps(named: map<bytes, Interface>, raynet: bytes, names: seq<bytes>): Option<seq<bytes>> {
    if names == [] then Some([])
    else
      var before, n := CheckedApps(named, raynet, names[..|names| - 1]), names[|names| - 1];
      if before.None? then None
      else if n in before.value then before
      else if AppOk(named, raynet, n) then Some(before.value + [n])
      else None
  }

  function Resolve(c: S.Settings, ifs: seq<Interface>): Option<Resolved> {
    var ray := RayNet(c, ifs);
    if ray.None? || ray.value.0 !in ByName(ifs) || !Usable(ByName(ifs)[ray.value.0]) then None
    else
      var names := ChosenApps(c, ifs, ray.value.0);
      var apps := if names.None? then None else CheckedApps(ByName(ifs), ray.value.0, names.value);
      if apps.None? || apps.value == [] then None else Some(Resolved(ray.value.0, ray.value.1, apps.value))
  }

  method ResolveInterfaces(c: S.Settings, ifs: seq<Interface>) returns (r: Option<Resolved>)
    ensures r == Resolve(c, ifs)
  {
    hide Suitable, Usable, HasIP;
    var named: map<bytes, Interface> := map[];
    assert ifs[..0] == [];
    for i := 0 to |ifs|
      invariant named == ByName(ifs[..i])
    {
      assert ifs[..i + 1][..i] == ifs[..i];
      named := named[ifs[i].name := ifs[i]];
    }
    assert ifs[..|ifs|] == ifs;
    var raynet: bytes, cidr: bytes;
    if c.raynetMode == AUTO {
      var matches := [];
      for i := 0 to |ifs|
        invariant matches == Matches(ifs[..i], c.ip)
      {
        assert ifs[..i + 1][..i] == ifs[..i];
        if HasIP(ifs[i], c.ip).Some? {
          matches := matches + [ifs[i]];
        }
      }
      if |matches| != 1 {
        return None;
      }
      MatchesHaveIP(ifs, c.ip);
      raynet := matches[0].name;
      cidr := HasIP(matches[0], c.ip).value;
    } else {
      if c.axiomInterface !in named {
        return None;
      }
      var i := named[c.axiomInterface];
      raynet := i.name;
      var own := HasIP(i, c.ip);
      if own.None? {
        if !c.manageIP {
          return None;
        }
        cidr := c.ip + [47] + S.Decimal(c.prefix);
      } else {
        cidr := own.value;
      }
    }
    if raynet !in named || !Usable(named[raynet]) {
      return None;
    }
    var names: seq<bytes>;
    if c.appMode == MANUAL {
      names := c.remoteInterfaces;
    } else if LanServes(named, raynet) {
      names := [named[BR_LAN].name];
    } else {
      names := [];
      for i := 0 to |ifs|
        invariant names == Candidates(ifs[..i])
      {
        assert ifs[..i + 1][..i] == ifs[..i];
        if Suitable(ifs[i]) {
          names := names + [ifs[i].name];
        }
      }
      if |names| != 1 {
        return None;
      }
    }
    var apps := CheckApps(named, raynet, names);
    if apps.None? || apps.value == [] {
      return None;
    }
    return Some(Resolved(raynet, cidr, apps.value));
  }

  method CheckApps(named: map<bytes, Interface>, raynet: bytes, names: seq<bytes>) returns (r: Option<seq<bytes>>)
    ensures r == CheckedApps(named, raynet, names)
  {
    hide AppOk;
    var apps: seq<bytes> := [];
    assert names[..0] == [];
    for i := 0 to |names|
      invariant CheckedApps(named, raynet, names[..i]) == Some(apps)
    {
      assert names[..i + 1][..i] == names[..i];
      var n := names[i];
      if n in apps {
        continue;
      }
      if !AppOk(named, raynet, n) {
        NoneStaysNone(named, raynet, names, i + 1);
        return None;
      }
      apps := apps + [n];
    }
    assert names[..|names|] == names;
    return Some(apps);
  }

  lemma {:induction false} NoneStaysNone(named: map<bytes, Interface>, raynet: bytes, names: seq<bytes>, i: nat)
    requires i <= |names| && CheckedApps(named, raynet, names[..i]).None?
    ensures CheckedApps(named, raynet, names).None?
    decreases |names|
  {
    if i < |names| {
      assert names[..|names| - 1][..i] == names[..i];
      NoneStaysNone(named, raynet, names[..|names| - 1], i);
    } else {
      assert names[..i] == names;
    }
  }

  lemma {:induction false} MatchesHaveIP(ifs: seq<Interface>, ip: bytes)
    ensures forall m :: m in Matches(ifs, ip) ==> m in ifs && HasIP(m, ip).Some?
  {
    hide HasIP;
    if ifs != [] {
      MatchesHaveIP(ifs[..|ifs| - 1], ip);
      assert ifs == ifs[..|ifs| - 1] + [ifs[|ifs| - 1]];
    }
  }

  // ----- choosing the engine ----------------------------------------------------------------

  datatype Avahi = Avahi(running: bool, reflector: bool, eligible: bool, unknown: bool)

  datatype Mode = Direct | Off | External | Builtin

  datatype Engine = Engine(mode: Mode, relay: bool)

  predicate Overlapping(a: Avahi) {
    a.running && (a.reflector || a.unknown)
  }

  predicate CrossesNetworks(raynet: bytes, apps: seq<bytes>) {
    exists k :: 0 <= k < |apps| && apps[k] != raynet
  }

  /** None stands for the refusals: an ineligible or overlapping reflector. */
  function ChooseEngine(discoveryMode: bytes, r: Resolved, a: Avahi): Option<Engine> {
    if !CrossesNetworks(r.raynet, r.apps) then Some(Engine(Direct, false))
    else if discoveryMode == Ascii("disabled") then Some(Engine(Off, false))
    else if discoveryMode == Ascii("avahi") then if a.eligible then Some(Engine(External, false)) else None
    else if discoveryMode == Ascii("builtin") then if Overlapping(a) then None else Some(Engine(Builtin, true))
    else if a.eligible then Some(Engine(External, false))
    else if Overlapping(a) then None
    else Some(Engine(Builtin, true))
  }

  /** The values of an Avahi configuration that matter, after its file has been split. */
  datatype AvahiFile = AvahiFile(enableReflector: bytes, useIPv4: bytes, filters: bytes, allow: seq<bytes>,
           deny: seq<bytes>)

  predicate Covers(f: AvahiFile, n: bytes) {
    n != [] && n !in f.deny && (f.allow != [] ==> n in f.allow)
  }

  function AvahiFrom(f: AvahiFile, r: Resolved): Avahi {
    var reflector := S.AsBool(f.enableReflector) == Some(true);
    Avahi(true, reflector,
          reflector && f.useIPv4 != Ascii("no") && Covers(f, r.raynet) && (forall n :: n in r.apps ==> Covers(f, n))
          && f.filters == [],
          false)
  }

  // ----- the running engine -----------------------------------------------------------------

  datatype RelayMode = Disabled | Force | Automatic

  /** The engine's own decision. */
  function DetermineRelayMode(mode: RelayMode, existingReflector: bool, distinct: bool): bool {
    distinct && (match mode
                 case Disabled => false
                 case Force => true
                 case Automatic => !existingReflector)
  }

  /** What the daemon configures from its choice. */
  function ConfiguredMode(e: Engine): RelayMode {
    if e.mode == External then Automatic else if e.relay then Force else Disabled
  }

  /** The engine that starts takes the relay decision that was chosen and reported for it. */
  lemma EngineAgrees(discoveryMode: bytes, r: Resolved, a: Avahi)
    requires ChooseEngine(discoveryMode, r, a).Some?
    ensures var e := ChooseEngine(discoveryMode, r, a).value;
            DetermineRelayMode(ConfiguredMode(e), e.mode == External, CrossesNetworks(r.raynet, r.apps)) == e.relay
  {}

  /** The engine that is built for a choice walks the app networks again and takes the decision that was chosen. */
  method BuiltRelay(discoveryMode: bytes, r: Resolved, a: Avahi) returns (relay: bool)
    requires ChooseEngine(discoveryMode, r, a).Some?
    ensures relay == ChooseEngine(discoveryMode, r, a).value.relay
  {
    var e := ChooseEngine(discoveryMode, r, a).value;
    var distinct := false;
    for k := 0 to |r.apps|
      invariant distinct <==> exists j :: 0 <= j < k && r.apps[j] != r.raynet
    {
      if r.apps[k] != r.raynet {
        distinct := true;
      }
    }
    EngineAgrees(discoveryMode, r, a);
    relay := DetermineRelayMode(ConfiguredMode(e), e.mode == External, distinct);
  }

  /** The relay is on only between distinct networks, and never beside a reflecting or unverified Avahi. */
  lemma RelayIsSafe(discoveryMode: bytes, r: Resolved, a: Avahi)
    requires ChooseEngine(discoveryMode, r, a).Some?
    ensures var e := ChooseEngine(discoveryMode, r, a).value;
            && (e.relay ==> CrossesNetworks(r.raynet, r.apps) && !Overlapping(a))
            && (e.mode == External ==> a.eligible && !e.relay)
  {}

  /** An external reflector is relied on only if its configuration covers RayNet and every app network. */
  lemma ExternalCoversAll(discoveryMode: bytes, r: Resolved, f: AvahiFile)
    requires ChooseEngine(discoveryMode, r, AvahiFrom(f, r)) == Some(Engine(External, false))
    ensures S.AsBool(f.enableReflector) == Some(true) && f.useIPv4 != Ascii("no") && f.filters == []
    ensures Covers(f, r.raynet) && forall n :: n in r.apps ==> Covers(f, n)
  {}

  // ----- what resolving guarantees ----------------------------------------------------------

  lemma {:induction false} ByNameKeys(ifs: seq<Interface>)
    ensures forall n :: n in ByName(ifs) ==> ByName(ifs)[n].name == n && ByName(ifs)[n] in ifs
  {
    if ifs != [] {
      ByNameKeys(ifs[..|ifs| - 1]);
      assert ifs == ifs[..|ifs| - 1] + [ifs[|ifs| - 1]];
    }
  }

  lemma {:induction false} CheckedAppsOk(named: map<bytes, Interface>, raynet: bytes, names: seq<bytes>)
    ensures var apps := CheckedApps(named, raynet, names);
            apps.Some? ==>
              && S.PairwiseDistinct(apps.value)
              && (forall n :: n in apps.value <==> n in names)
              && (forall n :: n in apps.value ==> AppOk(named, raynet, n))
  {
    hide AppOk, S.PairwiseDistinct;
    if names == [] {
      S.NothingRepeats();
    } else {
      var before, n := names[..|names| - 1], names[|names| - 1];
      CheckedAppsOk(named, raynet, before);
      assert names == before + [n];
      var apps := CheckedApps(named, raynet, before);
      if apps.Some? {
        S.DistinctSnoc(apps.value, n);
      }
    }
  }

  lemma {:induction false} CandidatesSuitable(ifs: seq<Interface>)
    ensures forall n :: n in Candidates(ifs) ==> exists i :: i in ifs && i.name == n && Suitable(i)
  {
    hide Suitable;
    if ifs != [] {
      var before, last := ifs[..|ifs| - 1], ifs[|ifs| - 1];
      CandidatesSuitable(before);
      assert ifs == before + [last];
      forall n | n in Candidates(ifs)
        ensures exists i :: i in ifs && i.name == n && Suitable(i)
      {
        if n in Candidates(before) {
          var i :| i in before && i.name == n && Suitable(i);
          assert i in ifs;
        } else {
          assert last in ifs && last.name == n && Suitable(last);
        }
      }
    }
  }

  ghost predicate UniqueNames(ifs: seq<Interface>) {
    forall i, j :: 0 <= i < j < |ifs| ==> ifs[i].name != ifs[j].name
  }

  lemma {:induction false} ByNameUnique(ifs: seq<Interface>, i: Interface)
    requires UniqueNames(ifs) && i in ifs
    ensures i.name in ByName(ifs) && ByName(ifs)[i.name] == i
  {
    var before, last := ifs[..|ifs| - 1], ifs[|ifs| - 1];
    assert ifs == before + [last];
    if i != last {
      assert i in before;
      ByNameUnique(before, i);
    }
  }

  /**
   * Resolved networks: RayNet is usable and has the configured address unless the package is to add it;
   * the app networks are the chosen ones without duplicates, each usable and with an address of its own
   * unless it is RayNet.
   */
  lemma ResolvedIsUsable(c: S.Settings, ifs: seq<Interface>)
    requires Resolve(c, ifs).Some?
    ensures var r, named := Resolve(c, ifs).value, ByName(ifs);
            && r.raynet in named && Usable(named[r.raynet])
            && (c.raynetMode == AUTO ==>
                  exists i :: i in ifs && i.name == r.raynet && HasIP(i, c.ip) == Some(r.cidr))
            && (c.raynetMode != AUTO ==>
                  r.raynet == c.axiomInterface && (HasIP(named[r.raynet], c.ip).None? ==> c.manageIP))
            && r.apps != [] && S.PairwiseDistinct(r.apps)
            && (forall n :: n in r.apps ==> AppOk(named, r.raynet, n))
            && (c.appMode == MANUAL ==> forall n :: n in r.apps <==> n in c.remoteInterfaces)
  {
    hide AppOk, Usable, HasIP, Suitable, S.PairwiseDistinct;
    var r := Resolve(c, ifs).value;
    ByNameKeys(ifs);
    MatchesHaveIP(ifs, c.ip);
    CheckedAppsOk(ByName(ifs), r.raynet, ChosenApps(c, ifs, r.raynet).value);
  }

  lemma OnlyOne(names: seq<bytes>, n: bytes)
    requires names != [] && S.PairwiseDistinct(names) && forall m :: m in names ==> m == n
    ensures names == [n]
  {
    assert names[0] in names && names[|names| - 1] in names;
    assert names[0] == names[|names| - 1];
  }

  /** An automatically chosen app network never carries the default route, except br-lan serving as RayNet. */
  lemma AutomaticAppAvoidsDefaultRoute(c: S.Settings, ifs: seq<Interface>, n: bytes)
    requires UniqueNames(ifs) && c.appMode != MANUAL && Resolve(c, ifs).Some? && n in Resolve(c, ifs).value.apps
    ensures Resolve(c, ifs).value.apps == [n] && n in ByName(ifs)
    ensures ByName(ifs)[n].defaultRoute ==> n == BR_LAN && Resolve(c, ifs).value.raynet == BR_LAN
  {
    hide HasIP, RayNet, BR_LAN;
    var r, named := Resolve(c, ifs).value, ByName(ifs);
    var names := ChosenApps(c, ifs, r.raynet).value;
    ByNameKeys(ifs);
    CheckedAppsOk(named, r.raynet, names);
    assert |names| == 1 && names[0] == n;
    OnlyOne(r.apps, n);
    if !LanServes(named, r.raynet) {
      CandidatesSuitable(ifs);
      var i :| i in ifs && i.name == n && Suitable(i);
      ByNameUnique(ifs, i);
    }
  }

  /**
   * From settings to relay: whatever is resolved and chosen, the relay is on only if RayNet is usable, some
   * other app network is usable with an address of its own, and no reflecting or unverified Avahi runs.
   */
  lemma RelayNeedsTwoNetworks(c: S.Settings, ifs: seq<Interface>, a: Avahi)
    requires Resolve(c, ifs).Some? && ChooseEngine(c.discoveryMode, Resolve(c, ifs).value, a).Some?
    requires ChooseEngine(c.discoveryMode, Resolve(c, ifs).value, a).value.relay
    ensures var r, named := Resolve(c, ifs).value, ByName(ifs);
            && !Overlapping(a)
            && r.raynet in named && Usable(named[r.raynet])
            && exists n :: n in r.apps && n != r.raynet && n in named && Usable(named[n]) && named[n].addresses != []
  {
    hide Resolve, Usable, HasIP, S.PairwiseDistinct;
    ResolvedIsUsable(c, ifs);
    var r := Resolve(c, ifs).value;
    RelayIsSafe(c.discoveryMode, r, a);
    var k :| 0 <= k < |r.apps| && r.apps[k] != r.raynet;
    assert AppOk(ByName(ifs), r.raynet, r.apps[k]);
  }

  lemma {:induction false} CheckedAppsIff(named: map<bytes, Interface>, raynet: bytes, names: seq<bytes>)
    ensures CheckedApps(named, raynet, names).Some? <==> forall n :: n in names ==> AppOk(named, raynet, n)
  {
    hide AppOk;
    if names != [] {
      var before, last := names[..|names| - 1], names[|names| - 1];
      assert names == before + [last];
      CheckedAppsIff(named, raynet, before);
      CheckedAppsOk(named, raynet, before);
    }
  }

  /** Explicitly chosen networks resolve exactly when RayNet and every app network can serve as such. */
  lemma ManualResolvesIff(c: S.Settings, ifs: seq<Interface>)
    requires c.raynetMode != AUTO && c.appMode == MANUAL
    ensures var named, n := ByName(ifs), c.axiomInterface;
      Resolve(c, ifs).Some? <==>
        && n in named && Usable(named[n]) && (HasIP(named[n], c.ip).Some? || c.manageIP)
        && c.remoteInterfaces != []
        && forall app :: app in c.remoteInterfaces ==> AppOk(named, n, app)
  {
    hide AppOk, HasIP, S.Decimal;
    ByNameKeys(ifs);
    CheckedAppsIff(ByName(ifs), c.axiomInterface, c.remoteInterfaces);
    CheckedAppsOk(ByName(ifs), c.axiomInterface, c.remoteInterfaces);
    if c.remoteInterfaces != [] {
      assert c.remoteInterfaces[0] in c.remoteInterfaces;
    }
  }

  // ----- automatic choice -------------------------------------------------------------------

  /** Interface `i` is the only one with the address. */
  ghost predicate OnlyMatch(ifs: seq<Interface>, ip: bytes, i: nat) {
    i < |ifs| && forall j :: 0 <= j < |ifs| ==> (HasIP(ifs[j], ip).Some? <==> j == i)
  }

  /** Interface `i` is the only suitable app network. */
  ghost predicate OnlyCandidate(ifs: seq<Interface>, i: nat) {
    i < |ifs| && forall j :: 0 <= j < |ifs| ==> (Suitable(ifs[j]) <==> j == i)
  }

  ghost predicate NoMatch(ifs: seq<Interface>, ip: bytes) {
    forall j :: 0 <= j < |ifs| ==> HasIP(ifs[j], ip).None?
  }

  ghost predicate NoCandidate(ifs: seq<Interface>) {
    forall j :: 0 <= j < |ifs| ==> !Suitable(ifs[j])
  }

  lemma {:induction false} MatchesOnly(ifs: seq<Interface>, ip: bytes)
    ensures Matches(ifs, ip) == [] <==> NoMatch(ifs, ip)
    ensures |Matches(ifs, ip)| == 1 <==> exists i: nat :: OnlyMatch(ifs, ip, i)
    ensures forall i: nat :: OnlyMatch(ifs, ip, i) ==> Matches(ifs, ip) == [ifs[i]]
  {
    hide HasIP;
    if ifs != [] {
      var before, last := ifs[..|ifs| - 1], |ifs| - 1;
      MatchesOnly(before, ip);
      assert forall j :: 0 <= j < last ==> before[j] == ifs[j];
      if HasIP(ifs[last], ip).Some? {
        assert NoMatch(before, ip) <==> OnlyMatch(ifs, ip, last);
        assert forall i: nat :: OnlyMatch(ifs, ip, i) ==> i == last;
      } else {
        assert forall i: nat :: OnlyMatch(ifs, ip, i) <==> OnlyMatch(before, ip, i);
      }
    }
  }

  lemma {:induction false} CandidatesOnly(ifs: seq<Interface>)
    ensures Candidates(ifs) == [] <==> NoCandidate(ifs)
    ensures |Candidates(ifs)| == 1 <==> exists i: nat :: OnlyCandidate(ifs, i)
    ensures forall i: nat :: OnlyCandidate(ifs, i) ==> Candidates(ifs) == [ifs[i].name]
  {
    hide Suitable;
    if ifs != [] {
      var before, last := ifs[..|ifs| - 1], |ifs| - 1;
      CandidatesOnly(before);
      assert forall j :: 0 <= j < last ==> before[j] == ifs[j];
      if Suitable(ifs[last]) {
        assert NoCandidate(before) <==> OnlyCandidate(ifs, last);
        assert forall i: nat :: OnlyCandidate(ifs, i) ==> i == last;
      } else {
        assert forall i: nat :: OnlyCandidate(ifs, i) <==> OnlyCandidate(before, i);
      }
    }
  }

  /**
   * Automatic choice of both networks succeeds exactly when one interface alone has the address and is usable,
   * and either br-lan can serve as app network or one interface alone is suitable.
   */
  lemma AutomaticResolvesIff(c: S.Settings, ifs: seq<Interface>)
    requires UniqueNames(ifs) && c.raynetMode == AUTO && c.appMode != MANUAL
    ensures Resolve(c, ifs).Some? <==>
            exists i: nat :: && OnlyMatch(ifs, c.ip, i) && Usable(ifs[i])
                             && (LanServes(ByName(ifs), ifs[i].name) || exists k: nat :: OnlyCandidate(ifs, k))
  {
    hide HasIP, Suitable, Usable, BR_LAN, AppOk, OnlyMatch, OnlyCandidate, CheckedApps, LanServes;
    ByNameKeys(ifs);
    MatchesOnly(ifs, c.ip);
    CandidatesOnly(ifs);
    if |Matches(ifs, c.ip)| == 1 {
      var i: nat :| OnlyMatch(ifs, c.ip, i);
      OnlyMatchInside(ifs, c.ip, i);
      ByNameUnique(ifs, ifs[i]);
      forall j: nat | OnlyMatch(ifs, c.ip, j)
        ensures j == i
      {
        OnlyMatchUnique(ifs, c.ip, i, j);
      }
      assert RayNet(c, ifs) == Some((ifs[i].name, HasIP(ifs[i], c.ip).value));
      var names := ChosenApps(c, ifs, ifs[i].name);
      if names.Some? {
        AutomaticAppOk(c, ifs, i);
        CheckedAppsIff(ByName(ifs), ifs[i].name, names.value);
        CheckedAppsOk(ByName(ifs), ifs[i].name, names.value);
        assert names.value[0] in names.value;
      }
    }
  }

  lemma OnlyMatchInside(ifs: seq<Interface>, ip: bytes, i: nat)
    requires OnlyMatch(ifs, ip, i)
    ensures i < |ifs| && HasIP(ifs[i], ip).Some?
  {
    hide HasIP;
  }

  lemma OnlyMatchUnique(ifs: seq<Interface>, ip: bytes, i: nat, j: nat)
    requires OnlyMatch(ifs, ip, i) && OnlyMatch(ifs, ip, j)
    ensures i == j
  {
    hide HasIP;
    assert HasIP(ifs[i], ip).Some? && HasIP(ifs[j], ip).Some?;
  }

  /** What the automatic choice proposes can serve. */
  lemma AutomaticAppOk(c: S.Settings, ifs: seq<Interface>, i: nat)
    requires UniqueNames(ifs) && c.appMode != MANUAL && i < |ifs| && ChosenApps(c, ifs, ifs[i].name).Some?
    ensures var names := ChosenApps(c, ifs, ifs[i].name).value;
      |names| == 1 && forall n :: n in names ==> AppOk(ByName(ifs), ifs[i].name, n)
  {
    hide BR_LAN, Suitable, Usable;
    ByNameKeys(ifs);
    var named := ByName(ifs);
    if LanServes(named, ifs[i].name) {
      SuitableServes(named[BR_LAN]);
      assert ChosenApps(c, ifs, ifs[i].name).value == [BR_LAN];
    } else {
      CandidatesSuitable(ifs);
      var n := Candidates(ifs)[0];
      assert n in Candidates(ifs);
      var f :| f in ifs && f.name == n && Suitable(f);
      ByNameUnique(ifs, f);
      SuitableServes(f);
      assert ChosenApps(c, ifs, ifs[i].name).value == [n];
    }
  }

  lemma SuitableServes(i: Interface)
    ensures Suitable(i) ==> Usable(i) && i.addresses != [] && !i.defaultRoute
  {}

  // ----- one network explicit, the other automatic ----------------------------------------------

  /** Explicit RayNet and automatic app network. */
  lemma ManualRayNetResolvesIff(c: S.Settings, ifs: seq<Interface>)
    requires UniqueNames(ifs) && c.raynetMode != AUTO && c.appMode != MANUAL
    ensures var named, n := ByName(ifs), c.axiomInterface;
      Resolve(c, ifs).Some? <==>
        && n in named && Usable(named[n]) && (HasIP(named[n], c.ip).Some? || c.manageIP)
        && (LanServes(named, n) || exists k: nat :: OnlyCandidate(ifs, k))
  {
    hide HasIP, Suitable, Usable, BR_LAN, AppOk, OnlyCandidate, CheckedApps, LanServes, S.Decimal;
    ByNameKeys(ifs);
    CandidatesOnly(ifs);
    var named, n := ByName(ifs), c.axiomInterface;
    if n in named && ChosenApps(c, ifs, n).Some? {
      var i: nat :| i < |ifs| && ifs[i] == named[n];
      var names := ChosenApps(c, ifs, n).value;
      AutomaticAppOk(c, ifs, i);
      CheckedAppsIff(named, n, names);
      CheckedAppsOk(named, n, names);
      assert names[0] in names;
    }
  }

  /** Automatic RayNet and explicit app networks. */
  lemma ManualAppResolvesIff(c: S.Settings, ifs: seq<Interface>)
    requires UniqueNames(ifs) && c.raynetMode == AUTO && c.appMode == MANUAL
    ensures Resolve(c, ifs).Some? <==>
            && c.remoteInterfaces != []
            && exists i: nat :: && OnlyMatch(ifs, c.ip, i) && Usable(ifs[i])
                                && forall n :: n in c.remoteInterfaces ==> AppOk(ByName(ifs), ifs[i].name, n)
  {
    hide HasIP, Suitable, Usable, AppOk, OnlyMatch;
    ByNameKeys(ifs);
    MatchesOnly(ifs, c.ip);
    if |Matches(ifs, c.ip)| == 1 {
      var i: nat :| OnlyMatch(ifs, c.ip, i);
      OnlyMatchInside(ifs, c.ip, i);
      ByNameUnique(ifs, ifs[i]);
      forall j: nat | OnlyMatch(ifs, c.ip, j)
        ensures j == i
      {
        OnlyMatchUnique(ifs, c.ip, i, j);
      }
      assert RayNet(c, ifs) == Some((ifs[i].name, HasIP(ifs[i], c.ip).value));
      CheckedAppsIff(ByName(ifs), ifs[i].name, c.remoteInterfaces);
      CheckedAppsOk(ByName(ifs), ifs[i].name, c.remoteInterfaces);
      if c.remoteInterfaces != [] {
        assert c.remoteInterfaces[0] in c.remoteInterfaces;
      }
    }
  }
}
