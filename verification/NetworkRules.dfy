/**
 * The networks a record resolves to and the engine chosen between them, said of the interfaces themselves: exactly
 * one answer for every record and snapshot, or a refusal.
 */
module NetworkRules {
  import opened Bytes
  import opened NetworkSelection
  import S = Settings
  import SettingsRules

  // ----- interfaces -------------------------------------------------------------------------

  /** The interface is up and its addresses could be read. */
  predicate Alive(i: Interface) {
    !(!i.up || i.readError)
  }

  /** It can be proposed for the apps: alive, off the default route, with a private address. */
  predicate ServesApps(i: Interface) {
    Alive(i) && !i.defaultRoute && exists k :: 0 <= k < |i.addresses| && i.addresses[k].isPrivate
  }

  /** The first address with this IP has this CIDR text. */
  ghost predicate HoldsAddress(i: Interface, ip: bytes, cidr: bytes) {
    exists k :: 0 <= k < |i.addresses| && i.addresses[k].ip == ip && i.addresses[k].cidr == cidr
      && forall j :: 0 <= j < k ==> i.addresses[j].ip != ip
  }

  ghost predicate LacksAddress(i: Interface, ip: bytes) {
    forall k :: 0 <= k < |i.addresses| ==> i.addresses[k].ip != ip
  }

  /** Interface `k` is the last one of this name. */
  ghost predicate Named(ifs: seq<Interface>, name: bytes, k: nat) {
    k < |ifs| && ifs[k].name == name && forall j :: k < j < |ifs| ==> ifs[j].name != name
  }

  lemma {:induction false} AddressIff(addresses: seq<Address>, ip: bytes, i: Interface)
    requires i.addresses == addresses
    ensures forall cidr :: AddressWith(addresses, ip) == Some(cidr) <==> HoldsAddress(i, ip, cidr)
    ensures AddressWith(addresses, ip).None? <==> LacksAddress(i, ip)
    decreases |addresses|
  {
    if addresses != [] && addresses[0].ip != ip {
      var rest := addresses[1..];
      AddressIff(rest, ip, i.(addresses := rest));
      assert forall k :: 0 <= k < |rest| ==> rest[k] == addresses[k + 1];
      forall cidr
        ensures HoldsAddress(i, ip, cidr) <==> HoldsAddress(i.(addresses := rest), ip, cidr)
      {
        LaterAddress(i, ip, cidr);
      }
    } else if addresses != [] {
      assert addresses[0].ip == ip;
    }
  }

  lemma LaterAddress(i: Interface, ip: bytes, cidr: bytes)
    requires i.addresses != [] && i.addresses[0].ip != ip
    ensures HoldsAddress(i, ip, cidr) <==> HoldsAddress(i.(addresses := i.addresses[1..]), ip, cidr)
  {
    var rest := i.(addresses := i.addresses[1..]);
    if k :| 0 <= k < |i.addresses| && i.addresses[k].ip == ip && i.addresses[k].cidr == cidr
            && (forall j :: 0 <= j < k ==> i.addresses[j].ip != ip) {
      assert rest.addresses[k - 1].ip == ip;
      assert forall j :: 0 <= j < k - 1 ==> rest.addresses[j] == i.addresses[j + 1];
    }
    if k :| 0 <= k < |rest.addresses| && rest.addresses[k].ip == ip && rest.addresses[k].cidr == cidr
            && (forall j :: 0 <= j < k ==> rest.addresses[j].ip != ip) {
      assert i.addresses[k + 1].ip == ip;
      assert forall j :: 0 <= j < k + 1 ==> j == 0 || i.addresses[j] == rest.addresses[j - 1];
    }
  }

  lemma HasIPIff(i: Interface, ip: bytes)
    ensures forall cidr :: HasIP(i, ip) == Some(cidr) <==> HoldsAddress(i, ip, cidr)
    ensures HasIP(i, ip).None? <==> LacksAddress(i, ip)
  {
    hide AddressWith, HoldsAddress, LacksAddress;
    AddressIff(i.addresses, ip, i);
  }

  lemma {:induction false} ByNameIff(ifs: seq<Interface>, name: bytes)
    ensures name in ByName(ifs) <==> exists k: nat :: Named(ifs, name, k)
    ensures forall k: nat :: Named(ifs, name, k) ==> name in ByName(ifs) && ByName(ifs)[name] == ifs[k]
  {
    if ifs != [] {
      var before, last := ifs[..|ifs| - 1], |ifs| - 1;
      ByNameIff(before, name);
      if ifs[last].name == name {
        assert Named(ifs, name, last);
      } else {
        forall k: nat
          ensures Named(ifs, name, k) <==> Named(before, name, k)
        {
          NamedBefore(ifs, name, k);
        }
      }
    }
  }

  lemma NamedBefore(ifs: seq<Interface>, name: bytes, k: nat)
    requires ifs != [] && ifs[|ifs| - 1].name != name
    ensures Named(ifs, name, k) <==> Named(ifs[..|ifs| - 1], name, k)
  {
    var before := ifs[..|ifs| - 1];
    assert forall j :: 0 <= j < |before| ==> before[j] == ifs[j];
  }

  // ----- the answer -------------------------------------------------------------------------

  /** Automatic RayNet is the one interface with the address; a chosen one has it, unless the package is to add it. */
  ghost predicate RayNetIs(c: S.Settings, ifs: seq<Interface>, raynet: bytes, cidr: bytes) {
    if c.raynetMode == Ascii("auto") then
      exists i: nat :: && i < |ifs| && ifs[i].name == raynet && HoldsAddress(ifs[i], c.ip, cidr)
                       && forall j :: 0 <= j < |ifs| && j != i ==> LacksAddress(ifs[j], c.ip)
    else
      exists i: nat :: && Named(ifs, c.axiomInterface, i) && raynet == c.axiomInterface
                       && (|| HoldsAddress(ifs[i], c.ip, cidr)
                           || (LacksAddress(ifs[i], c.ip) && c.manageIP
                               && cidr == c.ip + Ascii("/") + S.Decimal(c.prefix)))
  }

  ghost predicate LanIsTaken(ifs: seq<Interface>, raynet: bytes) {
    exists k: nat :: Named(ifs, Ascii("br-lan"), k)
                     && (ServesApps(ifs[k]) || (raynet == Ascii("br-lan") && Alive(ifs[k])))
  }

  /** Chosen app networks; otherwise br-lan if it can serve, or the one interface that can. */
  ghost predicate AppsAre(c: S.Settings, ifs: seq<Interface>, raynet: bytes, names: seq<bytes>) {
    if c.appMode == Ascii("manual") then names == c.remoteInterfaces
    else if LanIsTaken(ifs, raynet) then names == [Ascii("br-lan")]
    else
      exists k: nat :: && k < |ifs| && names == [ifs[k].name]
                       && forall j :: 0 <= j < |ifs| ==> (ServesApps(ifs[j]) <==> j == k)
  }

  /** The network is there, alive, and has an address of its own unless it is RayNet. */
  ghost predicate AppServes(ifs: seq<Interface>, raynet: bytes, name: bytes) {
    exists k: nat :: Named(ifs, name, k) && Alive(ifs[k]) && (|ifs[k].addresses| > 0 || name == raynet)
  }

  ghost predicate AppListIs(c: S.Settings, ifs: seq<Interface>, r: Resolved) {
    exists names, at ::
      && AppsAre(c, ifs, r.raynet, names) && S.FirstsAt(names, r.apps, at)
      && forall n :: n in names ==> AppServes(ifs, r.raynet, n)
  }

  ghost predicate ResolvesTo(c: S.Settings, ifs: seq<Interface>, r: Resolved) {
    && RayNetIs(c, ifs, r.raynet, r.cidr)
    && (exists k: nat :: Named(ifs, r.raynet, k) && Alive(ifs[k]))
    && r.apps != [] && AppListIs(c, ifs, r)
  }

  lemma AliveIff(i: Interface)
    ensures Usable(i) <==> Alive(i)
    ensures Suitable(i) <==> ServesApps(i)
  {}

  lemma RayNetIff(c: S.Settings, ifs: seq<Interface>, raynet: bytes, cidr: bytes)
    ensures RayNet(c, ifs) == Some((raynet, cidr)) <==> RayNetIs(c, ifs, raynet, cidr)
  {
    hide HasIP, HoldsAddress, LacksAddress, Named, S.Decimal, ByName;
    forall i | i in ifs
      ensures forall text :: HasIP(i, c.ip) == Some(text) <==> HoldsAddress(i, c.ip, text)
      ensures HasIP(i, c.ip).None? <==> LacksAddress(i, c.ip)
    {
      HasIPIff(i, c.ip);
    }
    assert Ascii("/") == [47];
    if c.raynetMode == AUTO {
      MatchesOnly(ifs, c.ip);
      if i: nat :| OnlyMatch(ifs, c.ip, i) {
        OnlyMatchInside(ifs, c.ip, i);
        assert Matches(ifs, c.ip) == [ifs[i]];
      }
      forall i: nat | i < |ifs| && HoldsAddress(ifs[i], c.ip, cidr)
                      && forall j :: 0 <= j < |ifs| && j != i ==> LacksAddress(ifs[j], c.ip)
        ensures OnlyMatch(ifs, c.ip, i)
      {}
    } else {
      ByNameIff(ifs, c.axiomInterface);
      ByNameKeys(ifs);
    }
  }

  lemma LanIff(ifs: seq<Interface>, raynet: bytes)
    ensures LanServes(ByName(ifs), raynet) <==> LanIsTaken(ifs, raynet)
  {
    hide Suitable, ServesApps, Usable, Alive, Named, ByName;
    ByNameIff(ifs, BR_LAN);
    ByNameKeys(ifs);
    forall i
      ensures Usable(i) <==> Alive(i)
      ensures Suitable(i) <==> ServesApps(i)
    {
      AliveIff(i);
    }
  }

  lemma AppsIff(c: S.Settings, ifs: seq<Interface>, raynet: bytes, names: seq<bytes>)
    ensures ChosenApps(c, ifs, raynet) == Some(names) <==> AppsAre(c, ifs, raynet, names)
  {
    hide Suitable, ServesApps, ByName, LanIsTaken, LanServes, BR_LAN;
    LanIff(ifs, raynet);
    CandidatesOnly(ifs);
    ByNameKeys(ifs);
    LanText();
    forall i
      ensures Suitable(i) <==> ServesApps(i)
    {
      AliveIff(i);
    }
    if LanServes(ByName(ifs), raynet) {
      LanIsNamed(ifs, raynet);
    }
    forall k: nat | k < |ifs| && forall j :: 0 <= j < |ifs| ==> (ServesApps(ifs[j]) <==> j == k)
      ensures OnlyCandidate(ifs, k)
    {}
  }

  lemma LanText()
    ensures BR_LAN == Ascii("br-lan")
  {}

  lemma LanIsNamed(ifs: seq<Interface>, raynet: bytes)
    requires LanServes(ByName(ifs), raynet)
    ensures BR_LAN in ByName(ifs)
  {}

  lemma AppIff(ifs: seq<Interface>, raynet: bytes, name: bytes)
    ensures AppOk(ByName(ifs), raynet, name) <==> AppServes(ifs, raynet, name)
  {
    hide Usable, Alive, Named, ByName;
    ByNameIff(ifs, name);
    forall i
      ensures Usable(i) <==> Alive(i)
    {
      AliveIff(i);
    }
  }

  lemma {:induction false} CheckedAreFirsts(named: map<bytes, Interface>, raynet: bytes, names: seq<bytes>)
    ensures var apps := CheckedApps(named, raynet, names); apps.Some? ==> apps.value == S.Distinct(names)
  {
    hide AppOk;
    if names != [] {
      CheckedAreFirsts(named, raynet, names[..|names| - 1]);
    }
  }

  lemma AppListIff(c: S.Settings, ifs: seq<Interface>, r: Resolved)
    ensures AppListIs(c, ifs, r) <==>
            var names := ChosenApps(c, ifs, r.raynet);
            names.Some? && CheckedApps(ByName(ifs), r.raynet, names.value) == Some(r.apps)
  {
    hide ChosenApps, AppsAre, AppServes, AppOk, CheckedApps, S.FirstsAt, ByName;
    forall n
      ensures AppOk(ByName(ifs), r.raynet, n) <==> AppServes(ifs, r.raynet, n)
    {
      AppIff(ifs, r.raynet, n);
    }
    forall names
      ensures ChosenApps(c, ifs, r.raynet) == Some(names) <==> AppsAre(c, ifs, r.raynet, names)
    {
      AppsIff(c, ifs, r.raynet, names);
    }
    var chosen := ChosenApps(c, ifs, r.raynet);
    if chosen.Some? {
      CheckedAppsIff(ByName(ifs), r.raynet, chosen.value);
      CheckedAreFirsts(ByName(ifs), r.raynet, chosen.value);
      var at := S.DistinctIsFirsts(chosen.value);
      forall bt | S.FirstsAt(chosen.value, r.apps, bt)
        ensures r.apps == S.Distinct(chosen.value)
      {
        S.FirstsAreDistinct(chosen.value, r.apps, bt);
      }
    }
  }

  /** Resolving gives exactly this answer, and refuses when there is none. */
  lemma ResolveIff(c: S.Settings, ifs: seq<Interface>, r: Resolved)
    ensures Resolve(c, ifs) == Some(r) <==> ResolvesTo(c, ifs, r)
  {
    hide RayNet, RayNetIs, ChosenApps, CheckedApps, AppListIs, Usable, Alive, Named, ByName;
    RayNetIff(c, ifs, r.raynet, r.cidr);
    AppListIff(c, ifs, r);
    ByNameIff(ifs, r.raynet);
    forall i
      ensures Usable(i) <==> Alive(i)
    {
      AliveIff(i);
    }
  }

  // ----- the engine -------------------------------------------------------------------------

  /** A running Avahi that reflects, or may: it must not run beside the built-in relay. */
  predicate Conflicts(a: Avahi) {
    a.running && !(!a.reflector && !a.unknown)
  }

  /** The discovery mode leaves the choice to the daemon. */
  predicate Undecided(mode: bytes) {
    mode != Ascii("disabled") && mode != Ascii("avahi") && mode != Ascii("builtin")
  }

  /**
   * The engine by mode: none to choose when every app network is RayNet; off when disabled; an eligible reflector when
   * asked for or left open; the built-in relay when asked for, or left open without one, and nothing conflicts.
   * The other cases are refused.
   */
  lemma EngineIff(mode: bytes, r: Resolved, a: Avahi)
    ensures var e := ChooseEngine(mode, r, a);
      var crosses := exists k :: 0 <= k < |r.apps| && r.apps[k] != r.raynet;
      && (e == Some(Engine(Direct, false)) <==> !crosses)
      && (e == Some(Engine(Off, false)) <==> crosses && mode == Ascii("disabled"))
      && (e == Some(Engine(External, false)) <==> crosses && a.eligible && (mode == Ascii("avahi") || Undecided(mode)))
      && (e == Some(Engine(Builtin, true)) <==>
            crosses && !Conflicts(a) && (mode == Ascii("builtin") || (Undecided(mode) && !a.eligible)))
      && (e.None? <==>
            crosses && (|| (mode == Ascii("avahi") && !a.eligible)
                        || (Conflicts(a) && (mode == Ascii("builtin") || (Undecided(mode) && !a.eligible)))))
  {
    assert |Ascii("disabled")| == 8 && |Ascii("avahi")| == 5 && |Ascii("builtin")| == 7;
  }

  /** An Avahi that relays for these networks: reflector on, IPv4 in use, every network covered, nothing filtered. */
  lemma EligibleIff(f: AvahiFile, r: Resolved)
    ensures var a := AvahiFrom(f, r);
      && a.running && !a.unknown && (a.reflector <==> SettingsRules.Switch(f.enableReflector, true))
      && (a.eligible <==>
            && SettingsRules.Switch(f.enableReflector, true) && f.useIPv4 != Ascii("no") && f.filters == []
            && forall n :: n in [r.raynet] + r.apps ==>
                             n != [] && n !in f.deny && (f.allow == [] || n in f.allow))
  {
    hide S.AsBool, SettingsRules.Switch;
    SettingsRules.AsBoolIff(f.enableReflector, true);
    forall n
      ensures n in [r.raynet] + r.apps <==> n == r.raynet || n in r.apps
    {}
    assert r.raynet in [r.raynet] + r.apps;
  }

  /** The engine's own decision: it relays between distinct networks when forced, or when nothing else reflects. */
  lemma RelayModeIff(mode: RelayMode, existingReflector: bool, distinct: bool)
    ensures DetermineRelayMode(mode, existingReflector, distinct) <==>
            distinct && mode != Disabled && !(mode == Automatic && existingReflector)
  {}
}
