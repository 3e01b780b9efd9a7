/**
 * Merging known devices into the observed list, with one index by MAC address and one by IP address.
 * Which texts are MAC or IP addresses is left to the two predicates of `Syntax`.
 */
module KnownDevices {
  import opened Bytes

  const MAX_DEVICES: nat := 256
  const VPN: bytes := Ascii("VPN")
  const VXLAN: bytes := Ascii("vxlan")
  const LAN: bytes := Ascii("LAN")
  const RECENTLY_SEEN: bytes := Ascii("recently_seen")

  datatype Device = Device(name: bytes, ip: bytes, mac: bytes, iface: bytes, connection: bytes, state: bytes,
           ssid: bytes)

  datatype Syntax = Syntax(macOk: bytes -> bool, ipOk: bytes -> bool)

  /** A lease or configured host, or a bridge table entry that was not filtered out. */
  datatype Source = Known(device: Device) | Bridge(mac: bytes, dev: bytes)

  datatype State = State(devices: seq<Device>, byMAC: map<bytes, nat>, byIP: map<bytes, nat>)

  // ----- building the indexes ---------------------------------------------------------------

  function IndexMAC(ds: seq<Device>): map<bytes, nat> {
    if ds == [] then map[]
    else
      var before, n := IndexMAC(ds[..|ds| - 1]), |ds| - 1;
      if ds[n].mac == [] then before else before[ds[n].mac := n]
  }

  function IndexIP(ds: seq<Device>): map<bytes, nat> {
    if ds == [] then map[]
    else
      var before, n := IndexIP(ds[..|ds| - 1]), |ds| - 1;
      if ds[n].ip == [] then before else before[ds[n].ip := n]
  }

  function Initial(ds: seq<Device>): State {
    State(ds, IndexMAC(ds), IndexIP(ds))
  }

  // ----- one source -------------------------------------------------------------------------

  /** The device a source stands for, if it is in an index: by MAC first, then by IP. */
  function Lookup(s: State, d: Device): Option<nat> {
    if d.mac != [] && d.mac in s.byMAC then Some(s.byMAC[d.mac])
    else if d.ip != [] && d.ip in s.byIP then Some(s.byIP[d.ip])
    else None
  }

  function Filled(was: Device, d: Device): Device {
    was.(name := if was.name == [] then d.name else was.name, ip := if was.ip == [] then d.ip else was.ip)
  }

  function Add(s: State, given: Device, syntax: Syntax): State {
    var d := given.(mac := Lower(given.mac));
    if !syntax.macOk(d.mac) && !syntax.ipOk(d.ip) then s
    else
      var at := Lookup(s, d);
      if at.Some? then
        if at.value < |s.devices| then s.(devices := s.devices[at.value := Filled(s.devices[at.value], d)]) else s
      else if |s.devices| >= MAX_DEVICES then s
      else
        State(s.devices + [d],
              if d.mac != [] then s.byMAC[d.mac := |s.devices|] else s.byMAC,
              if d.ip != [] then s.byIP[d.ip := |s.devices|] else s.byIP)
  }

  predicate Tunnel(dev: bytes) {
    |VXLAN| <= |dev| && dev[..|VXLAN|] == VXLAN
  }

  function Seen(mac: bytes, dev: bytes): Device {
    Device([], [], mac, dev, LAN, RECENTLY_SEEN, [])
  }

  function Step(s: State, src: Source, syntax: Syntax): State {
    match src
    case Known(d) => Add(s, d, syntax)
    case Bridge(given, dev) =>
      var mac := Lower(given);
      if mac in s.byMAC then
        if Tunnel(dev) && s.byMAC[mac] < |s.devices| then
          s.(devices := s.devices[s.byMAC[mac] := s.devices[s.byMAC[mac]].(connection := VPN)])
        else s
      else Add(s, Seen(mac, dev), syntax)
  }

  function Merged(s: State, srcs: seq<Source>, syntax: Syntax): State {
    if srcs == [] then s else Step(Merged(s, srcs[..|srcs| - 1], syntax), srcs[|srcs| - 1], syntax)
  }

  // ----- the indexes agree with the list ----------------------------------------------------

  /** Sound: every entry points at a device with that address. Complete: every address has an entry. */
  ghost predicate MACSound(s: State) {
    forall m :: m in s.byMAC ==> m != [] && s.byMAC[m] < |s.devices| && s.devices[s.byMAC[m]].mac == m
  }

  ghost predicate MACComplete(s: State) {
    forall i :: 0 <= i < |s.devices| && s.devices[i].mac != [] ==> s.devices[i].mac in s.byMAC
  }

  ghost predicate IPSound(s: State) {
    forall a :: a in s.byIP ==> a != [] && s.byIP[a] < |s.devices| && s.devices[s.byIP[a]].ip == a
  }

  ghost predicate Indexed(s: State) {
    MACSound(s) && MACComplete(s) && IPSound(s)
  }

  ghost predicate DistinctMACs(ds: seq<Device>) {
    forall i, j :: 0 <= i < j < |ds| && ds[i].mac != [] ==> ds[i].mac != ds[j].mac
  }

  class Merger {
    var devices: seq<Device>
    var byMAC: map<bytes, nat>
    var byIP: map<bytes, nat>

    constructor (ds: seq<Device>)
      ensures Abstract() == Initial(ds)
    {
      devices, byMAC, byIP := ds, map[], map[];
      new;
      assert ds[..0] == [];
      for i := 0 to |ds|
        invariant devices == ds
        invariant byMAC == IndexMAC(ds[..i]) && byIP == IndexIP(ds[..i])
      {
        assert ds[..i + 1][..i] == ds[..i];
        if ds[i].mac != [] {
          byMAC := byMAC[ds[i].mac := i];
        }
        if ds[i].ip != [] {
          byIP := byIP[ds[i].ip := i];
        }
      }
      assert ds[..|ds|] == ds;
    }

    function Abstract(): State
      reads this
    {
      State(devices, byMAC, byIP)
    }

    method AddDevice(given: Device, syntax: Syntax)
      requires Indexed(Abstract())
      modifies this
      ensures Abstract() == Add(old(Abstract()), given, syntax)
    {
      var d := given.(mac := Lower(given.mac));
      if !syntax.macOk(d.mac) && !syntax.ipOk(d.ip) {
        return;
      }
      var found := d.mac != [] && d.mac in byMAC;
      var idx := if found then byMAC[d.mac] else 0;
      if !found && d.ip != [] && d.ip in byIP {
        found, idx := true, byIP[d.ip];
      }
      if found {
        if devices[idx].name == [] {
          devices := devices[idx := devices[idx].(name := d.name)];
        }
        if devices[idx].ip == [] {
          devices := devices[idx := devices[idx].(ip := d.ip)];
        }
        return;
      }
      if |devices| >= MAX_DEVICES {
        return;
      }
      if d.mac != [] {
        byMAC := byMAC[d.mac := |devices|];
      }
      if d.ip != [] {
        byIP := byIP[d.ip := |devices|];
      }
      devices := devices + [d];
    }

    method Merge(srcs: seq<Source>, syntax: Syntax)
      requires Indexed(Abstract())
      modifies this
      ensures Abstract() == Merged(old(Abstract()), srcs, syntax)
      ensures Indexed(Abstract())
    {
      hide Indexed, Add;
      assert srcs[..0] == [];
      for i := 0 to |srcs|
        invariant Abstract() == Merged(old(Abstract()), srcs[..i], syntax)
        invariant Indexed(Abstract())
      {
        StepKeepsIndexes(Abstract(), srcs[i], syntax);
        assert srcs[..i + 1][..i] == srcs[..i];
        match srcs[i] {
          case Known(d) => AddDevice(d, syntax);
          case Bridge(given, dev) =>
            var mac := Lower(given);
            if mac in byMAC {
              IndexInRange(Abstract(), mac);
              if Tunnel(dev) {
                devices := devices[byMAC[mac] := devices[byMAC[mac]].(connection := VPN)];
              }
            } else {
              AddDevice(Seen(mac, dev), syntax);
              LowerTwice(given);
            }
        }
      }
      assert srcs[..|srcs|] == srcs;
    }
  }

  lemma IndexInRange(s: State, mac: bytes)
    requires Indexed(s) && mac in s.byMAC
    ensures s.byMAC[mac] < |s.devices|
  {}

  lemma {:induction false} InitialIndexed(ds: seq<Device>)
    ensures Indexed(Initial(ds))
  {
    if ds != [] {
      var before := ds[..|ds| - 1];
      InitialIndexed(before);
      assert ds == before + [ds[|ds| - 1]];
      var b, s := Initial(before), Initial(ds);
      assert forall m :: m in b.byMAC ==> ds[b.byMAC[m]] == before[b.byMAC[m]];
      assert forall a :: a in b.byIP ==> ds[b.byIP[a]] == before[b.byIP[a]];
      forall i | 0 <= i < |ds| && ds[i].mac != []
        ensures ds[i].mac in s.byMAC
      {
        if i < |before| {
          assert ds[i] == before[i];
        }
      }
    }
  }

  lemma FilledKeepsIndexes(s: State, i: nat, d: Device)
    requires Indexed(s) && i < |s.devices|
    ensures Indexed(s.(devices := s.devices[i := Filled(s.devices[i], d)]))
  {
    var t := s.(devices := s.devices[i := Filled(s.devices[i], d)]);
    assert forall k :: 0 <= k < |s.devices| ==> t.devices[k].mac == s.devices[k].mac;
    assert forall k :: 0 <= k < |s.devices| && s.devices[k].ip != [] ==> t.devices[k].ip == s.devices[k].ip;
  }

  lemma AppendedKeepsIndexes(s: State, d: Device)
    requires Indexed(s)
    ensures Indexed(State(s.devices + [d],
                          if d.mac != [] then s.byMAC[d.mac := |s.devices|] else s.byMAC,
                          if d.ip != [] then s.byIP[d.ip := |s.devices|] else s.byIP))
  {
    var ds := s.devices + [d];
    assert forall k :: 0 <= k < |s.devices| ==> ds[k] == s.devices[k];
  }

  lemma AddKeepsIndexes(s: State, given: Device, syntax: Syntax)
    requires Indexed(s)
    ensures Indexed(Add(s, given, syntax))
  {
    hide Lower, Indexed, Filled, Lookup;
    var d := given.(mac := Lower(given.mac));
    var at := Lookup(s, d);
    if at.Some? && at.value < |s.devices| {
      FilledKeepsIndexes(s, at.value, d);
    }
    AppendedKeepsIndexes(s, d);
  }

  lemma StepKeepsIndexes(s: State, src: Source, syntax: Syntax)
    requires Indexed(s)
    ensures Indexed(Step(s, src, syntax))
  {
    hide Lower, Add, Tunnel;
    match src {
      case Known(d) => AddKeepsIndexes(s, d, syntax);
      case Bridge(given, dev) =>
        AddKeepsIndexes(s, Seen(Lower(given), dev), syntax);
        var t := Step(s, src, syntax);
        if Lower(given) in s.byMAC {
          assert |t.devices| == |s.devices|;
          assert forall i :: 0 <= i < |s.devices| ==>
                               t.devices[i].mac == s.devices[i].mac && t.devices[i].ip == s.devices[i].ip;
        }
    }
  }

  // ----- what one source does -----------------------------------------------------------------

  /** `t` is `s` with the name and the address of device `i` filled in where they were missing, and nothing else. */
  ghost predicate FilledIn(s: seq<Device>, t: seq<Device>, i: nat, name: bytes, ip: bytes)
    requires i < |s|
  {
    && |t| == |s| && (forall j :: 0 <= j < |s| && j != i ==> t[j] == s[j])
    && t[i] == s[i].(name := t[i].name, ip := t[i].ip)
    && t[i].name == (if s[i].name != [] then s[i].name else name)
    && t[i].ip == (if s[i].ip != [] then s[i].ip else ip)
  }

  /** The indexes start with the last device of each address. */
  lemma {:induction false} IndexIs(ds: seq<Device>, i: nat)
    requires i < |ds|
    ensures ds[i].mac != [] && (forall j :: i < j < |ds| ==> ds[j].mac != ds[i].mac) ==>
              ds[i].mac in Initial(ds).byMAC && Initial(ds).byMAC[ds[i].mac] == i
    ensures ds[i].ip != [] && (forall j :: i < j < |ds| ==> ds[j].ip != ds[i].ip) ==>
              ds[i].ip in Initial(ds).byIP && Initial(ds).byIP[ds[i].ip] == i
    decreases |ds|
  {
    if i < |ds| - 1 {
      var before := ds[..|ds| - 1];
      assert forall j :: 0 <= j < |before| ==> before[j] == ds[j];
      IndexIs(before, i);
    }
  }

  /**
   * A device without a proper MAC or IP address is passed over. Otherwise its MAC address, in small letters, finds a
   * device, or else its IP address does, and that one is filled in; a device found by neither is appended while there
   * are fewer than 256.
   */
  lemma AddIs(s: State, given: Device, syntax: Syntax)
    requires Indexed(s)
    ensures var t, mac, ip := Add(s, given, syntax), Lower(given.mac), given.ip;
      var proper := syntax.macOk(mac) || syntax.ipOk(ip);
      && (!proper || t.devices != s.devices + [given.(mac := mac)] ==> t.byMAC == s.byMAC && t.byIP == s.byIP)
      && (!proper ==> t.devices == s.devices)
      && (proper && mac != [] && mac in s.byMAC ==> FilledIn(s.devices, t.devices, s.byMAC[mac], given.name, ip))
      && (proper && !(mac != [] && mac in s.byMAC) && ip != [] && ip in s.byIP ==>
            FilledIn(s.devices, t.devices, s.byIP[ip], given.name, ip))
      && (proper && !(mac != [] && mac in s.byMAC) && !(ip != [] && ip in s.byIP) ==>
            if |s.devices| >= 256 then t.devices == s.devices
            else
              && t.devices == s.devices + [given.(mac := mac)]
              && t.byMAC == (if mac == [] then s.byMAC else s.byMAC[mac := |s.devices|])
              && t.byIP == (if ip == [] then s.byIP else s.byIP[ip := |s.devices|]))
  {
    hide Lower;
  }

  /**
   * A bridge entry of a known MAC address only tells where the device is: behind the VPN if the port is a tunnel.
   * Another one is added as a recently seen device of the LAN, without name and IP address.
   */
  lemma BridgeIs(s: State, given: bytes, dev: bytes, syntax: Syntax)
    requires Indexed(s)
    ensures var t, mac := Step(s, Bridge(given, dev), syntax), Lower(given);
      && (mac !in s.byMAC ==>
            t == Add(s, Device([], [], mac, dev, Ascii("LAN"), Ascii("recently_seen"), []), syntax))
      && (mac in s.byMAC && !(exists rest :: dev == Ascii("vxlan") + rest) ==> t == s)
      && (mac in s.byMAC && (exists rest :: dev == Ascii("vxlan") + rest) ==>
            var i := s.byMAC[mac];
            && i < |s.devices| && t.byMAC == s.byMAC && t.byIP == s.byIP
            && t.devices == s.devices[i := s.devices[i].(connection := Ascii("VPN"))])
  {
    hide Lower, Add;
    if Tunnel(dev) {
      assert dev == Ascii("vxlan") + dev[5..];
    }
    if rest :| dev == Ascii("vxlan") + rest {
      assert dev[..5] == Ascii("vxlan");
    }
  }

  // ----- nothing is lost --------------------------------------------------------------------

  /** The device `b` is `a`, perhaps with a missing name or address filled in or found behind the tunnel. */
  predicate Refines(a: Device, b: Device) {
    && b.mac == a.mac && b.iface == a.iface && b.state == a.state && b.ssid == a.ssid
    && (a.name != [] ==> b.name == a.name)
    && (a.ip != [] ==> b.ip == a.ip)
    && (b.connection == a.connection || b.connection == VPN)
  }

  /** `t` keeps every device of `s` in place and only appends devices with new MAC addresses. */
  ghost predicate Keeps(s: seq<Device>, t: seq<Device>) {
    && |s| <= |t| && (|s| <= 256 ==> |t| <= 256) && (|s| > 256 ==> |t| == |s|)
    && (forall i :: 0 <= i < |s| ==> Refines(s[i], t[i]))
    && (forall i, j :: 0 <= i < j < |t| && |s| <= j && t[j].mac != [] ==> t[i].mac != t[j].mac)
  }

  lemma KeepsTrans(s: seq<Device>, t: seq<Device>, u: seq<Device>)
    requires Keeps(s, t) && Keeps(t, u)
    ensures Keeps(s, u)
  {
    forall i, j | 0 <= i < j < |u| && |s| <= j && u[j].mac != []
      ensures u[i].mac != u[j].mac
    {
      if j < |t| {
        assert Refines(t[i], u[i]) && Refines(t[j], u[j]);
      }
    }
  }

  lemma AddKeeps(s: State, given: Device, syntax: Syntax)
    requires Indexed(s)
    ensures Keeps(s.devices, Add(s, given, syntax).devices)
  {
    hide Lower;
    var d := given.(mac := Lower(given.mac));
    var t := Add(s, given, syntax);
    if |t.devices| > |s.devices| && d.mac != [] {
      assert forall i :: 0 <= i < |s.devices| ==> s.devices[i].mac != d.mac;
    }
  }

  lemma StepKeeps(s: State, src: Source, syntax: Syntax)
    requires Indexed(s)
    ensures Keeps(s.devices, Step(s, src, syntax).devices)
  {
    hide Lower, Add, Tunnel;
    match src {
      case Known(d) => AddKeeps(s, d, syntax);
      case Bridge(given, dev) => AddKeeps(s, Seen(Lower(given), dev), syntax);
    }
  }

  /**
   * For every list and every sequence of sources: both indexes point where they say, the MAC index misses
   * no device, no device is dropped, renamed or re-addressed, no new duplicate appears, the bound holds.
   */
  lemma {:induction false} MergeKeepsEverything(ds: seq<Device>, srcs: seq<Source>, syntax: Syntax)
    ensures Indexed(Merged(Initial(ds), srcs, syntax))
    ensures Keeps(ds, Merged(Initial(ds), srcs, syntax).devices)
  {
    hide Indexed, Keeps, Step, Initial;
    if srcs == [] {
      InitialIndexed(ds);
      assert Keeps(ds, ds) by {
        KeepsSame(ds);
      }
      assert Initial(ds).devices == ds by {
        InitialDevices(ds);
      }
    } else {
      var before := Merged(Initial(ds), srcs[..|srcs| - 1], syntax);
      MergeKeepsEverything(ds, srcs[..|srcs| - 1], syntax);
      StepKeepsIndexes(before, srcs[|srcs| - 1], syntax);
      StepKeeps(before, srcs[|srcs| - 1], syntax);
      KeepsTrans(ds, before.devices, Merged(Initial(ds), srcs, syntax).devices);
    }
  }

  lemma KeepsSame(ds: seq<Device>)
    ensures Keeps(ds, ds)
  {}

  lemma InitialDevices(ds: seq<Device>)
    ensures Initial(ds).devices == ds
  {}

  /** MAC addresses are distinct afterwards exactly if they were before, and then the index is the list. */
  lemma DistinctIffBefore(ds: seq<Device>, srcs: seq<Source>, syntax: Syntax)
    ensures var s := Merged(Initial(ds), srcs, syntax);
            && (DistinctMACs(s.devices) <==> DistinctMACs(ds))
            && (DistinctMACs(ds) ==>
                  forall i :: 0 <= i < |s.devices| && s.devices[i].mac != [] ==>
                                s.devices[i].mac in s.byMAC && s.byMAC[s.devices[i].mac] == i)
  {
    hide Merged, Initial;
    MergeKeepsEverything(ds, srcs, syntax);
    var s := Merged(Initial(ds), srcs, syntax);
    var t := s.devices;
    assert forall i :: 0 <= i < |ds| ==> Refines(ds[i], t[i]) && t[i].mac == ds[i].mac;
    if DistinctMACs(ds) {
      forall i | 0 <= i < |t| && t[i].mac != []
        ensures t[i].mac in s.byMAC && s.byMAC[t[i].mac] == i
      {
        var j := s.byMAC[t[i].mac];
        assert t[j].mac == t[i].mac;
      }
    }
  }

  // ----- every source is in the result --------------------------------------------------------

  /** Some device has the MAC or the IP address, as far as they are given. */
  ghost predicate Present(ds: seq<Device>, mac: bytes, ip: bytes) {
    exists i :: 0 <= i < |ds| && ((mac != [] && ds[i].mac == mac) || (ip != [] && ds[i].ip == ip))
  }

  function MACOf(src: Source): bytes {
    Lower(if src.Known? then src.device.mac else src.mac)
  }

  function IPOf(src: Source): bytes {
    if src.Known? then src.device.ip else []
  }

  predicate Acceptable(src: Source, syntax: Syntax) {
    syntax.macOk(MACOf(src)) || syntax.ipOk(IPOf(src))
  }

  lemma PresentKept(s: seq<Device>, t: seq<Device>, mac: bytes, ip: bytes)
    requires Keeps(s, t) && Present(s, mac, ip)
    ensures Present(t, mac, ip)
  {
    var i :| 0 <= i < |s| && ((mac != [] && s[i].mac == mac) || (ip != [] && s[i].ip == ip));
    assert Refines(s[i], t[i]);
  }

  lemma StepPresent(s: State, src: Source, syntax: Syntax)
    requires Indexed(s) && Acceptable(src, syntax) && !syntax.macOk([]) && !syntax.ipOk([])
    ensures var ds := Step(s, src, syntax).devices; |ds| >= MAX_DEVICES || Present(ds, MACOf(src), IPOf(src))
  {
    hide Tunnel;
    LowerTwice(if src.Known? then src.device.mac else src.mac);
    var t := Step(s, src, syntax);
    var mac, ip := MACOf(src), IPOf(src);
    if |t.devices| > |s.devices| {
      assert t.devices[|s.devices|].mac == mac && t.devices[|s.devices|].ip == ip;
    } else if mac != [] && mac in s.byMAC {
      assert t.devices[s.byMAC[mac]].mac == mac;
    } else if ip != [] && ip in s.byIP {
      assert t.devices[s.byIP[ip]].ip == ip;
    }
  }

  /** Every acceptable source is found in the merged list by its MAC or its IP address, unless the list is full. */
  lemma {:induction false} NothingIsLeftOut(ds: seq<Device>, srcs: seq<Source>, syntax: Syntax, k: nat)
    requires k < |srcs| && Acceptable(srcs[k], syntax) && !syntax.macOk([]) && !syntax.ipOk([])
    ensures var t := Merged(Initial(ds), srcs, syntax).devices;
            |t| >= 256 || Present(t, MACOf(srcs[k]), IPOf(srcs[k]))
    decreases |srcs|
  {
    hide Indexed, Keeps, Step, Initial, Present, Acceptable;
    var n := |srcs| - 1;
    var s := Merged(Initial(ds), srcs[..n], syntax);
    MergeKeepsEverything(ds, srcs[..n], syntax);
    StepKeeps(s, srcs[n], syntax);
    LongerKept(s.devices, Step(s, srcs[n], syntax).devices);
    if k == n {
      StepPresent(s, srcs[n], syntax);
    } else {
      NothingIsLeftOut(ds, srcs[..n], syntax, k);
      if |s.devices| < MAX_DEVICES {
        PresentKept(s.devices, Step(s, srcs[n], syntax).devices, MACOf(srcs[k]), IPOf(srcs[k]));
      }
    }
  }

  lemma LongerKept(s: seq<Device>, t: seq<Device>)
    requires Keeps(s, t)
    ensures |s| <= |t|
  {}

  // ----- when the IP index is complete ---------------------------------------------------------

  ghost predicate IPComplete(s: State) {
    forall i :: 0 <= i < |s.devices| && s.devices[i].ip != [] ==> s.devices[i].ip in s.byIP
  }

  /** The source fills a missing address into a device found by MAC, and no device is indexed under that address. */
  predicate FillsUnindexed(s: State, src: Source, syntax: Syntax) {
    && src.Known? && Acceptable(src, syntax)
    && MACOf(src) != [] && MACOf(src) in s.byMAC && s.byMAC[MACOf(src)] < |s.devices|
    && s.devices[s.byMAC[MACOf(src)]].ip == []
    && IPOf(src) != [] && IPOf(src) !in s.byIP
  }

  lemma {:induction false} InitialIPComplete(ds: seq<Device>)
    ensures IPComplete(Initial(ds))
  {
    if ds != [] {
      var before := ds[..|ds| - 1];
      InitialIPComplete(before);
      forall i | 0 <= i < |ds| && ds[i].ip != []
        ensures ds[i].ip in Initial(ds).byIP
      {
        assert i < |before| ==> Initial(before).devices[i] == ds[i];
      }
    }
  }

  /** An addition that changes the list without filling a gap: by MAC, by IP, or at the end. */
  lemma AddKeepsIPComplete(s: State, given: Device, syntax: Syntax)
    requires Indexed(s) && IPComplete(s) && !FillsUnindexed(s, Known(given), syntax)
    ensures IPComplete(Add(s, given, syntax))
  {
    hide Lower;
    var t := Add(s, given, syntax);
    forall i | 0 <= i < |t.devices| && t.devices[i].ip != []
      ensures t.devices[i].ip in t.byIP
    {
      assert i < |s.devices| && t.devices[i].ip == s.devices[i].ip ==> s.devices[i].ip in s.byIP;
    }
  }

  lemma SeenFillsNothing(s: State, mac: bytes, dev: bytes, syntax: Syntax)
    ensures !FillsUnindexed(s, Known(Seen(mac, dev)), syntax)
  {
    hide Lower;
  }

  lemma TunnelKeepsIPComplete(s: State, i: nat)
    requires IPComplete(s) && i < |s.devices|
    ensures IPComplete(s.(devices := s.devices[i := s.devices[i].(connection := VPN)]))
  {
    var t := s.(devices := s.devices[i := s.devices[i].(connection := VPN)]);
    assert forall k :: 0 <= k < |s.devices| ==> t.devices[k].ip == s.devices[k].ip;
  }

  /** One source keeps the IP index complete exactly unless it fills in an address that is not indexed. */
  lemma StepKeepsIPCompleteIff(s: State, src: Source, syntax: Syntax)
    requires Indexed(s) && IPComplete(s)
    ensures IPComplete(Step(s, src, syntax)) <==> !FillsUnindexed(s, src, syntax)
  {
    hide Lower, Tunnel, Add, FillsUnindexed, Indexed, IPComplete;
    if FillsUnindexed(s, src, syntax) {
      FilledAddressNotIndexed(s, src, syntax);
      GapShows(s, Step(s, src, syntax), src, syntax);
    } else {
      match src {
        case Known(d) => AddKeepsIPComplete(s, d, syntax);
        case Bridge(given, dev) =>
          FillsOnlyKnown(s, src, syntax);
          SeenFillsNothing(s, Lower(given), dev, syntax);
          AddKeepsIPComplete(s, Seen(Lower(given), dev), syntax);
          if Lower(given) in s.byMAC && s.byMAC[Lower(given)] < |s.devices| {
            TunnelKeepsIPComplete(s, s.byMAC[Lower(given)]);
          }
      }
    }
  }

  lemma FillsOnlyKnown(s: State, src: Source, syntax: Syntax)
    ensures FillsUnindexed(s, src, syntax) ==> src.Known?
  {
    hide Lower;
  }

  lemma GapShows(s: State, t: State, src: Source, syntax: Syntax)
    requires FillsUnindexed(s, src, syntax) && |t.devices| == |s.devices|
    requires t.devices[s.byMAC[MACOf(src)]].ip == IPOf(src) && IPOf(src) !in t.byIP
    ensures !IPComplete(t)
  {
    hide Lower;
  }

  /** The first `n` sources leave a complete IP index. */
  ghost predicate CompleteAfter(ds: seq<Device>, srcs: seq<Source>, n: nat, syntax: Syntax)
    requires n <= |srcs|
  {
    IPComplete(Merged(Initial(ds), srcs[..n], syntax))
  }

  ghost predicate FillsAt(ds: seq<Device>, srcs: seq<Source>, n: nat, syntax: Syntax)
    requires n < |srcs|
  {
    FillsUnindexed(Merged(Initial(ds), srcs[..n], syntax), srcs[n], syntax)
  }

  lemma MergedNext(ds: seq<Device>, srcs: seq<Source>, n: nat, syntax: Syntax)
    requires n < |srcs|
    ensures Indexed(Merged(Initial(ds), srcs[..n], syntax))
    ensures Merged(Initial(ds), srcs[..n + 1], syntax) == Step(Merged(Initial(ds), srcs[..n], syntax), srcs[n], syntax)
  {
    hide Indexed, Keeps, Step;
    MergeKeepsEverything(ds, srcs[..n], syntax);
    assert srcs[..n + 1][..n] == srcs[..n];
  }

  /**
   * For every list and sources: the IP index is complete throughout the merge exactly if no source fills in an
   * unindexed address.
   */
  lemma CompleteThroughoutIff(ds: seq<Device>, srcs: seq<Source>, syntax: Syntax)
    ensures (forall n :: 0 <= n <= |srcs| ==> CompleteAfter(ds, srcs, n, syntax)) <==>
            (forall n :: 0 <= n < |srcs| ==> !FillsAt(ds, srcs, n, syntax))
  {
    hide Indexed, IPComplete, FillsUnindexed, Merged, Initial, Step;
    if forall n :: 0 <= n < |srcs| ==> !FillsAt(ds, srcs, n, syntax) {
      assert CompleteAfter(ds, srcs, 0, syntax) by {
        InitialIPComplete(ds);
        NothingMerged(ds, srcs, syntax);
      }
      for n := 0 to |srcs|
        invariant forall k :: 0 <= k <= n ==> CompleteAfter(ds, srcs, k, syntax)
      {
        assert !FillsAt(ds, srcs, n, syntax) && CompleteAfter(ds, srcs, n, syntax);
        MergedNext(ds, srcs, n, syntax);
        StepKeepsIPCompleteIff(Merged(Initial(ds), srcs[..n], syntax), srcs[n], syntax);
        assert CompleteAfter(ds, srcs, n + 1, syntax);
      }
    } else {
      var n :| 0 <= n < |srcs| && FillsAt(ds, srcs, n, syntax);
      MergedNext(ds, srcs, n, syntax);
      if CompleteAfter(ds, srcs, n, syntax) {
        StepKeepsIPCompleteIff(Merged(Initial(ds), srcs[..n], syntax), srcs[n], syntax);
        assert !CompleteAfter(ds, srcs, n + 1, syntax);
      }
    }
  }

  lemma NothingMerged(ds: seq<Device>, srcs: seq<Source>, syntax: Syntax)
    ensures Merged(Initial(ds), srcs[..0], syntax) == Initial(ds)
  {}

  lemma FilledAddressNotIndexed(s: State, src: Source, syntax: Syntax)
    requires Indexed(s) && FillsUnindexed(s, src, syntax)
    ensures var t := Step(s, src, syntax);
      |t.devices| == |s.devices| && t.devices[s.byMAC[MACOf(src)]].ip == IPOf(src) && IPOf(src) !in t.byIP
  {
    hide Lower;
  }

  ghost predicate SharedIP(ds: seq<Device>, a: bytes) {
    exists i, j :: 0 <= i < j < |ds| && ds[i].ip == a && ds[j].ip == a
  }

  /**
   * What a gap costs: after a source has filled in the unindexed address, the next one with that address
   * and a MAC of its own is appended as a second device of the same address.
   */
  lemma GapMakesDuplicate(s: State, fills: Source, later: Source, syntax: Syntax)
    requires Indexed(s) && FillsUnindexed(s, fills, syntax) && |s.devices| < MAX_DEVICES
    requires later.Known? && Acceptable(later, syntax) && IPOf(later) == IPOf(fills)
    requires MACOf(later) !in s.byMAC
    ensures var t := Step(Step(s, fills, syntax), later, syntax);
      |t.devices| == |s.devices| + 1 && SharedIP(t.devices, IPOf(fills))
  {
    hide Lower;
    var t := Step(Step(s, fills, syntax), later, syntax);
    var i := s.byMAC[MACOf(fills)];
    assert Step(s, fills, syntax).devices[i].ip == IPOf(fills);
    assert t.devices[i].ip == IPOf(fills) && t.devices[|s.devices|].ip == IPOf(later);
  }

  const FIRST_MAC: bytes := Ascii("02:00:00:00:00:01")
  const SECOND_MAC: bytes := Ascii("02:00:00:00:00:02")
  const SOME_IP: bytes := Ascii("192.168.4.20")

  function Lease(mac: bytes): Source {
    Known(Device([], SOME_IP, mac, [], LAN, Ascii("known"), []))
  }

  /**
   * A device known by its MAC only and two leases of one address: the first leaves the gap, the second the
   * duplicate.
   */
  lemma GapExample(syntax: Syntax)
    requires syntax.macOk(FIRST_MAC) && syntax.macOk(SECOND_MAC)
    ensures var ds, srcs := [Seen(FIRST_MAC, [])], [Lease(FIRST_MAC), Lease(SECOND_MAC)];
      && CompleteAfter(ds, srcs, 0, syntax) && FillsAt(ds, srcs, 0, syntax) && !CompleteAfter(ds, srcs, 1, syntax)
      && |Merged(Initial(ds), srcs, syntax).devices| == 2
      && SharedIP(Merged(Initial(ds), srcs, syntax).devices, SOME_IP)
  {
    hide FIRST_MAC, SECOND_MAC, SOME_IP, Indexed, SharedIP, Step, Initial, IPComplete, FillsUnindexed, Merged;
    var ds, srcs := [Seen(FIRST_MAC, [])], [Lease(FIRST_MAC), Lease(SECOND_MAC)];
    ExampleTexts();
    var s := Initial(ds);
    assert s.byMAC == map[FIRST_MAC := 0] && s.byIP == map[] && s.devices == ds by {
      OneDevice(FIRST_MAC);
    }
    InitialIndexed(ds);
    InitialIPComplete(ds);
    NothingMerged(ds, srcs, syntax);
    MergedNext(ds, srcs, 0, syntax);
    MergedNext(ds, srcs, 1, syntax);
    assert srcs[..2] == srcs;
    assert FillsUnindexed(s, srcs[0], syntax) by {
      ExampleFills(s, syntax);
    }
    StepKeepsIPCompleteIff(s, srcs[0], syntax);
    GapMakesDuplicate(s, srcs[0], srcs[1], syntax);
    assert CompleteAfter(ds, srcs, 0, syntax) && FillsAt(ds, srcs, 0, syntax) && !CompleteAfter(ds, srcs, 1, syntax);
  }

  lemma ExampleFills(s: State, syntax: Syntax)
    requires s == State([Seen(FIRST_MAC, [])], map[FIRST_MAC := 0], map[]) && syntax.macOk(FIRST_MAC)
    ensures FillsUnindexed(s, Lease(FIRST_MAC), syntax)
  {
    hide FIRST_MAC, SECOND_MAC, SOME_IP;
    ExampleTexts();
  }

  lemma ExampleTexts()
    ensures Lower(FIRST_MAC) == FIRST_MAC && Lower(SECOND_MAC) == SECOND_MAC
    ensures FIRST_MAC != [] && SECOND_MAC != FIRST_MAC && SOME_IP != []
  {
    assert FIRST_MAC[16] == 49 && SECOND_MAC[16] == 50;
  }

  lemma OneDevice(mac: bytes)
    requires mac != []
    ensures Initial([Seen(mac, [])]) == State([Seen(mac, [])], map[mac := 0], map[])
  {
    var ds := [Seen(mac, [])];
    assert ds[..0] == [];
    assert IndexMAC(ds) == map[][mac := 0] && IndexIP(ds) == map[];
  }
}
