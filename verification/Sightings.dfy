/**
 * What one response makes of a single instance, host and display entry, said of its records: of the records about an
 * instance or a host the last one decides, and only what the packet speaks of can be put on display.
 */
module Sightings {
  import opened Bytes
  import opened Clock
  import opened DnsMessages
  import opened NameCache
  import opened ServicePolicy
  import opened RelayFilter
  import opened Observation

  // ----- instances --------------------------------------------------------------------------

  ghost predicate MfdInstance(n: bytes) {
    || LiesIn(n, Ascii("_rtsp._tcp.local")) || LiesIn(n, Ascii("_rym_rrc._tcp.local"))
    || LiesIn(n, Ascii("_raydb._tcp.local"))
  }

  /** A class IN pointer from an MFD type to `k`. */
  ghost predicate PointsAt(r: Record, k: bytes) {
    && (r.cls == 1 || r.cls == 0x8001) && r.typ == 12 && r.target == k
    && r.name in {Ascii("_rtsp._tcp.local"), Ascii("_rym_rrc._tcp.local"), Ascii("_raydb._tcp.local")}
  }

  /** The class IN service record of the MFD instance `k`. */
  ghost predicate Serves(r: Record, k: bytes) {
    (r.cls == 1 || r.cls == 0x8001) && r.typ == 33 && r.name == k && MfdInstance(k)
  }

  ghost predicate About(r: Record, k: bytes) {
    PointsAt(r, k) || Serves(r, k)
  }

  lemma MfdInstanceIff(n: bytes)
    ensures MfdType(ServiceForName(n)) <==> MfdInstance(n)
  {
    hide LiesIn, ServiceForName;
    NotBrowse();
    ServiceForNameIff(n, RTSP);
    ServiceForNameIff(n, RYM);
    ServiceForNameIff(n, RAYDB);
  }

  lemma NotBrowse()
    ensures RTSP != BROWSE && RYM != BROWSE && RAYDB != BROWSE
  {
    assert RTSP[1] == 114 && RYM[1] == 114 && RAYDB[1] == 114 && BROWSE[1] == 115;
  }

  lemma AboutIff(r: Record)
    ensures IsPointer(r) <==> PointsAt(r, r.target)
    ensures IsService(r) <==> Serves(r, r.name)
  {
    hide MfdType, PlainClass, ServiceForName, MfdInstance;
    InternetClassIff(r.cls);
    TypesAreApart(r.name);
    MfdInstanceIff(r.name);
  }

  /** The number of seconds a record is good for: its TTL, at most 900. */
  ghost predicate LastsFor(expires: int, now: int, ttl: u32) {
    expires == now + (if ttl < 900 then ttl as int else 900) * 1_000_000_000
  }

  lemma LifetimeIs(now: int, ttl: u32)
    ensures LastsFor(now + Lifetime(ttl), now, ttl)
  {}

  /** What one record about `k` makes of its entry. */
  ghost predicate Decided(before: Observations, after: Observations, r: Record, k: bytes, now: int) {
    && (k in after <==> r.ttl > 0)
    && (r.ttl > 0 ==>
          && after[k].seen == now && LastsFor(after[k].expires, now, r.ttl)
          && (k in before ==> after[k].inst == before[k].inst && after[k].service == before[k].service)
          && (k !in before ==> after[k].inst == k && (r.typ == 12 ==> after[k].service == r.name)
                               && (r.typ == 33 ==> after[k].service == ServiceForName(k)))
          && (r.typ == 33 ==> after[k].host == r.target && after[k].port == r.port)
          && (r.typ == 12 && k in before ==> after[k].host == before[k].host && after[k].port == before[k].port)
          && (r.typ == 12 && k !in before ==> after[k].host == [] && after[k].port == 0))
  }

  ghost predicate SameEntry(before: Track, after: Track, k: bytes) {
    && (k in after.obs <==> k in before.obs) && (k in before.obs ==> after.obs[k] == before.obs[k])
    && (k in after.touched <==> k in before.touched)
  }

  lemma OneRecord(t: Track, r: Record, k: bytes, now: int)
    ensures var u := ObserveRecord(t, r, now);
            if About(r, k) then Decided(t.obs, u.obs, r, k, now) && (r.ttl > 0 ==> k in u.touched)
            else SameEntry(t, u, k)
  {
    hide IsPointer, IsService, MfdType, MfdInstance, ServiceForName, Lifetime, LastsFor;
    AboutIff(r);
    LifetimeIs(now, r.ttl);
  }

  lemma {:induction false} NoneAbout(t: Track, rs: seq<Record>, i: nat, n: nat, k: bytes, now: int)
    requires i <= n <= |rs| && forall m :: i <= m < n ==> !About(rs[m], k)
    ensures SameEntry(ObserveRecords(t, rs, i, now), ObserveRecords(t, rs, n, now), k)
  {
    hide About, ObserveRecord;
    if i < n {
      NoneAbout(t, rs, i, n - 1, k, now);
      OneRecord(ObserveRecords(t, rs, n - 1, now), rs[n - 1], k, now);
    }
  }

  /** Nothing was said of `k` from record `i` on. */
  ghost predicate Silent(rs: seq<Record>, i: nat, k: bytes) {
    forall m :: i <= m < |rs| ==> !About(rs[m], k)
  }

  lemma Untrimmed(g: Tracker, rs: seq<Record>, now: int, env: Environment, order: Orders)
    requires |g.obs| + |rs| <= 256 && |g.hosts| + |rs| <= 512
    ensures var g' := Observe(g, rs, now, env, order);
            g'.obs == Gathered(g, rs, now).obs && g'.hosts == Addressed(g, rs, now, env).hosts
  {
    hide ReportAll, Withdrawn, FreshObservations, FreshHosts, ObserveRecords, AddressRecords;
    FreshSmaller(g.obs, g.hosts, now);
    ObservationsGrow(Track(FreshObservations(g.obs, now), {}), rs, |rs|, now);
    var t := Gathered(g, rs, now);
    HostsGrow(HostTrack(FreshHosts(g.hosts, now), t.touched, g.cache), t.obs, rs, |rs|, now, env);
  }

  lemma ObservationsGrowBy(t: Track, r: Record, now: int)
    ensures |ObserveRecord(t, r, now).obs| <= |t.obs| + 1
  {
    hide IsPointer, IsService, ServiceForName, Lifetime;
    var u := ObserveRecord(t, r, now);
    var k := if IsPointer(r) then r.target else r.name;
    GrowsBy(t.obs, u.obs, k);
  }

  lemma GrowsBy<V>(m: map<bytes, V>, u: map<bytes, V>, k: bytes)
    requires forall x :: x in u ==> x in m || x == k
    ensures |u| <= |m| + 1
  {
    assert u.Keys <= m.Keys + {k};
    SubsetSize(u.Keys, m.Keys + {k});
  }

  lemma {:induction false} ObservationsGrow(t: Track, rs: seq<Record>, n: nat, now: int)
    requires n <= |rs|
    ensures |ObserveRecords(t, rs, n, now).obs| <= |t.obs| + n
  {
    hide ObserveRecord;
    if n > 0 {
      ObservationsGrow(t, rs, n - 1, now);
      ObservationsGrowBy(ObserveRecords(t, rs, n - 1, now), rs[n - 1], now);
    }
  }

  lemma HostsGrowBy(t: HostTrack, obs: Observations, r: Record, now: int, env: Environment)
    ensures |AddressRecord(t, obs, r, now, env).hosts| <= |t.hosts| + 1
  {
    hide Knows, Asked, Lifetime, OfHost;
    GrowsBy(t.hosts, AddressRecord(t, obs, r, now, env).hosts, r.name);
  }

  lemma {:induction false} HostsGrow(t: HostTrack, obs: Observations, rs: seq<Record>, n: nat, now: int,
                                     env: Environment)
    requires n <= |rs|
    ensures |AddressRecords(t, obs, rs, n, now, env).hosts| <= |t.hosts| + n
  {
    hide AddressRecord;
    if n > 0 {
      HostsGrow(t, obs, rs, n - 1, now, env);
      HostsGrowBy(AddressRecords(t, obs, rs, n - 1, now, env), obs, rs[n - 1], now, env);
    }
  }

  /**
   * An instance the packet does not speak of keeps its entry if that has not run out; otherwise the last record
   * about it decides, on top of what the records before that one left.
   */
  lemma LastRecordDecides(g: Tracker, rs: seq<Record>, j: nat, k: bytes, now: int, env: Environment, order: Orders)
    requires |g.obs| + |rs| <= 256 && |g.hosts| + |rs| <= 512 && j < |rs|
    ensures var after, t := Observe(g, rs, now, env, order).obs, Track(FreshObservations(g.obs, now), {});
      && (Silent(rs, 0, k) ==>
            && (k in after <==> k in g.obs && now <= g.obs[k].expires)
            && (k in after ==> after[k] == g.obs[k]))
      && (About(rs[j], k) && Silent(rs, j + 1, k) ==>
            Decided(ObserveRecords(t, rs, j, now).obs, after, rs[j], k, now))
  {
    hide About, Observe, ObserveRecords, ObserveRecord, Decided;
    Untrimmed(g, rs, now, env, order);
    var t := Track(FreshObservations(g.obs, now), {});
    ObserveNothing(t, rs, now);
    if Silent(rs, 0, k) {
      NoneAbout(t, rs, 0, |rs|, k, now);
    }
    if About(rs[j], k) && Silent(rs, j + 1, k) {
      ObserveNext(t, rs, j, now);
      OneRecord(ObserveRecords(t, rs, j, now), rs[j], k, now);
      NoneAbout(t, rs, j + 1, |rs|, k, now);
      SameDecided(ObserveRecords(t, rs, j, now).obs, ObserveRecords(t, rs, j + 1, now).obs,
                  ObserveRecords(t, rs, |rs|, now).obs, rs[j], k, now);
    }
  }

  lemma SameDecided(before: Observations, mid: Observations, after: Observations, r: Record, k: bytes, now: int)
    requires Decided(before, mid, r, k, now)
    requires (k in after <==> k in mid) && (k in mid ==> after[k] == mid[k])
    ensures Decided(before, after, r, k, now)
  {
    hide LastsFor, ServiceForName;
  }

  lemma ObserveNothing(t: Track, rs: seq<Record>, now: int)
    ensures ObserveRecords(t, rs, 0, now) == t
  {}

  lemma ObserveNext(t: Track, rs: seq<Record>, j: nat, now: int)
    requires j < |rs|
    ensures ObserveRecords(t, rs, j + 1, now) == ObserveRecord(ObserveRecords(t, rs, j, now), rs[j], now)
  {}

  // ----- hosts ------------------------------------------------------------------------------

  ghost function HostsAt(g: Tracker, rs: seq<Record>, n: nat, now: int, env: Environment): HostTrack
    requires n <= |rs|
  {
    var t := Gathered(g, rs, now);
    AddressRecords(HostTrack(FreshHosts(g.hosts, now), t.touched, g.cache), t.obs, rs, n, now, env)
  }

  /** Record `m` is an IPv4 address record of a host the cache knows when its turn comes; its class does not matter. */
  ghost predicate Locates(g: Tracker, rs: seq<Record>, m: nat, host: bytes, now: int, env: Environment)
    requires m < |rs|
  {
    && rs[m].typ == 1 && rs[m].address != [] && rs[m].name == host
    && Knows(HostsAt(g, rs, m, now, env).cache, host, env)
  }

  ghost predicate SameHost(before: HostTrack, after: HostTrack, host: bytes) {
    && (host in after.hosts <==> host in before.hosts)
    && (host in before.hosts ==> after.hosts[host] == before.hosts[host])
  }

  ghost predicate Placed(after: Hosts, r: Record, host: bytes, now: int) {
    && (host in after <==> r.ttl > 0)
    && (r.ttl > 0 ==> after[host].ip == r.address && LastsFor(after[host].expires, now, r.ttl))
  }

  lemma HostsNext(g: Tracker, rs: seq<Record>, m: nat, host: bytes, now: int, env: Environment)
    requires m < |rs|
    ensures var before, after := HostsAt(g, rs, m, now, env), HostsAt(g, rs, m + 1, now, env);
      && before.touched <= after.touched
      && if Locates(g, rs, m, host, now, env) then
           && Placed(after.hosts, rs[m], host, now)
           && (rs[m].ttl > 0 ==> OfHost(Gathered(g, rs, now).obs, host) <= after.touched)
         else SameHost(before, after, host)
  {
    hide Gathered, FreshHosts, Asked, Knows, Lifetime, LastsFor;
    LifetimeIs(now, rs[m].ttl);
  }

  lemma {:induction false} NoneLocates(g: Tracker, rs: seq<Record>, i: nat, n: nat, host: bytes, now: int,
                                       env: Environment)
    requires i <= n <= |rs| && forall m :: i <= m < n ==> !Locates(g, rs, m, host, now, env)
    ensures SameHost(HostsAt(g, rs, i, now, env), HostsAt(g, rs, n, now, env), host)
  {
    hide Locates, HostsAt, Placed;
    if i < n {
      NoneLocates(g, rs, i, n - 1, host, now, env);
      HostsNext(g, rs, n - 1, host, now, env);
    }
  }

  /**
   * A host the packet gives no address for keeps its own if that has not run out; else the last address record
   * decides.
   */
  lemma LastAddressDecides(g: Tracker, rs: seq<Record>, j: nat, host: bytes, now: int, env: Environment, order: Orders)
    requires |g.obs| + |rs| <= 256 && |g.hosts| + |rs| <= 512 && j < |rs|
    ensures var after := Observe(g, rs, now, env, order).hosts;
      && ((forall m :: 0 <= m < |rs| ==> !Locates(g, rs, m, host, now, env)) ==>
            && (host in after <==> host in g.hosts && now <= g.hosts[host].expires)
            && (host in after ==> after[host] == g.hosts[host]))
      && (Locates(g, rs, j, host, now, env) && (forall m :: j < m < |rs| ==> !Locates(g, rs, m, host, now, env)) ==>
            Placed(after, rs[j], host, now))
  {
    hide Observe, Locates, AddressRecords, Addressed, Gathered, Placed, SameHost;
    Untrimmed(g, rs, now, env, order);
    AllAddressed(g, rs, now, env);
    if forall m :: 0 <= m < |rs| ==> !Locates(g, rs, m, host, now, env) {
      NoneLocates(g, rs, 0, |rs|, host, now, env);
      NoneAddressed(g, rs, now, env);
      SamePlace(HostsAt(g, rs, 0, now, env), HostsAt(g, rs, |rs|, now, env), rs[j], host, now);
    }
    if Locates(g, rs, j, host, now, env) && forall m :: j < m < |rs| ==> !Locates(g, rs, m, host, now, env) {
      HostsNext(g, rs, j, host, now, env);
      NoneLocates(g, rs, j + 1, |rs|, host, now, env);
      SamePlace(HostsAt(g, rs, j + 1, now, env), HostsAt(g, rs, |rs|, now, env), rs[j], host, now);
    }
  }

  lemma SamePlace(before: HostTrack, after: HostTrack, r: Record, host: bytes, now: int)
    requires SameHost(before, after, host)
    ensures Placed(before.hosts, r, host, now) ==> Placed(after.hosts, r, host, now)
    ensures host in after.hosts <==> host in before.hosts
    ensures host in after.hosts ==> after.hosts[host] == before.hosts[host]
  {
    hide LastsFor;
  }

  lemma NoneAddressed(g: Tracker, rs: seq<Record>, now: int, env: Environment)
    ensures HostsAt(g, rs, 0, now, env).hosts == FreshHosts(g.hosts, now)
  {
    hide Gathered;
  }

  lemma AllAddressed(g: Tracker, rs: seq<Record>, now: int, env: Environment)
    ensures HostsAt(g, rs, |rs|, now, env) == Addressed(g, rs, now, env)
  {
    hide Gathered, AddressRecords;
  }

  // ----- the display ------------------------------------------------------------------------

  /** Record `m` speaks of instance `k`, or of the address of its host. */
  ghost predicate SpeaksOf(g: Tracker, rs: seq<Record>, m: nat, k: bytes, host: bytes, now: int, env: Environment)
    requires m < |rs|
  {
    rs[m].ttl > 0 && (About(rs[m], k) || Locates(g, rs, m, host, now, env))
  }

  lemma {:induction false} TouchedGrows(t: Track, rs: seq<Record>, i: nat, n: nat, now: int)
    requires i <= n <= |rs|
    ensures ObserveRecords(t, rs, i, now).touched <= ObserveRecords(t, rs, n, now).touched
  {
    hide IsPointer, IsService, ServiceForName, Lifetime;
    if i < n {
      TouchedGrows(t, rs, i, n - 1, now);
    }
  }

  lemma {:induction false} HostsTouchMore(g: Tracker, rs: seq<Record>, i: nat, n: nat, now: int, env: Environment)
    requires i <= n <= |rs|
    ensures HostsAt(g, rs, i, now, env).touched <= HostsAt(g, rs, n, now, env).touched
  {
    hide HostsAt, Locates, Placed, SameHost;
    if i < n {
      HostsTouchMore(g, rs, i, n - 1, now, env);
      HostsNext(g, rs, n - 1, [], now, env);
    }
  }

  /** What the packet speaks of is looked at for the report. */
  lemma SpokenOfIsTouched(g: Tracker, rs: seq<Record>, m: nat, k: bytes, now: int, env: Environment)
    requires m < |rs| && k in Gathered(g, rs, now).obs
    requires SpeaksOf(g, rs, m, k, Gathered(g, rs, now).obs[k].host, now, env)
    ensures k in Addressed(g, rs, now, env).touched
  {
    hide ObserveRecords, ObserveRecord, HostsAt, Placed, SameHost, Decided, SameEntry, About, Locates;
    AllAddressed(g, rs, now, env);
    var t := Track(FreshObservations(g.obs, now), {});
    if About(rs[m], k) {
      ObserveNext(t, rs, m, now);
      OneRecord(ObserveRecords(t, rs, m, now), rs[m], k, now);
      TouchedGrows(t, rs, m + 1, |rs|, now);
      HostsTouchMore(g, rs, 0, |rs|, now, env);
      TouchedFirst(g, rs, now, env);
    } else {
      HostsNext(g, rs, m, Gathered(g, rs, now).obs[k].host, now, env);
      assert k in OfHost(Gathered(g, rs, now).obs, Gathered(g, rs, now).obs[k].host);
      HostsTouchMore(g, rs, m + 1, |rs|, now, env);
    }
  }

  lemma TouchedFirst(g: Tracker, rs: seq<Record>, now: int, env: Environment)
    ensures HostsAt(g, rs, 0, now, env).touched == Gathered(g, rs, now).touched
  {
    hide Gathered;
  }

  lemma {:induction false} HostsFresh(g: Tracker, rs: seq<Record>, n: nat, now: int, env: Environment)
    requires n <= |rs|
    ensures var hosts := HostsAt(g, rs, n, now, env).hosts; forall h :: h in hosts ==> now <= hosts[h].expires
  {
    hide Gathered, Asked, Knows, Lifetime, OfHost;
    if n > 0 {
      HostsFresh(g, rs, n - 1, now, env);
      LifetimeBound(rs[n - 1].ttl);
    }
  }

  /**
   * When the packet speaks of an instance, or gives the address of its host, before or after its service record or
   * in a later packet, and both are known afterwards, the display shows an instance as of now.
   */
  lemma SpokenOfIsShown(g: Tracker, rs: seq<Record>, m: nat, k: bytes, now: int, env: Environment, order: Orders)
    requires |g.obs| + |rs| <= 256 && |g.hosts| + |rs| <= 512 && m < |rs|
    requires var after := Observe(g, rs, now, env, order);
             && k in after.obs && after.obs[k].host in after.hosts
             && SpeaksOf(g, rs, m, k, after.obs[k].host, now, env)
    ensures var after := Observe(g, rs, now, env, order); exists k' :: Shows(after, after.axiom, k', now)
  {
    hide Gathered, AddressRecords, Withdrawn, ReportAll, Reported, Shows, SpeaksOf, HostsAt;
    Untrimmed(g, rs, now, env, order);
    SpokenOfIsTouched(g, rs, m, k, now, env);
    AllAddressed(g, rs, now, env);
    HostsFresh(g, rs, |rs|, now, env);
    FreshObserved(g, rs, now);
    var after := Observe(g, rs, now, env, order);
    assert Located(after.obs, after.hosts, k, now);
    ReportedFrom(Withdrawn(g.axiom, rs, |rs|, now), Addressed(g, rs, now, env).touched, after.obs, after.hosts, now,
                 order.touched);
    var shown :| Located(after.obs, after.hosts, shown, now)
                 && after.axiom == Reported(after.obs[shown], after.hosts[after.obs[shown].host], now);
    ShowsIs(after, shown, now);
  }

  lemma {:induction false} TouchedWasSpokenOf(t: Track, rs: seq<Record>, n: nat, k: bytes, now: int)
    requires n <= |rs|
    ensures k in ObserveRecords(t, rs, n, now).touched ==>
            k in t.touched || exists m :: 0 <= m < n && rs[m].ttl > 0 && About(rs[m], k)
  {
    hide About, IsPointer, IsService, ServiceForName, Lifetime;
    if n > 0 {
      TouchedWasSpokenOf(t, rs, n - 1, k, now);
      AboutIff(rs[n - 1]);
      AboutOther(rs[n - 1], k);
    }
  }

  lemma AboutOther(r: Record, k: bytes)
    ensures About(r, k) <==> (k == r.target && PointsAt(r, r.target)) || (k == r.name && Serves(r, r.name))
  {
    hide MfdInstance;
  }

  lemma {:induction false} TouchedHosts(g: Tracker, rs: seq<Record>, n: nat, k: bytes, now: int, env: Environment)
    requires n <= |rs| && k in Gathered(g, rs, now).obs
    ensures k in HostsAt(g, rs, n, now, env).touched ==>
            || k in Gathered(g, rs, now).touched
            || exists m :: 0 <= m < n && rs[m].ttl > 0 && Locates(g, rs, m, Gathered(g, rs, now).obs[k].host, now, env)
  {
    hide Gathered, Asked, Knows, Lifetime, FreshHosts;
    if n > 0 {
      TouchedHosts(g, rs, n - 1, k, now, env);
      var host := Gathered(g, rs, now).obs[k].host;
      if k in HostsAt(g, rs, n, now, env).touched && k !in HostsAt(g, rs, n - 1, now, env).touched {
        assert Locates(g, rs, n - 1, host, now, env);
      }
    }
  }

  /** Only what the packet speaks of is newly shown: otherwise the entry stays, expired if a goodbye names it. */
  lemma OnlySpokenOfIsShown(g: Tracker, rs: seq<Record>, now: int, env: Environment, order: Orders)
    ensures var after := Observe(g, rs, now, env, order);
      || after.axiom == (if SaidGoodbye(g.axiom, rs) then g.axiom.(expires := now) else g.axiom)
      || exists k, m :: 0 <= m < |rs| && Shows(after, after.axiom, k, now)
                        && SpeaksOf(g, rs, m, k, after.obs[k].host, now, env)
  {
    hide Gathered, AddressRecords, Withdrawn, ReportAll, Reported, Shows, SaidGoodbye, HostsAt, Trimmed, About, Locates;
    WithdrawnIff(g.axiom, rs, now);
    AllAddressed(g, rs, now, env);
    FreshObserved(g, rs, now);
    var after := Observe(g, rs, now, env, order);
    var before := Withdrawn(g.axiom, rs, |rs|, now);
    ReportedFrom(before, Addressed(g, rs, now, env).touched, after.obs, after.hosts, now, order.touched);
    if after.axiom != before {
      var k :| k in Addressed(g, rs, now, env).touched && Located(after.obs, after.hosts, k, now)
               && after.axiom == Reported(after.obs[k], after.hosts[after.obs[k].host], now);
      ShowsIs(after, k, now);
      TouchedHosts(g, rs, |rs|, k, now, env);
      GatheredSpokenOf(g, rs, k, now);
      var host := Gathered(g, rs, now).obs[k].host;
      assert after.obs[k].host == host;
      if m :| 0 <= m < |rs| && rs[m].ttl > 0 && About(rs[m], k) {
        assert SpeaksOf(g, rs, m, k, host, now, env);
      } else {
        var m :| 0 <= m < |rs| && rs[m].ttl > 0 && Locates(g, rs, m, host, now, env);
        assert SpeaksOf(g, rs, m, k, host, now, env);
      }
    }
  }

  lemma GatheredSpokenOf(g: Tracker, rs: seq<Record>, k: bytes, now: int)
    ensures k in Gathered(g, rs, now).touched ==> exists m :: 0 <= m < |rs| && rs[m].ttl > 0 && About(rs[m], k)
  {
    hide ObserveRecords, About;
    TouchedWasSpokenOf(Track(FreshObservations(g.obs, now), {}), rs, |rs|, k, now);
  }

  /** Trimming deletes no more than it has to. */
  lemma {:induction false} TrimmedSize<V>(m: map<bytes, V>, n: nat, pick: Pick)
    ensures |Trimmed(m, n, pick)| == if |m| <= n then |m| else n
    decreases |m|
  {
    if |m| > n {
      var rest := m - {pick(m.Keys)};
      assert rest.Keys == m.Keys - {pick(m.Keys)};
      assert |rest.Keys| == |m.Keys| - 1;
      TrimmedSize(rest, n, pick);
    }
  }
}
