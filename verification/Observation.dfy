/**
 * Which multifunction display the daemon reports: service observations and host addresses gathered
 * from responses, bounded, expiring, and withdrawn by goodbye records.
 */
module Observation {
  import opened Bytes
  import opened Clock
  import opened DnsMessages
  import opened NameCache
  import opened ServicePolicy
  import opened RelayFilter

  const MAX_OBSERVATIONS: nat := 256
  const MAX_HOSTS: nat := 512

  datatype Observed = Observed(service: bytes, inst: bytes, host: bytes, port: u16, seen: int, expires: int)

  datatype HostAddress = HostAddress(ip: bytes, expires: int)

  datatype Seen = Seen(name: bytes, ip: bytes, service: bytes, port: u16, lastSeen: int, expires: int)

  const NOBODY: Seen := Seen([], [], [], 0, 0, 0)

  type Observations = map<bytes, Observed>
  type Hosts = map<bytes, HostAddress>

  // ----- goodbyes ---------------------------------------------------------------------------

  function FullName(axiom: Seen): bytes {
    axiom.name + [DOT] + axiom.service
  }

  predicate Withdraws(axiom: Seen, r: Record) {
    r.ttl == 0 && (r.target == FullName(axiom) || r.name == FullName(axiom) || r.address == axiom.ip)
  }

  function Withdrawn(axiom: Seen, rs: seq<Record>, i: nat, now: int): Seen
    requires i <= |rs|
  {
    if exists k :: 0 <= k < i && Withdraws(axiom, rs[k]) then axiom.(expires := now) else axiom
  }

  // ----- observations -----------------------------------------------------------------------

  function FreshObservations(obs: Observations, now: int): Observations {
    map k | k in obs && now <= obs[k].expires :: obs[k]
  }

  function FreshHosts(hosts: Hosts, now: int): Hosts {
    map h | h in hosts && now <= hosts[h].expires :: hosts[h]
  }

  /** Observations and the ones this packet touched. */
  datatype Track = Track(obs: Observations, touched: set<bytes>)

  predicate IsPointer(r: Record) {
    Internet(r) && r.typ == PTR && MfdType(r.name)
  }

  predicate IsService(r: Record) {
    Internet(r) && r.typ == SRV && MfdType(ServiceForName(r.name))
  }

  function Known(obs: Observations, k: bytes, service: bytes): Observed {
    if k in obs then obs[k] else Observed(service, k, [], 0, 0, 0)
  }

  function ObserveRecord(t: Track, r: Record, now: int): Track {
    if IsPointer(r) then
      if r.ttl == 0 then t.(obs := t.obs - {r.target})
      else
        var o := Known(t.obs, r.target, r.name).(seen := now, expires := now + Lifetime(r.ttl));
        Track(t.obs[r.target := o], t.touched + {r.target})
    else if IsService(r) then
      if r.ttl == 0 then t.(obs := t.obs - {r.name})
      else
        var o := Known(t.obs, r.name, ServiceForName(r.name))
                   .(host := r.target, port := r.port, seen := now, expires := now + Lifetime(r.ttl));
        Track(t.obs[r.name := o], t.touched + {r.name})
    else t
  }

  function ObserveRecords(t: Track, rs: seq<Record>, i: nat, now: int): Track
    requires i <= |rs|
  {
    if i == 0 then t else ObserveRecord(ObserveRecords(t, rs, i - 1, now), rs[i - 1], now)
  }

  // ----- host addresses ---------------------------------------------------------------------

  datatype HostTrack = HostTrack(hosts: Hosts, touched: set<bytes>, cache: State)

  function OfHost(obs: Observations, host: bytes): set<bytes> {
    set k | k in obs && obs[k].host == host
  }

  predicate IsAddress(r: Record) {
    r.typ == A && r.address != []
  }

  /** Address records count only for names the cache knows; their class is not looked at. */
  function AddressRecord(t: HostTrack, obs: Observations, r: Record, now: int, env: Environment): HostTrack {
    if !IsAddress(r) then t
    else
      var asked := Asked(t.cache, r.name, env);
      if !Knows(t.cache, r.name, env) then t.(cache := asked)
      else if r.ttl == 0 then t.(hosts := t.hosts - {r.name}, cache := asked)
      else HostTrack(t.hosts[r.name := HostAddress(r.address, now + Lifetime(r.ttl))], t.touched + OfHost(obs, r.name),
          asked)
  }

  function AddressRecords(t: HostTrack, obs: Observations, rs: seq<Record>, i: nat, now: int,
           env: Environment): HostTrack
    requires i <= |rs|
  {
    if i == 0 then t else AddressRecord(AddressRecords(t, obs, rs, i - 1, now, env), obs, rs[i - 1], now, env)
  }

  /** Deletes arbitrary entries until at most `n` are left. */
  function Trimmed<V>(m: map<bytes, V>, n: nat, pick: Pick): (t: map<bytes, V>)
    ensures |t| <= n
    ensures forall k :: k in t ==> k in m && t[k] == m[k]
    decreases |m|
  {
    if |m| <= n then m
    else
      var rest := m - {pick(m.Keys)};
      assert rest.Keys == m.Keys - {pick(m.Keys)};
      Trimmed(rest, n, pick)
  }

  // ----- the reported display ---------------------------------------------------------------

  function WithoutSuffix(s: bytes, suffix: bytes): bytes {
    if HasSuffix(s, suffix) then s[..|s| - |suffix|] else s
  }

  function Min(a: int, b: int): int {
    if b < a then b else a
  }

  /** Whether an observation has a current host address. */
  predicate Located(obs: Observations, hosts: Hosts, k: bytes, now: int) {
    k in obs && obs[k].host in hosts && now <= hosts[obs[k].host].expires
  }

  function Reported(o: Observed, host: HostAddress, now: int): Seen {
    Seen(WithoutSuffix(o.inst, [DOT] + o.service), host.ip, o.service, o.port, now, Min(o.expires, host.expires))
  }

  /** Every touched observation that has an address is reported; the last one met remains. */
  function ReportAll(axiom: Seen, touched: set<bytes>, obs: Observations, hosts: Hosts, now: int, pick: Pick): Seen
    decreases |touched|
  {
    if touched == {} then axiom
    else
      var k := pick(touched);
      var next := if Located(obs, hosts, k, now) then Reported(obs[k], hosts[obs[k].host], now) else axiom;
      ReportAll(next, touched - {k}, obs, hosts, now, pick)
  }

  // ----- one response -----------------------------------------------------------------------

  datatype Tracker = Tracker(obs: Observations, hosts: Hosts, axiom: Seen, cache: State)

  /** The orders in which the three maps are walked while one response is handled. */
  datatype Orders = Orders(obs: Pick, hosts: Pick, touched: Pick)

  function Gathered(g: Tracker, rs: seq<Record>, now: int): Track {
    ObserveRecords(Track(FreshObservations(g.obs, now), {}), rs, |rs|, now)
  }

  function Addressed(g: Tracker, rs: seq<Record>, now: int, env: Environment): HostTrack {
    var t := Gathered(g, rs, now);
    AddressRecords(HostTrack(FreshHosts(g.hosts, now), t.touched, g.cache), t.obs, rs, |rs|, now, env)
  }

  function Observe(g: Tracker, rs: seq<Record>, now: int, env: Environment, order: Orders): Tracker {
    var h := Addressed(g, rs, now, env);
    var obs := Trimmed(Gathered(g, rs, now).obs, MAX_OBSERVATIONS, order.obs);
    var hosts := Trimmed(h.hosts, MAX_HOSTS, order.hosts);
    Tracker(obs, hosts, ReportAll(Withdrawn(g.axiom, rs, |rs|, now), h.touched, obs, hosts, now, order.touched),
        h.cache)
  }

  class Observer {
    var obs: Observations
    var hosts: Hosts
    var axiom: Seen

    constructor ()
      ensures obs == map[] && hosts == map[] && axiom == NOBODY
    {
      obs, hosts, axiom := map[], map[], NOBODY;
    }

    function Abstract(cache: Cache): Tracker
      reads this, cache
    {
      Tracker(obs, hosts, axiom, cache.Abstract())
    }

    method Run(m: Message, now: int, cache: Cache, order: Orders)
      modifies this, cache
      ensures Abstract(cache) == Observe(old(Abstract(cache)), m.records, now, cache.env, order)
    {
      hide Gathered, Addressed, Trimmed, ReportAll, Withdrawn, FreshObservations, FreshHosts, ObserveRecords,
           AddressRecords;
      Withdraw(m.records, now);
      PurgeObservations(now);
      PurgeHosts(now);
      var touched := Gather(m.records, now);
      assert Track(obs, touched) == Gathered(old(Abstract(cache)), m.records, now) by {
        GatheredIs(old(Abstract(cache)), m.records, now);
      }
      touched := Address(m.records, now, cache, touched);
      assert HostTrack(hosts, touched, cache.Abstract()) ==
             Addressed(old(Abstract(cache)), m.records, now, cache.env) by {
        AddressedIs(old(Abstract(cache)), m.records, now, cache.env);
      }
      TrimObservations(order.obs);
      TrimHosts(order.hosts);
      Report(touched, now, order.touched);
    }

    method Withdraw(rs: seq<Record>, now: int)
      modifies this`axiom
      ensures axiom == Withdrawn(old(axiom), rs, |rs|, now)
    {
      var current := axiom;
      for i := 0 to |rs|
        invariant axiom == Withdrawn(current, rs, i, now)
      {
        if Withdraws(current, rs[i]) {
          axiom := axiom.(expires := now);
        }
      }
    }

    method PurgeObservations(now: int)
      modifies this`obs
      ensures obs == FreshObservations(old(obs), now)
    {
      var todo := obs.Keys;
      while todo != {}
        invariant todo <= old(obs).Keys
        invariant obs == map k | k in old(obs) && (k in todo || now <= old(obs)[k].expires) :: old(obs)[k]
        decreases |todo|
      {
        var k :| k in todo;
        todo := todo - {k};
        if now > obs[k].expires {
          obs := obs - {k};
        }
      }
    }

    method PurgeHosts(now: int)
      modifies this`hosts
      ensures hosts == FreshHosts(old(hosts), now)
    {
      var todo := hosts.Keys;
      while todo != {}
        invariant todo <= old(hosts).Keys
        invariant hosts == map k | k in old(hosts) && (k in todo || now <= old(hosts)[k].expires) :: old(hosts)[k]
        decreases |todo|
      {
        var k :| k in todo;
        todo := todo - {k};
        if now > hosts[k].expires {
          hosts := hosts - {k};
        }
      }
    }

    method Gather(rs: seq<Record>, now: int) returns (touched: set<bytes>)
      modifies this`obs
      ensures Track(obs, touched) == ObserveRecords(Track(old(obs), {}), rs, |rs|, now)
    {
      hide ServiceForName, MfdType, Internet, Lifetime;
      touched := {};
      for i := 0 to |rs|
        invariant Track(obs, touched) == ObserveRecords(Track(old(obs), {}), rs, i, now)
      {
        var r := rs[i];
        if IsPointer(r) {
          if r.ttl == 0 {
            obs := obs - {r.target};
            continue;
          }
          var o := Known(obs, r.target, r.name);
          obs := obs[r.target := o.(seen := now, expires := now + Lifetime(r.ttl))];
          touched := touched + {r.target};
        } else if IsService(r) {
          if r.ttl == 0 {
            obs := obs - {r.name};
            continue;
          }
          var o := Known(obs, r.name, ServiceForName(r.name));
          obs := obs[r.name := o.(host := r.target, port := r.port, seen := now, expires := now + Lifetime(r.ttl))];
          touched := touched + {r.name};
        }
      }
    }

    method Address(rs: seq<Record>, now: int, cache: Cache, before: set<bytes>) returns (touched: set<bytes>)
      modifies this`hosts, cache
      ensures HostTrack(hosts, touched, cache.Abstract())
           == AddressRecords(HostTrack(old(hosts), before, old(cache.Abstract())), obs, rs, |rs|, now, cache.env)
    {
      hide Lifetime, Asked, Knows, OfHost;
      touched := before;
      for i := 0 to |rs|
        invariant HostTrack(hosts, touched, cache.Abstract())
               == AddressRecords(HostTrack(old(hosts), before, old(cache.Abstract())), obs, rs, i, now, cache.env)
      {
        var r := rs[i];
        if !IsAddress(r) {
          continue;
        }
        var known := cache.Has(r.name);
        if !known {
          continue;
        }
        if r.ttl == 0 {
          hosts := hosts - {r.name};
          continue;
        }
        hosts := hosts[r.name := HostAddress(r.address, now + Lifetime(r.ttl))];
        var more := ObservationsOf(r.name);
        touched := touched + more;
      }
    }

    method ObservationsOf(host: bytes) returns (ks: set<bytes>)
      ensures ks == OfHost(obs, host)
    {
      ks := {};
      var todo := obs.Keys;
      while todo != {}
        invariant todo <= obs.Keys
        invariant ks == set k | k in obs && k !in todo && obs[k].host == host
        decreases |todo|
      {
        var k :| k in todo;
        todo := todo - {k};
        if obs[k].host == host {
          ks := ks + {k};
        }
      }
    }

    method TrimObservations(pick: Pick)
      modifies this`obs
      ensures obs == Trimmed(old(obs), MAX_OBSERVATIONS, pick)
    {
      while |obs| > MAX_OBSERVATIONS
        invariant Trimmed(obs, MAX_OBSERVATIONS, pick) == Trimmed(old(obs), MAX_OBSERVATIONS, pick)
        decreases |obs|
      {
        var rest := obs - {pick(obs.Keys)};
        assert rest.Keys == obs.Keys - {pick(obs.Keys)};
        obs := rest;
      }
    }

    method TrimHosts(pick: Pick)
      modifies this`hosts
      ensures hosts == Trimmed(old(hosts), MAX_HOSTS, pick)
    {
      while |hosts| > MAX_HOSTS
        invariant Trimmed(hosts, MAX_HOSTS, pick) == Trimmed(old(hosts), MAX_HOSTS, pick)
        decreases |hosts|
      {
        var rest := hosts - {pick(hosts.Keys)};
        assert rest.Keys == hosts.Keys - {pick(hosts.Keys)};
        hosts := rest;
      }
    }

    method Report(touched: set<bytes>, now: int, pick: Pick)
      modifies this`axiom
      ensures axiom == ReportAll(old(axiom), touched, obs, hosts, now, pick)
    {
      hide Reported;
      var todo := touched;
      while todo != {}
        invariant ReportAll(axiom, todo, obs, hosts, now, pick) == ReportAll(old(axiom), touched, obs, hosts, now, pick)
        decreases |todo|
      {
        var k := pick(todo);
        if Located(obs, hosts, k, now) {
          axiom := Reported(obs[k], hosts[obs[k].host], now);
        }
        todo := todo - {k};
      }
    }
  }

  lemma GatheredIs(g: Tracker, rs: seq<Record>, now: int)
    ensures Gathered(g, rs, now) == ObserveRecords(Track(FreshObservations(g.obs, now), {}), rs, |rs|, now)
  {}

  lemma AddressedIs(g: Tracker, rs: seq<Record>, now: int, env: Environment)
    ensures Addressed(g, rs, now, env) ==
            var t := Gathered(g, rs, now);
            AddressRecords(HostTrack(FreshHosts(g.hosts, now), t.touched, g.cache), t.obs, rs, |rs|, now, env)
  {}

  // ----- what holds in every reachable state ------------------------------------------------

  /** A service record of `h` names `host` for the instance `k`. */
  ghost predicate NamesHost(h: set<Record>, k: bytes, host: bytes, port: u16) {
    exists r :: r in h && r.typ == SRV && r.name == k && r.target == host && r.port == port
  }

  /** An address record of `h` gives `ip` for `host`. */
  ghost predicate GivesAddress(h: set<Record>, host: bytes, ip: bytes) {
    exists r :: r in h && r.typ == A && r.name == host && r.address == ip
  }

  ghost predicate ObservedOk(h: set<Record>, k: bytes, o: Observed, now: int) {
    && MfdType(o.service) && o.inst == k
    && (o.host != [] ==> NamesHost(h, k, o.host, o.port))
    && o.expires <= now + MAX_TTL * SECOND
  }

  ghost predicate HostOk(h: set<Record>, host: bytes, a: HostAddress, now: int) {
    host != [] && a.ip != [] && GivesAddress(h, host, a.ip) && a.expires <= now + MAX_TTL * SECOND
  }

  /** The reported display goes back to a service record and an address record of its host. */
  ghost predicate AxiomOk(h: set<Record>, axiom: Seen, now: int) {
    axiom.ip != [] ==>
      && MfdType(axiom.service) && axiom.expires <= now + MAX_TTL * SECOND
      && exists k, host :: NamesHost(h, k, host, axiom.port) && GivesAddress(h, host, axiom.ip)
                           && axiom.name == WithoutSuffix(k, [DOT] + axiom.service)
  }

  ghost predicate ObservationsOk(h: set<Record>, obs: Observations, now: int) {
    forall k :: k in obs ==> ObservedOk(h, k, obs[k], now)
  }

  ghost predicate HostsOk(h: set<Record>, hosts: Hosts, now: int) {
    forall x :: x in hosts ==> HostOk(h, x, hosts[x], now)
  }

  ghost predicate Sound(h: set<Record>, g: Tracker, now: int) {
    && |g.obs| <= 256 && |g.hosts| <= 512
    && ObservationsOk(h, g.obs, now) && HostsOk(h, g.hosts, now) && AxiomOk(h, g.axiom, now)
    && [] !in g.cache.expires
  }

  lemma LifetimeBound(ttl: u32)
    ensures 0 <= Lifetime(ttl) <= MAX_TTL * SECOND
    ensures ttl > 0 ==> Lifetime(ttl) > 0
  {}

  lemma ObserveRecordSound(h: set<Record>, t: Track, r: Record, now: int)
    requires r in h && ObservationsOk(h, t.obs, now)
    ensures ObservationsOk(h, ObserveRecord(t, r, now).obs, now)
  {
    hide ServiceForName, MfdType, Internet, Lifetime, NamesHost;
    LifetimeBound(r.ttl);
    if IsService(r) {
      assert NamesHost(h, r.name, r.target, r.port) by {
        ServiceNames(h, r);
      }
    }
  }

  lemma ServiceNames(h: set<Record>, r: Record)
    requires r in h && r.typ == SRV
    ensures NamesHost(h, r.name, r.target, r.port)
  {}

  lemma {:induction false} ObserveRecordsSound(h: set<Record>, t: Track, rs: seq<Record>, i: nat, now: int)
    requires i <= |rs| && RecordsOf(rs) <= h && ObservationsOk(h, t.obs, now)
    ensures ObservationsOk(h, ObserveRecords(t, rs, i, now).obs, now)
  {
    hide ObservationsOk, ObserveRecord;
    if i > 0 {
      ObserveRecordsSound(h, t, rs, i - 1, now);
      assert rs[i - 1] in RecordsOf(rs);
      ObserveRecordSound(h, ObserveRecords(t, rs, i - 1, now), rs[i - 1], now);
    }
  }

  lemma AddressRecordSound(h: set<Record>, t: HostTrack, obs: Observations, r: Record, now: int, env: Environment)
    requires r in h && HostsOk(h, t.hosts, now) && [] !in t.cache.expires
    ensures HostsOk(h, AddressRecord(t, obs, r, now, env).hosts, now)
    ensures [] !in AddressRecord(t, obs, r, now, env).cache.expires
  {
    hide Lifetime;
    LifetimeBound(r.ttl);
    assert Normalize([]) == [];
    if IsAddress(r) {
      assert GivesAddress(h, r.name, r.address);
    }
  }

  lemma {:induction false} AddressRecordsSound(h: set<Record>, t: HostTrack, obs: Observations, rs: seq<Record>, i: nat,
                                               now: int, env: Environment)
    requires i <= |rs| && RecordsOf(rs) <= h && HostsOk(h, t.hosts, now) && [] !in t.cache.expires
    ensures HostsOk(h, AddressRecords(t, obs, rs, i, now, env).hosts, now)
    ensures [] !in AddressRecords(t, obs, rs, i, now, env).cache.expires
  {
    hide HostsOk, AddressRecord;
    if i > 0 {
      AddressRecordsSound(h, t, obs, rs, i - 1, now, env);
      assert rs[i - 1] in RecordsOf(rs);
      AddressRecordSound(h, AddressRecords(t, obs, rs, i - 1, now, env), obs, rs[i - 1], now, env);
    }
  }

  /** Either nothing was reported, or one of the touched, located observations was. */
  lemma {:induction false} ReportedFrom(axiom: Seen, touched: set<bytes>, obs: Observations, hosts: Hosts, now: int,
           pick: Pick)
    ensures var seen := ReportAll(axiom, touched, obs, hosts, now, pick);
            || (seen == axiom && forall k :: k in touched ==> !Located(obs, hosts, k, now))
            || (exists k :: k in touched && Located(obs, hosts, k, now)
                            && seen == Reported(obs[k], hosts[obs[k].host], now))
    decreases |touched|
  {
    hide Reported;
    if touched != {} {
      var k := pick(touched);
      ReportedFrom(if Located(obs, hosts, k, now) then Reported(obs[k], hosts[obs[k].host], now) else axiom,
                   touched - {k}, obs, hosts, now, pick);
    }
  }

  lemma ReportedSound(h: set<Record>, obs: Observations, hosts: Hosts, k: bytes, now: int)
    requires ObservationsOk(h, obs, now) && HostsOk(h, hosts, now) && Located(obs, hosts, k, now)
    ensures AxiomOk(h, Reported(obs[k], hosts[obs[k].host], now), now)
  {
    hide MfdType, NamesHost, GivesAddress, WithoutSuffix;
    var o := obs[k];
    assert HostOk(h, o.host, hosts[o.host], now);
    assert NamesHost(h, k, o.host, o.port) && GivesAddress(h, o.host, hosts[o.host].ip);
  }

  lemma SoundLater(h: set<Record>, h': set<Record>, g: Tracker, now: int, later: int)
    requires Sound(h, g, now) && h <= h' && now <= later
    ensures Sound(h', g, later)
  {
    hide MfdType, WithoutSuffix;
    forall k | k in g.obs
      ensures ObservedOk(h', k, g.obs[k], later)
    {
      NamesHostGrows(h, h', k, g.obs[k].host, g.obs[k].port);
      assert ObservedOk(h, k, g.obs[k], now);
    }
    forall x | x in g.hosts
      ensures HostOk(h', x, g.hosts[x], later)
    {
      assert HostOk(h, x, g.hosts[x], now);
    }
    AxiomLater(h, h', g.axiom, now, later);
  }

  lemma NamesHostGrows(h: set<Record>, h': set<Record>, k: bytes, host: bytes, port: u16)
    requires h <= h'
    ensures NamesHost(h, k, host, port) ==> NamesHost(h', k, host, port)
  {}

  lemma AxiomLater(h: set<Record>, h': set<Record>, axiom: Seen, now: int, later: int)
    requires AxiomOk(h, axiom, now) && h <= h' && now <= later
    ensures AxiomOk(h', axiom, later)
  {
    hide MfdType, WithoutSuffix, NamesHost;
    if axiom.ip != [] {
      var k, host :| NamesHost(h, k, host, axiom.port) && GivesAddress(h, host, axiom.ip)
                     && axiom.name == WithoutSuffix(k, [DOT] + axiom.service);
      NamesHostGrows(h, h', k, host, axiom.port);
      assert GivesAddress(h', host, axiom.ip);
    }
  }

  lemma WithdrawnSound(h: set<Record>, axiom: Seen, rs: seq<Record>, now: int)
    requires AxiomOk(h, axiom, now)
    ensures AxiomOk(h, Withdrawn(axiom, rs, |rs|, now), now)
  {
    hide Withdraws, MfdType, NamesHost, GivesAddress, WithoutSuffix;
  }

  lemma FreshSound(h: set<Record>, g: Tracker, now: int)
    requires Sound(h, g, now)
    ensures ObservationsOk(h, FreshObservations(g.obs, now), now) && HostsOk(h, FreshHosts(g.hosts, now), now)
  {
    hide ObservedOk, HostOk;
  }

  /** Handling a response keeps everything sound, for every order of the map walks. */
  lemma ObserveSound(h: set<Record>, g: Tracker, rs: seq<Record>, now: int, env: Environment, order: Orders)
    requires Sound(h, g, now) && RecordsOf(rs) <= h
    ensures Sound(h, Observe(g, rs, now, env, order), now)
  {
    hide ObservedOk, HostOk, AxiomOk, Withdrawn, ObserveRecords, AddressRecords, FreshObservations, FreshHosts, Trimmed,
         ReportAll, Reported, Located, AddressRecord, ObserveRecord;
    FreshSound(h, g, now);
    ObserveRecordsSound(h, Track(FreshObservations(g.obs, now), {}), rs, |rs|, now);
    var t := Gathered(g, rs, now);
    AddressRecordsSound(h, HostTrack(FreshHosts(g.hosts, now), t.touched, g.cache), t.obs, rs, |rs|, now, env);
    var g' := Observe(g, rs, now, env, order);
    WithdrawnSound(h, g.axiom, rs, now);
    var before := Withdrawn(g.axiom, rs, |rs|, now);
    var touched := Addressed(g, rs, now, env).touched;
    ReportSound(h, before, touched, g'.obs, g'.hosts, now, order.touched);
  }

  lemma ReportSound(h: set<Record>, axiom: Seen, touched: set<bytes>, obs: Observations, hosts: Hosts, now: int,
           pick: Pick)
    requires ObservationsOk(h, obs, now) && HostsOk(h, hosts, now) && AxiomOk(h, axiom, now)
    ensures AxiomOk(h, ReportAll(axiom, touched, obs, hosts, now, pick), now)
  {
    hide ObservationsOk, HostsOk, AxiomOk, Reported;
    ReportedFrom(axiom, touched, obs, hosts, now, pick);
    var seen := ReportAll(axiom, touched, obs, hosts, now, pick);
    if seen != axiom {
      var k :| k in touched && Located(obs, hosts, k, now) && seen == Reported(obs[k], hosts[obs[k].host], now);
      ReportedSound(h, obs, hosts, k, now);
    }
  }

  lemma ObserveRecordFresh(t: Track, r: Record, now: int)
    requires forall k :: k in t.obs ==> now <= t.obs[k].expires
    ensures forall k :: k in ObserveRecord(t, r, now).obs ==> now <= ObserveRecord(t, r, now).obs[k].expires
  {
    hide ServiceForName, MfdType, Internet, Lifetime;
    LifetimeBound(r.ttl);
  }

  lemma {:induction false} ObserveRecordsFresh(t: Track, rs: seq<Record>, i: nat, now: int)
    requires i <= |rs| && forall k :: k in t.obs ==> now <= t.obs[k].expires
    ensures forall k :: k in ObserveRecords(t, rs, i, now).obs ==> now <= ObserveRecords(t, rs, i, now).obs[k].expires
  {
    hide ObserveRecord;
    if i > 0 {
      ObserveRecordsFresh(t, rs, i - 1, now);
      ObserveRecordFresh(ObserveRecords(t, rs, i - 1, now), rs[i - 1], now);
    }
  }

  /** The name shown for an instance: without the dot and service type it ends in, if it does. */
  ghost predicate ShortName(name: bytes, inst: bytes, service: bytes) {
    inst == name + [46] + service || (name == inst && forall a :: inst != (a + [46]) + service)
  }

  /** The display entry says what is known of instance `k` and its host, until the first of the two runs out. */
  ghost predicate Shows(g: Tracker, seen: Seen, k: bytes, now: int) {
    && k in g.obs && g.obs[k].host in g.hosts
    && var o, a := g.obs[k], g.hosts[g.obs[k].host];
    && ShortName(seen.name, o.inst, o.service)
    && seen.service == o.service && seen.port == o.port && seen.ip == a.ip && seen.lastSeen == now
    && seen.expires <= o.expires && seen.expires <= a.expires && seen.expires in {o.expires, a.expires}
    && now <= seen.expires
  }

  /** An MFD service with a host is shown, for at most 900 s. */
  ghost predicate Displays(g: Tracker, seen: Seen, k: bytes, now: int) {
    && Shows(g, seen, k, now) && g.obs[k].host != [] && seen.expires <= now + 900_000_000_000
    && seen.service in {Ascii("_rtsp._tcp.local"), Ascii("_rym_rrc._tcp.local"), Ascii("_raydb._tcp.local")}
  }

  /**
   * The goodbyes of a packet leave the display entry expired if one of them names it or its address, and else as
   * is.
   */
  ghost predicate SaidGoodbye(axiom: Seen, rs: seq<Record>) {
    exists k :: 0 <= k < |rs| && rs[k].ttl == 0
                && (|| rs[k].name == axiom.name + [46] + axiom.service
                    || rs[k].target == axiom.name + [46] + axiom.service
                    || rs[k].address == axiom.ip)
  }

  lemma WithdrawnIff(axiom: Seen, rs: seq<Record>, now: int)
    ensures Withdrawn(axiom, rs, |rs|, now) == if SaidGoodbye(axiom, rs) then axiom.(expires := now) else axiom
  {
    if SaidGoodbye(axiom, rs) {
      var k :| 0 <= k < |rs| && rs[k].ttl == 0
                && (|| rs[k].name == axiom.name + [46] + axiom.service
                    || rs[k].target == axiom.name + [46] + axiom.service
                    || rs[k].address == axiom.ip);
      assert Withdraws(axiom, rs[k]);
    }
  }

  lemma ShortNameIs(inst: bytes, service: bytes)
    ensures ShortName(WithoutSuffix(inst, [DOT] + service), inst, service)
  {
    var suffix := [DOT] + service;
    if HasSuffix(inst, suffix) {
      assert inst == inst[..|inst| - |suffix|] + suffix;
    }
    forall a: bytes
      ensures (a + [46]) + service == a + suffix
    {}
  }

  lemma ShowsIs(g: Tracker, k: bytes, now: int)
    requires Located(g.obs, g.hosts, k, now) && now <= g.obs[k].expires
    ensures Shows(g, Reported(g.obs[k], g.hosts[g.obs[k].host], now), k, now)
  {
    hide WithoutSuffix, ShortName;
    ShortNameIs(g.obs[k].inst, g.obs[k].service);
  }

  lemma DisplaysIs(h: set<Record>, g: Tracker, k: bytes, now: int)
    requires Sound(h, g, now) && Located(g.obs, g.hosts, k, now) && now <= g.obs[k].expires
    ensures Displays(g, Reported(g.obs[k], g.hosts[g.obs[k].host], now), k, now)
  {
    hide AxiomOk, NamesHost, GivesAddress, WithoutSuffix, ShortName, MfdType;
    assert ObservedOk(h, k, g.obs[k], now) && HostOk(h, g.obs[k].host, g.hosts[g.obs[k].host], now);
    ShowsIs(g, k, now);
    TypesAreApart(g.obs[k].service);
  }

  /**
   * What a response can put on display: either the old entry, marked expired exactly if a goodbye names it or its
   * address, or an observation of an MFD service with a known host that has a current address, with that service,
   * port and address and the earlier of the two expiries, which lies between now and 900 s from now.
   */
  lemma WhatIsReported(h: set<Record>, g: Tracker, rs: seq<Record>, now: int, env: Environment, order: Orders)
    requires Sound(h, g, now) && RecordsOf(rs) <= h
    ensures var g' := Observe(g, rs, now, env, order);
            || g'.axiom == (if SaidGoodbye(g.axiom, rs) then g.axiom.(expires := now) else g.axiom)
            || (exists k :: Displays(g', g'.axiom, k, now))
  {
    hide AxiomOk, Withdrawn, ObserveRecords, AddressRecords, Trimmed, ReportAll, FreshHosts, NamesHost, GivesAddress,
         WithoutSuffix, MfdType, Displays, SaidGoodbye, Sound;
    ObserveSound(h, g, rs, now, env, order);
    ObserveRecordsFresh(Track(FreshObservations(g.obs, now), {}), rs, |rs|, now);
    var g' := Observe(g, rs, now, env, order);
    var before := Withdrawn(g.axiom, rs, |rs|, now);
    var touched := Addressed(g, rs, now, env).touched;
    WithdrawnIff(g.axiom, rs, now);
    ReportedFrom(before, touched, g'.obs, g'.hosts, now, order.touched);
    if g'.axiom != before {
      var k :| k in touched && Located(g'.obs, g'.hosts, k, now)
               && g'.axiom == Reported(g'.obs[k], g'.hosts[g'.obs[k].host], now);
      assert now <= Gathered(g, rs, now).obs[k].expires;
      DisplaysIs(h, g', k, now);
    }
  }

  // ----- goodbye packets --------------------------------------------------------------------

  lemma {:induction false} GoodbyesTouchNothing(t: Track, u: HostTrack, rs: seq<Record>, i: nat, now: int,
           env: Environment)
    requires i <= |rs| && forall r :: r in rs ==> r.ttl == 0
    ensures ObserveRecords(t, rs, i, now).touched == t.touched
    ensures forall obs :: AddressRecords(u, obs, rs, i, now, env).touched == u.touched
  {
    hide Lifetime, Asked, Knows, IsPointer, IsService;
    if i > 0 {
      GoodbyesTouchNothing(t, u, rs, i - 1, now, env);
      assert rs[i - 1] in rs;
    }
  }

  /** Some record names the display or its address. */
  ghost predicate NamesDisplay(axiom: Seen, rs: seq<Record>) {
    exists r :: r in rs && (r.name == FullName(axiom) || r.target == FullName(axiom) || r.address == axiom.ip)
  }

  /** A packet of goodbyes reports nobody; if it names the display or its address, the display is expired. */
  lemma GoodbyeWithdraws(g: Tracker, rs: seq<Record>, now: int, env: Environment, order: Orders)
    requires forall r :: r in rs ==> r.ttl == 0
    ensures var axiom := Observe(g, rs, now, env, order).axiom;
            && axiom == Withdrawn(g.axiom, rs, |rs|, now)
            && (NamesDisplay(g.axiom, rs) ==> axiom == g.axiom.(expires := now))
  {
    hide ObserveRecords, AddressRecords, Trimmed, FreshObservations, FreshHosts;
    var t := Track(FreshObservations(g.obs, now), {});
    GoodbyesTouchNothing(t, HostTrack(FreshHosts(g.hosts, now), {}, g.cache), rs, |rs|, now, env);
    assert Addressed(g, rs, now, env).touched == {};
    if r :| r in rs && (r.name == FullName(g.axiom) || r.target == FullName(g.axiom) || r.address == g.axiom.ip) {
      var k :| 0 <= k < |rs| && rs[k] == r;
      assert Withdraws(g.axiom, rs[k]);
    }
  }

  /** The name a goodbye is compared with is the instance itself exactly when that ends in its service type. */
  lemma FullNameIsInstanceIff(o: Observed, host: HostAddress, now: int)
    ensures FullName(Reported(o, host, now)) == o.inst <==> HasSuffix(o.inst, [DOT] + o.service)
  {
    var suffix := [DOT] + o.service;
    if HasSuffix(o.inst, suffix) {
      assert o.inst == o.inst[..|o.inst| - |suffix|] + suffix;
      assert o.inst[..|o.inst| - |suffix|] + [DOT] + o.service == o.inst[..|o.inst| - |suffix|] + suffix;
    } else {
      assert |FullName(Reported(o, host, now))| == |o.inst| + |suffix|;
    }
  }

  // ----- whole runs -------------------------------------------------------------------------

  /** One response on the display's network, and when and how it is handled. */
  datatype Heard = Heard(records: seq<Record>, now: int, order: Orders)

  /** Learning comes first; only a relevant response is observed. */
  function Handle(g: Tracker, e: Heard, env: Environment): Tracker {
    var learned := g.(cache := Learned(g.cache, e.records, env));
    if Relevant(g.cache, e.records, env) then Observe(learned, e.records, e.now, env, e.order) else learned
  }

  function Start(): Tracker {
    Tracker(map[], map[], NOBODY, EMPTY)
  }

  lemma LearnedNeverEmpty(s: State, rs: seq<Record>, env: Environment)
    requires [] !in s.expires
    ensures [] !in Learned(s, rs, env).expires
  {
    hide AllowedInstance, PermittedPointer, Internet, Lifetime, Room, Normalize;
    for i := 0 to |rs|
      invariant [] !in LearnPointers(s, rs, i, env).expires
    {
      AddedNeverEmpty(LearnPointers(s, rs, i, env), rs[i], env);
    }
    var t := LearnPointers(s, rs, |rs|, env);
    for i := 0 to |rs|
      invariant [] !in LearnHosts(t, rs, i, env).expires
    {
      var u := LearnHosts(t, rs, i, env);
      AddedNeverEmpty(u, rs[i], env);
      AddedNeverEmpty(Asked(u, rs[i].name, env), rs[i], env);
    }
  }

  lemma AddedNeverEmpty(s: State, r: Record, env: Environment)
    requires [] !in s.expires
    ensures [] !in Added(s, r.target, r.ttl, env).expires
    ensures [] !in Asked(s, r.name, env).expires
  {
    hide Normalize, Lifetime;
  }

  lemma LearnedSound(h: set<Record>, g: Tracker, rs: seq<Record>, env: Environment, now: int)
    requires Sound(h, g, now)
    ensures Sound(h, g.(cache := Learned(g.cache, rs, env)), now)
  {
    hide Learned, ObservationsOk, HostsOk, AxiomOk;
    LearnedNeverEmpty(g.cache, rs, env);
  }

  lemma StartSound(now: int)
    ensures Sound({}, Start(), now)
  {}

  // ----- a display that announces itself is found ----------------------------------------------

  lemma FreshSmaller(obs: Observations, hosts: Hosts, now: int)
    ensures |FreshObservations(obs, now)| <= |obs| && |FreshHosts(hosts, now)| <= |hosts|
  {
    SubsetSize(FreshObservations(obs, now).Keys, obs.Keys);
    SubsetSize(FreshHosts(hosts, now).Keys, hosts.Keys);
  }

  /** Every service record of this instance in the packet names this host. */
  ghost predicate OneHost(rs: seq<Record>, k: bytes, host: bytes) {
    forall r :: r in rs && IsService(r) && r.name == k ==> r.target == host
  }

  ghost predicate Tracks(t: Track, k: bytes, host: bytes) {
    k in t.obs && k in t.touched && t.obs[k].host == host
  }

  lemma ServiceStep(t: Track, r: Record, k: bytes, host: bytes, now: int)
    requires r.ttl > 0 && (IsService(r) && r.name == k ==> r.target == host)
    ensures var u := ObserveRecord(t, r, now);
      && |u.obs| <= |t.obs| + 1
      && (Tracks(t, k, host) || (IsService(r) && r.name == k) ==> Tracks(u, k, host))
  {
    hide IsPointer, IsService, ServiceForName, Lifetime;
    assert IsPointer(r) ==> !IsService(r) by {
      NotBoth(r);
    }
  }

  lemma NotBoth(r: Record)
    ensures !(IsPointer(r) && IsService(r))
  {
    hide ServiceForName;
  }

  lemma {:induction false} ServiceIsKept(t: Track, rs: seq<Record>, i: nat, n: nat, now: int)
    requires n <= |rs| && i < |rs| && IsService(rs[i]) && OneHost(rs, rs[i].name, rs[i].target)
    requires forall r :: r in rs ==> r.ttl > 0
    ensures var u := ObserveRecords(t, rs, n, now);
      && |u.obs| <= |t.obs| + n
      && (i < n ==> Tracks(u, rs[i].name, rs[i].target))
  {
    hide ObserveRecord, IsService, Tracks;
    if n > 0 {
      ServiceIsKept(t, rs, i, n - 1, now);
      assert rs[n - 1] in rs;
      ServiceStep(ObserveRecords(t, rs, n - 1, now), rs[n - 1], rs[i].name, rs[i].target, now);
    }
  }

  lemma {:induction false} HostIsKept(t: HostTrack, obs: Observations, rs: seq<Record>, j: nat, n: nat, now: int,
           env: Environment)
    requires n <= |rs| && j < |rs| && IsAddress(rs[j])
    requires Knows(AddressRecords(t, obs, rs, j, now, env).cache, rs[j].name, env)
    requires forall r :: r in rs ==> r.ttl > 0
    ensures var u := AddressRecords(t, obs, rs, n, now, env);
      && |u.hosts| <= |t.hosts| + n && t.touched <= u.touched
      && (j < n ==> rs[j].name in u.hosts && now <= u.hosts[rs[j].name].expires)
  {
    hide Knows, Asked, Lifetime;
    if n > 0 {
      HostIsKept(t, obs, rs, j, n - 1, now, env);
      assert rs[n - 1] in rs;
      LifetimeBound(rs[n - 1].ttl);
    }
  }

  /**
   * A response without goodbyes that holds a service record of an MFD instance and, for its host, an address
   * record whose name is known when its turn comes, puts a current display in place of the old entry.
   */
  lemma DisplayIsFound(g: Tracker, rs: seq<Record>, i: nat, j: nat, now: int, env: Environment, order: Orders)
    requires i < |rs| && IsService(rs[i]) && OneHost(rs, rs[i].name, rs[i].target)
    requires j < |rs| && IsAddress(rs[j]) && rs[j].name == rs[i].target
    requires var t := Gathered(g, rs, now);
      Knows(AddressRecords(HostTrack(FreshHosts(g.hosts, now), t.touched, g.cache), t.obs, rs, j, now, env).cache,
          rs[j].name, env)
    requires forall r :: r in rs ==> r.ttl > 0
    requires |g.obs| + |rs| <= MAX_OBSERVATIONS && |g.hosts| + |rs| <= MAX_HOSTS
    ensures var after := Observe(g, rs, now, env, order);
      && rs[i].name in after.obs && after.obs[rs[i].name].host == rs[i].target && rs[i].target in after.hosts
      && exists k :: Shows(after, after.axiom, k, now)
  {
    hide ObserveRecords, AddressRecords, Knows, Withdrawn, FreshObservations, FreshHosts, ReportAll, Reported, Shows;
    var k := rs[i].name;
    FreshSmaller(g.obs, g.hosts, now);
    ServiceIsKept(Track(FreshObservations(g.obs, now), {}), rs, i, |rs|, now);
    var t := Gathered(g, rs, now);
    HostIsKept(HostTrack(FreshHosts(g.hosts, now), t.touched, g.cache), t.obs, rs, j, |rs|, now, env);
    var u := Addressed(g, rs, now, env);
    assert Located(t.obs, u.hosts, k, now);
    ReportedFrom(Withdrawn(g.axiom, rs, |rs|, now), u.touched, t.obs, u.hosts, now, order.touched);
    FreshObserved(g, rs, now);
    var after := Observe(g, rs, now, env, order);
    var shown :| Located(t.obs, u.hosts, shown, now) && after.axiom == Reported(t.obs[shown],
        u.hosts[t.obs[shown].host], now);
    ShowsIs(after, shown, now);
  }

  lemma FreshObserved(g: Tracker, rs: seq<Record>, now: int)
    ensures var obs := Gathered(g, rs, now).obs; forall k :: k in obs ==> now <= obs[k].expires
  {
    hide ObserveRecords;
    ObserveRecordsFresh(Track(FreshObservations(g.obs, now), {}), rs, |rs|, now);
  }
}
