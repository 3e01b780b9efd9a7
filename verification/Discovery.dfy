/**
 * A display that announces itself is found, from the packet alone: learning makes its host known, and the host is
 * still known when the address records of the packet are looked at.
 */
module Discovery {
  import opened Bytes
  import opened DnsMessages
  import opened NameCache
  import opened ServicePolicy
  import opened RelayFilter
  import opened Observation

  ghost predicate KnownUntil(s: State, n: bytes, until: int) {
    n in s.expires && until <= s.expires[n]
  }

  /** The clock readings of the next `n` cache operations. */
  ghost predicate ClockWithin(env: Environment, ops: nat, n: nat, lo: int, hi: int) {
    forall i: nat :: ops <= i <= ops + n ==> lo <= env(i).now <= hi
  }

  /** At most `k` operations later, with at most `k` more names. */
  ghost predicate Progress(s: State, t: State, k: nat) {
    s.ops <= t.ops <= s.ops + k && |t.expires| <= |s.expires| + k
  }

  /** The clock does not outrun the shortest TTL of the packet. */
  ghost predicate Lasting(rs: seq<Record>, lo: int, hi: int) {
    forall i :: 0 <= i < |rs| ==> rs[i].ttl > 0 && lo + Lifetime(rs[i].ttl) >= hi
  }

  lemma AddedKeeps(s: State, name: bytes, ttl: u32, env: Environment, n: bytes, lo: int, hi: int)
    requires ttl > 0 && |s.expires| < MAX_NAMES && lo <= env(s.ops).now && lo + Lifetime(ttl) >= hi
    ensures Progress(s, Added(s, name, ttl, env), 1)
    ensures KnownUntil(s, n, hi) || Normalize(name) == n != [] ==> KnownUntil(Added(s, name, ttl, env), n, hi)
  {
    hide Normalize, Lifetime;
    var e := s.expires[Normalize(name) := env(s.ops).now + Lifetime(ttl)];
    assert e.Keys == s.expires.Keys + {Normalize(name)};
  }

  lemma AskedKeeps(s: State, name: bytes, env: Environment, n: bytes, hi: int)
    requires env(s.ops).now <= hi
    ensures Progress(s, Asked(s, name, env), 1) && |Asked(s, name, env).expires| <= |s.expires|
    ensures KnownUntil(s, n, hi) ==> KnownUntil(Asked(s, name, env), n, hi)
  {
    hide Normalize;
    assert (s.expires - {Normalize(name)}).Keys == s.expires.Keys - {Normalize(name)};
  }

  lemma LearnPointerKeeps(s: State, r: Record, env: Environment, n: bytes, lo: int, hi: int)
    requires r.ttl > 0 && |s.expires| < MAX_NAMES && lo <= env(s.ops).now && lo + Lifetime(r.ttl) >= hi
    ensures Progress(s, LearnPointer(s, r, env), 1)
    ensures KnownUntil(s, n, hi) || (Internet(r) && PermittedPointer(r) && Normalize(r.target) == n != []) ==>
        KnownUntil(LearnPointer(s, r, env), n, hi)
  {
    hide Added, Internet, PermittedPointer, Lifetime, Normalize;
    AddedKeeps(s, r.target, r.ttl, env, n, lo, hi);
  }

  /** A class IN service record of an instance that is permitted or known, with a host. */
  ghost predicate Teaches(s: State, r: Record, n: bytes, hi: int) {
    && Internet(r) && r.typ == SRV && Normalize(r.target) == n != []
    && (AllowedInstance(r.name) || KnownUntil(s, Normalize(r.name), hi))
  }

  lemma LearnHostKeeps(s: State, r: Record, env: Environment, n: bytes, lo: int, hi: int)
    requires r.ttl > 0 && |s.expires| < MAX_NAMES && ClockWithin(env, s.ops, 1, lo, hi) && lo + Lifetime(r.ttl) >= hi
    ensures var t := LearnHost(s, r, env); s.ops <= t.ops <= s.ops + 2 && |t.expires| <= |s.expires| + 1
    ensures KnownUntil(s, n, hi) || Teaches(s, r, n, hi) ==> KnownUntil(LearnHost(s, r, env), n, hi)
  {
    hide Added, Asked, Internet, Knows, Lifetime, Normalize, AllowedInstance;
    AskedKeeps(s, r.name, env, n, hi);
    var t := OwnerAsked(s, r.name, env);
    AddedKeeps(t, r.target, r.ttl, env, n, lo, hi);
    if KnownUntil(s, Normalize(r.name), hi) {
      KnownThen(s, r.name, env, hi);
    }
    assert r.target == [] ==> Normalize(r.target) == [] by {
      NothingNormal();
    }
  }

  lemma NothingNormal()
    ensures Normalize([]) == []
  {}

  lemma {:induction false} LearnPointersKeep(s: State, rs: seq<Record>, k: nat, i: nat, env: Environment, n: bytes,
           lo: int, hi: int)
    requires i <= |rs| && k < |rs| && Lasting(rs, lo, hi) && |s.expires| + i < MAX_NAMES
        && ClockWithin(env, s.ops, i, lo, hi)
    ensures Progress(s, LearnPointers(s, rs, i, env), i)
    ensures || KnownUntil(s, n, hi)
            || (k < i && Internet(rs[k]) && PermittedPointer(rs[k]) && Normalize(rs[k].target) == n != []) ==>
        KnownUntil(LearnPointers(s, rs, i, env), n, hi)
  {
    hide LearnPointer, Lifetime, KnownUntil, Internet, PermittedPointer, Normalize;
    if i > 0 {
      LearnPointersKeep(s, rs, k, i - 1, env, n, lo, hi);
      LearnPointerKeeps(LearnPointers(s, rs, i - 1, env), rs[i - 1], env, n, lo, hi);
    }
  }

  lemma {:induction false} LearnHostsKeep(s: State, rs: seq<Record>, k: nat, i: nat, env: Environment, n: bytes,
           lo: int, hi: int)
    requires i <= |rs| && k < |rs| && Lasting(rs, lo, hi) && |s.expires| + i < MAX_NAMES
        && ClockWithin(env, s.ops, 2 * i, lo, hi)
    ensures var t := LearnHosts(s, rs, i, env); s.ops <= t.ops <= s.ops + 2 * i && |t.expires| <= |s.expires| + i
    ensures KnownUntil(s, n, hi) || (k < i && Teaches(s, rs[k], n, hi)) ==> KnownUntil(LearnHosts(s, rs, i, env), n, hi)
  {
    hide LearnHost, Lifetime, KnownUntil, Normalize, AllowedInstance, Internet;
    if i > 0 {
      LearnHostsKeep(s, rs, k, i - 1, env, n, lo, hi);
      LearnHostsKeep(s, rs, k, i - 1, env, Normalize(rs[k].name), lo, hi);
      var t := LearnHosts(s, rs, i - 1, env);
      assert ClockWithin(env, t.ops, 1, lo, hi);
      LearnHostKeeps(t, rs[i - 1], env, n, lo, hi);
    }
  }

  /** Room, a steady clock and no goodbyes while the packet is learned from. */
  ghost predicate Calm(s: State, rs: seq<Record>, env: Environment, lo: int, hi: int) {
    Lasting(rs, lo, hi) && |s.expires| + 2 * |rs| < MAX_NAMES && ClockWithin(env, s.ops, 3 * |rs|, lo, hi)
  }

  /** Learning makes the host of an MFD service record known to the end of the window. */
  lemma LearnedHost(s: State, rs: seq<Record>, k: nat, env: Environment, lo: int, hi: int)
    requires k < |rs| && Calm(s, rs, env, lo, hi)
    requires IsService(rs[k]) && Normalize(rs[k].target) != []
    ensures KnownUntil(Learned(s, rs, env), Normalize(rs[k].target), hi)
    ensures s.ops <= Learned(s, rs, env).ops <= s.ops + 3 * |rs|
  {
    hide LearnPointers, LearnHosts, Lifetime, KnownUntil, Normalize, ServiceForName, RelevantHttp;
    var n := Normalize(rs[k].target);
    LearnPointersKeep(s, rs, k, |rs|, env, n, lo, hi);
    assert AllowedInstance(rs[k].name);
    LearnHostsKeep(LearnPointers(s, rs, |rs|, env), rs, k, |rs|, env, n, lo, hi);
  }

  /**
   * Everything a packet may teach is learned: the target of each class IN pointer that is permitted, and the host of
   * each class IN service record whose owner is a permitted instance, is cached already,
       or is pointed at in the packet.
   */
  lemma AllIsLearned(s: State, rs: seq<Record>, k: nat, env: Environment, lo: int, hi: int)
    requires k < |rs| && Calm(s, rs, env, lo, hi) && Normalize(rs[k].target) != []
    requires rs[k].cls == 1 || rs[k].cls == 0x8001
    requires || PointsTo(rs[k])
             || (rs[k].typ == 33 && (PermittedName(rs[k].name) || KnownUntil(s, Normalize(rs[k].name), hi)))
             || (rs[k].typ == 33 && exists j :: 0 <= j < |rs| && (rs[j].cls == 1 || rs[j].cls == 0x8001)
                                      && PointsTo(rs[j]) && Normalize(rs[j].target) == Normalize(rs[k].name) != [])
    ensures KnownUntil(Learned(s, rs, env), Normalize(rs[k].target), hi)
  {
    hide LearnPointers, LearnHosts, Lifetime, KnownUntil, Normalize, AllowedInstance, PermittedName, PointsTo,
         PermittedPointer;
    var n, t := Normalize(rs[k].target), LearnPointers(s, rs, |rs|, env);
    InternetClassIff(rs[k].cls);
    PermittedPointerIff(rs[k]);
    AllowedInstanceIff(rs[k].name);
    LearnPointersKeep(s, rs, k, |rs|, env, n, lo, hi);
    LearnPointersKeep(s, rs, k, |rs|, env, Normalize(rs[k].name), lo, hi);
    if j :| 0 <= j < |rs| && (rs[j].cls == 1 || rs[j].cls == 0x8001) && PointsTo(rs[j])
            && Normalize(rs[j].target) == Normalize(rs[k].name) != [] {
      InternetClassIff(rs[j].cls);
      PermittedPointerIff(rs[j]);
      LearnPointersKeep(s, rs, j, |rs|, env, Normalize(rs[k].name), lo, hi);
    }
    LearnHostsKeep(t, rs, k, |rs|, env, n, lo, hi);
  }

  lemma {:induction false} AddressesKeep(t: HostTrack, obs: Observations, rs: seq<Record>, i: nat, now: int,
                                         env: Environment, n: bytes, lo: int, hi: int)
    requires i <= |rs| && ClockWithin(env, t.cache.ops, i, lo, hi) && KnownUntil(t.cache, n, hi)
    ensures var u := AddressRecords(t, obs, rs, i, now, env).cache;
      t.cache.ops <= u.ops <= t.cache.ops + i && KnownUntil(u, n, hi)
  {
    hide Asked, Knows, KnownUntil;
    if i > 0 {
      AddressesKeep(t, obs, rs, i - 1, now, env, n, lo, hi);
      AskedKeeps(AddressRecords(t, obs, rs, i - 1, now, env).cache, rs[i - 1].name, env, n, hi);
    }
  }

  lemma ServiceIsRelevant(s: State, rs: seq<Record>, k: nat, env: Environment)
    requires k < |rs| && IsService(rs[k])
    ensures Relevant(s, rs, env)
  {
    hide Knows, LearnHosts, LearnPointers, Internet, ServiceForName, RelevantHttp, PermittedPointer;
    assert AllowedInstance(rs[k].name);
  }

  /**
   * A response without goodbyes that holds a service record of an MFD instance and an address record of its host
   * puts a current display in place of the old entry, whatever was known before: it needs room in the tables, one
   * host per instance, and a clock that does not outrun the shortest TTL while the packet is handled.
   */
  lemma AnnouncedDisplayIsFound(g: Tracker, e: Heard, i: nat, j: nat, env: Environment, lo: int, hi: int)
    requires var rs := e.records;
      && i < |rs| && IsService(rs[i]) && OneHost(rs, rs[i].name, rs[i].target) && Normalize(rs[i].target) != []
      && j < |rs| && IsAddress(rs[j]) && rs[j].name == rs[i].target
      && Lasting(rs, lo, hi) && ClockWithin(env, g.cache.ops, 4 * |rs|, lo, hi)
      && |g.cache.expires| + 2 * |rs| < MAX_NAMES && |g.obs| + |rs| <= MAX_OBSERVATIONS && |g.hosts| + |rs| <= MAX_HOSTS
    ensures var after := Handle(g, e, env);
      && e.records[i].name in after.obs && after.obs[e.records[i].name].host == e.records[i].target
      && e.records[i].target in after.hosts
      && exists k :: Shows(after, after.axiom, k, e.now)
  {
    hide Learned, Observe, Relevant, AddressRecords, Gathered, Lifetime, IsService, IsAddress, Normalize, Located,
         Shows, OneHost, FreshHosts, KnownUntil;
    var rs := e.records;
    assert Calm(g.cache, rs, env, lo, hi);
    LearnedHost(g.cache, rs, i, env, lo, hi);
    ServiceIsRelevant(g.cache, rs, i, env);
    var l := g.(cache := Learned(g.cache, rs, env));
    var t := Gathered(l, rs, e.now);
    var start := HostTrack(FreshHosts(l.hosts, e.now), t.touched, l.cache);
    assert ClockWithin(env, l.cache.ops, j, lo, hi);
    AddressesKeep(start, t.obs, rs, j, e.now, env, Normalize(rs[i].target), lo, hi);
    var cache := AddressRecords(start, t.obs, rs, j, e.now, env).cache;
    assert Knows(cache, rs[j].name, env) by {
      KnownThen(cache, rs[j].name, env, hi);
    }
    AllPositive(rs, lo, hi);
    DisplayIsFound(l, rs, i, j, e.now, env, e.order);
  }

  lemma KnownThen(s: State, name: bytes, env: Environment, hi: int)
    requires KnownUntil(s, Normalize(name), hi) && env(s.ops).now <= hi
    ensures Knows(s, name, env)
  {
    hide Normalize;
  }

  lemma AllPositive(rs: seq<Record>, lo: int, hi: int)
    requires Lasting(rs, lo, hi)
    ensures forall r :: r in rs ==> r.ttl > 0
  {}
}
