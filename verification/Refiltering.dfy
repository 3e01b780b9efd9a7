/**
 * When a relayed response, parsed and filtered again by the same cache, is relayed unchanged: for records
 * with a positive TTL, service records with a target and no label ending in a dot, under one fixed clock and
 * with spare room, exactly when every address record sent is held by the cache or by a record beside it.
 */
module Refiltering {
  import opened Bytes
  import opened DnsNames
  import opened DnsMessages
  import opened NameCache
  import opened ServicePolicy
  import opened RelayFilter

  ghost predicate Undotted(wire: bytes) {
    NameWire(wire) && !LastLabelDotted(LabelsOf(wire))
  }

  /** The guard on one record, whatever its class. */
  ghost predicate Steady(r: Record) {
    && RecordOk(r) && r.ttl > 0
    && Undotted(r.wire)
    && (HasTarget(r.typ) ==> Undotted(r.targetWire))
    && (r.typ == SRV ==> r.target != [])
  }

  ghost predicate AllSteady(rs: seq<Record>) {
    forall i :: 0 <= i < |rs| ==> Steady(rs[i])
  }

  ghost predicate AllInternet(rs: seq<Record>) {
    forall i :: 0 <= i < |rs| ==> Internet(rs[i])
  }

  ghost predicate ClockStopped(env: Environment, now: int) {
    forall i :: env(i).now == now
  }

  // ----- a stopped clock and spare room: nothing known is forgotten -------------------------

  /** Everything live in `s` is live in `t`, and `t` has at most `extra` more entries. */
  ghost predicate Extends(s: State, t: State, extra: nat, now: int) {
    && |t.expires| <= |s.expires| + extra
    && forall n :: n in s.expires && now <= s.expires[n] ==> n in t.expires && now <= t.expires[n]
  }

  lemma AddedExtends(s: State, name: bytes, ttl: u32, env: Environment, now: int)
    requires ClockStopped(env, now) && ttl > 0 && |s.expires| < MAX_NAMES
    ensures Extends(s, Added(s, name, ttl, env), 1, now)
    ensures Normalize(name) != [] ==> Knows(Added(s, name, ttl, env), name, env)
  {
    hide Normalize;
    var n := Normalize(name);
    assert Lifetime(ttl) > 0;
    var e := s.expires[n := now + Lifetime(ttl)];
    assert e.Keys == s.expires.Keys + {n};
  }

  lemma AskedExtends(s: State, name: bytes, env: Environment, now: int)
    requires ClockStopped(env, now)
    ensures Extends(s, Asked(s, name, env), 0, now)
  {
    hide Normalize;
    var n := Normalize(name);
    assert (s.expires - {n}).Keys == s.expires.Keys - {n};
  }

  lemma OwnerAskedExtends(s: State, name: bytes, env: Environment, now: int)
    requires ClockStopped(env, now)
    ensures Extends(s, OwnerAsked(s, name, env), 0, now)
  {
    hide Asked, AllowedInstance;
    AskedExtends(s, name, env, now);
  }

  lemma ExtendsTrans(s: State, t: State, u: State, a: nat, b: nat, now: int)
    requires Extends(s, t, a, now) && Extends(t, u, b, now)
    ensures Extends(s, u, a + b, now)
  {}

  lemma ExtendsKnows(s: State, t: State, extra: nat, name: bytes, env: Environment, now: int)
    requires ClockStopped(env, now) && Extends(s, t, extra, now) && Knows(s, name, env)
    ensures Knows(t, name, env)
  {
    hide Normalize;
  }

  lemma LearnPointerExtends(s: State, r: Record, env: Environment, now: int)
    requires ClockStopped(env, now) && r.ttl > 0 && |s.expires| < MAX_NAMES
    ensures Extends(s, LearnPointer(s, r, env), 1, now)
  {
    hide Added, Internet, PermittedPointer;
    AddedExtends(s, r.target, r.ttl, env, now);
  }

  lemma LearnHostExtends(s: State, r: Record, env: Environment, now: int)
    requires ClockStopped(env, now) && r.ttl > 0 && |s.expires| < MAX_NAMES
    ensures Extends(s, LearnHost(s, r, env), 1, now)
    ensures Internet(r) && r.typ == SRV && r.target != [] && OwnerKnown(s, r.name, env) && Normalize(r.target) != [] ==>
              Knows(LearnHost(s, r, env), r.target, env)
  {
    hide Added, OwnerAsked, Internet, AllowedInstance, Normalize, Knows;
    var t := OwnerAsked(s, r.name, env);
    OwnerAskedExtends(s, r.name, env, now);
    AddedExtends(t, r.target, r.ttl, env, now);
    ExtendsTrans(s, t, Added(t, r.target, r.ttl, env), 0, 1, now);
  }

  lemma {:induction false} LearnPointersExtend(s: State, rs: seq<Record>, i: nat, env: Environment, now: int)
    requires i <= |rs| && ClockStopped(env, now) && AllSteady(rs) && |s.expires| + i < MAX_NAMES
    ensures Extends(s, LearnPointers(s, rs, i, env), i, now)
  {
    hide LearnPointer, RecordOk;
    if i > 0 {
      LearnPointersExtend(s, rs, i - 1, env, now);
      var t := LearnPointers(s, rs, i - 1, env);
      LearnPointerExtends(t, rs[i - 1], env, now);
      ExtendsTrans(s, t, LearnPointers(s, rs, i, env), i - 1, 1, now);
    }
  }

  lemma {:induction false} LearnHostsExtend(s: State, rs: seq<Record>, i: nat, j: nat, env: Environment, now: int)
    requires i <= j <= |rs| && ClockStopped(env, now) && AllSteady(rs) && |s.expires| + j < MAX_NAMES
    ensures Extends(LearnHosts(s, rs, i, env), LearnHosts(s, rs, j, env), j - i, now)
    ensures |LearnHosts(s, rs, j, env).expires| <= |s.expires| + j
    decreases j
  {
    hide LearnHost, RecordOk;
    if j > 0 {
      var t := LearnHosts(s, rs, j - 1, env);
      LearnHostsExtend(s, rs, if i < j then i else 0, j - 1, env, now);
      LearnHostExtends(t, rs[j - 1], env, now);
      if i < j {
        ExtendsTrans(LearnHosts(s, rs, i, env), t, LearnHosts(s, rs, j, env), j - 1 - i, 1, now);
      }
    }
  }

  /** A service record whose owner is permitted or known beforehand makes its target known. */
  lemma HostKnown(s: State, rs: seq<Record>, k: nat, env: Environment, now: int)
    requires k < |rs| && ClockStopped(env, now) && AllSteady(rs) && |s.expires| + |rs| < MAX_NAMES
    requires Internet(rs[k]) && rs[k].typ == SRV && OwnerKnown(s, rs[k].name, env)
    ensures Knows(LearnHosts(s, rs, |rs|, env), rs[k].target, env)
  {
    hide LearnHost, LearnHosts, Steady, OwnerKnown, Internet, Knows, Extends, Normalize;
    LearnHostsExtend(s, rs, 0, k, env, now);
    NoHosts(s, rs, env);
    SteadyName(rs[k]);
    SteadyTtl(rs[k]);
    OwnerStillKnown(s, LearnHosts(s, rs, k, env), k, rs[k].name, env, now);
    HostsNext(s, rs, k, env);
    LearnHostExtends(LearnHosts(s, rs, k, env), rs[k], env, now);
    LearnHostsExtend(s, rs, k + 1, |rs|, env, now);
    ExtendsKnows(LearnHosts(s, rs, k + 1, env), LearnHosts(s, rs, |rs|, env), |rs| - k - 1, rs[k].target, env, now);
  }

  lemma OwnerStillKnown(s: State, t: State, extra: nat, name: bytes, env: Environment, now: int)
    requires ClockStopped(env, now) && Extends(s, t, extra, now) && OwnerKnown(s, name, env)
    ensures OwnerKnown(t, name, env)
  {
    hide Knows, AllowedInstance, Extends;
    if Knows(s, name, env) {
      ExtendsKnows(s, t, extra, name, env, now);
    }
  }

  lemma HostsNext(s: State, rs: seq<Record>, k: nat, env: Environment)
    requires k < |rs|
    ensures LearnHosts(s, rs, k + 1, env) == LearnHost(LearnHosts(s, rs, k, env), rs[k], env)
  {
    hide LearnHost;
  }

  /** Learning forgets nothing, and learns the targets of service records with a permitted or known owner. */
  lemma LearnedExtends(s: State, rs: seq<Record>, env: Environment, now: int)
    requires ClockStopped(env, now) && AllSteady(rs) && |s.expires| + 2 * |rs| < MAX_NAMES
    ensures Extends(s, Learned(s, rs, env), 2 * |rs|, now)
    ensures forall k :: 0 <= k < |rs| && Internet(rs[k]) && rs[k].typ == SRV && OwnerKnown(s, rs[k].name, env) ==>
                          Knows(Learned(s, rs, env), rs[k].target, env)
  {
    hide LearnPointers, LearnHosts, Steady, AllowedInstance, Knows, Internet;
    var t := LearnPointers(s, rs, |rs|, env);
    LearnPointersExtend(s, rs, |rs|, env, now);
    LearnHostsExtend(t, rs, 0, |rs|, env, now);
    assert LearnHosts(t, rs, 0, env) == t by {
      NoHosts(t, rs, env);
    }
    ExtendsTrans(s, t, Learned(s, rs, env), |rs|, |rs|, now);
    forall k | 0 <= k < |rs| && Internet(rs[k]) && rs[k].typ == SRV && OwnerKnown(s, rs[k].name, env)
      ensures Knows(Learned(s, rs, env), rs[k].target, env)
    {
      if Knows(s, rs[k].name, env) {
        ExtendsKnows(s, t, |rs|, rs[k].name, env, now);
      }
      HostKnown(t, rs, k, env, now);
    }
  }

  /** The target of a permitted pointer is known after learning. */
  lemma PointerKnown(s: State, rs: seq<Record>, k: nat, env: Environment, now: int)
    requires k < |rs| && ClockStopped(env, now) && AllSteady(rs) && |s.expires| + 2 * |rs| < MAX_NAMES
    requires Internet(rs[k]) && PermittedPointer(rs[k]) && Normalize(rs[k].target) != []
    ensures Knows(Learned(s, rs, env), rs[k].target, env)
  {
    hide LearnPointers, LearnHosts, Steady, Knows, Internet, PermittedPointer, Normalize, Extends, Added;
    var before, after := LearnPointers(s, rs, k, env), LearnPointers(s, rs, k + 1, env);
    var t := LearnPointers(s, rs, |rs|, env);
    LearnPointersExtend(s, rs, k, env, now);
    ExtendsSize(s, before, k, now);
    SteadyTtl(rs[k]);
    AddedExtends(before, rs[k].target, rs[k].ttl, env, now);
    PointersNext(s, rs, k, env);
    PointersLater(s, rs, k + 1, |rs|, env, now);
    ExtendsKnows(after, t, |rs| - k - 1, rs[k].target, env, now);
    LearnPointersExtend(s, rs, |rs|, env, now);
    ExtendsSize(s, t, |rs|, now);
    LearnHostsExtend(t, rs, 0, |rs|, env, now);
    NoHosts(t, rs, env);
    ExtendsKnows(t, Learned(s, rs, env), |rs|, rs[k].target, env, now);
  }

  lemma PointersNext(s: State, rs: seq<Record>, k: nat, env: Environment)
    requires k < |rs|
    ensures LearnPointers(s, rs, k + 1, env) == LearnPointer(LearnPointers(s, rs, k, env), rs[k], env)
  {
    hide LearnPointer;
  }

  lemma ExtendsSize(s: State, t: State, extra: nat, now: int)
    requires Extends(s, t, extra, now)
    ensures |t.expires| <= |s.expires| + extra
  {}

  lemma SteadyTtl(r: Record)
    requires Steady(r)
    ensures r.ttl > 0
  {
    hide RecordOk, Undotted;
  }

  lemma {:induction false} PointersLater(s: State, rs: seq<Record>, i: nat, j: nat, env: Environment, now: int)
    requires i <= j <= |rs| && ClockStopped(env, now) && AllSteady(rs) && |s.expires| + j < MAX_NAMES
    ensures Extends(LearnPointers(s, rs, i, env), LearnPointers(s, rs, j, env), j - i, now)
    decreases j
  {
    hide LearnPointer, LearnPointers, Steady, Extends;
    var t := LearnPointers(s, rs, if j == 0 then 0 else j - 1, env);
    if i < j {
      PointersLater(s, rs, i, j - 1, env, now);
      LearnPointersExtend(s, rs, j - 1, env, now);
      ExtendsSize(s, t, j - 1, now);
      SteadyTtl(rs[j - 1]);
      LearnPointerExtends(t, rs[j - 1], env, now);
      PointersNext(s, rs, j - 1, env);
      ExtendsTrans(LearnPointers(s, rs, i, env), t, LearnPointers(s, rs, j, env), j - 1 - i, 1, now);
    } else {
      ExtendsSame(LearnPointers(s, rs, i, env), now);
    }
  }

  lemma ExtendsSame(s: State, now: int)
    ensures Extends(s, s, 0, now)
  {}

  /**
   * A name in the cache after learning was in it as it is now, or is the target of a permitted pointer or a
   * service record.
   */
  ghost predicate Sourced(s: State, t: State, rs: seq<Record>, n: bytes) {
    || (n in s.expires && n in t.expires && t.expires[n] == s.expires[n])
    || (n != [] && exists k :: 0 <= k < |rs| && Internet(rs[k]) && (PermittedPointer(rs[k]) || rs[k].typ == SRV)
                               && Normalize(rs[k].target) == n)
  }

  lemma AddedSourced(s: State, t: State, rs: seq<Record>, k: nat, env: Environment)
    requires k < |rs| && Internet(rs[k]) && (PermittedPointer(rs[k]) || rs[k].typ == SRV)
    requires forall n :: n in t.expires ==> Sourced(s, t, rs, n)
    ensures forall n :: n in Added(t, rs[k].target, rs[k].ttl, env).expires ==>
                          Sourced(s, Added(t, rs[k].target, rs[k].ttl, env), rs, n)
  {
    hide Internet, PermittedPointer, Normalize, Lifetime;
    var u := Added(t, rs[k].target, rs[k].ttl, env);
    forall n | n in u.expires
      ensures Sourced(s, u, rs, n)
    {
      if n != Normalize(rs[k].target) || n == [] {
        assert n in t.expires && u.expires[n] == t.expires[n];
        assert Sourced(s, t, rs, n);
      }
    }
  }

  lemma AskedSourced(s: State, t: State, rs: seq<Record>, name: bytes, env: Environment)
    requires forall n :: n in t.expires ==> Sourced(s, t, rs, n)
    ensures forall n :: n in OwnerAsked(t, name, env).expires ==> Sourced(s, OwnerAsked(t, name, env), rs, n)
  {
    hide Internet, PermittedPointer, Normalize, AllowedInstance;
    var u := OwnerAsked(t, name, env);
    forall n | n in u.expires
      ensures Sourced(s, u, rs, n)
    {
      assert n in t.expires && u.expires[n] == t.expires[n];
      assert Sourced(s, t, rs, n);
    }
  }

  lemma LearnedSourced(s: State, rs: seq<Record>, env: Environment)
    ensures forall n :: n in Learned(s, rs, env).expires ==> Sourced(s, Learned(s, rs, env), rs, n)
  {
    hide Internet, PermittedPointer, Normalize, Added, OwnerAsked, OwnerKnown;
    assert forall n :: n in s.expires ==> Sourced(s, s, rs, n);
    for i := 0 to |rs|
      invariant forall n :: n in LearnPointers(s, rs, i, env).expires ==>
          Sourced(s, LearnPointers(s, rs, i, env), rs, n)
    {
      if Internet(rs[i]) && PermittedPointer(rs[i]) {
        AddedSourced(s, LearnPointers(s, rs, i, env), rs, i, env);
      }
    }
    var p := LearnPointers(s, rs, |rs|, env);
    for i := 0 to |rs|
      invariant forall n :: n in LearnHosts(p, rs, i, env).expires ==> Sourced(s, LearnHosts(p, rs, i, env), rs, n)
    {
      var t := LearnHosts(p, rs, i, env);
      AskedSourced(s, t, rs, rs[i].name, env);
      if Internet(rs[i]) && OwnerKnown(t, rs[i].name, env) && rs[i].typ == SRV && rs[i].target != [] {
        AddedSourced(s, OwnerAsked(t, rs[i].name, env), rs, i, env);
      }
    }
  }

  lemma NoHosts(s: State, rs: seq<Record>, env: Environment)
    ensures LearnHosts(s, rs, 0, env) == s
  {}

  lemma {:induction false} FilterStateSame(s: State, rs: seq<Record>, i: nat, own: Own, env: Environment, now: int)
    requires i <= |rs| && ClockStopped(env, now)
    ensures Extends(s, FilterState(s, rs, i, own, env), 0, now)
    ensures forall n :: n in FilterState(s, rs, i, own, env).expires ==>
                          n in s.expires && FilterState(s, rs, i, own, env).expires[n] == s.expires[n]
  {
    hide Suppressed, AllowedInstance, Normalize;
    if i > 0 {
      FilterStateSame(s, rs, i - 1, own, env, now);
      var t := FilterState(s, rs, i - 1, own, env);
      AskedExtends(t, rs[i - 1].name, env, now);
      ExtendsTrans(s, t, FilterState(s, rs, i, own, env), 0, 0, now);
    }
  }

  /** With the clock stopped, asking does not change what is known. */
  lemma FilterStateKnows(s: State, rs: seq<Record>, i: nat, own: Own, name: bytes, env: Environment, now: int)
    requires i <= |rs| && ClockStopped(env, now)
    ensures Knows(FilterState(s, rs, i, own, env), name, env) <==> Knows(s, name, env)
  {
    hide Normalize, FilterState;
    FilterStateSame(s, rs, i, own, env, now);
  }

  // ----- the second pass --------------------------------------------------------------------

  /** Display names of steady records survive re-encoding. */
  lemma SteadyName(r: Record)
    requires Steady(r)
    ensures DisplayOf(r.wire) == r.name
    ensures HasTarget(r.typ) ==> DisplayOf(r.targetWire) == r.target
    ensures Normalize(r.name) == r.name && (HasTarget(r.typ) ==> Normalize(r.target) == r.target)
    ensures r.typ == SRV ==> r.target != [] && Normalize(r.target) != []
  {
    UndottedName(r.name, r.wire);
    if HasTarget(r.typ) {
      UndottedName(r.target, r.targetWire);
    }
  }

  lemma UndottedName(name: bytes, wire: bytes)
    requires Names(name, wire) && Undotted(wire)
    ensures DisplayOf(wire) == name && Normalize(name) == name
    ensures name != [] ==> Normalize(name) != []
  {
    hide LabelsOf, Join, Lower;
    JoinEnds(LabelsOf(wire));
    LowerTwice(Join(LabelsOf(wire)));
    assert !EndsWithDot(name) by {
      LowerEnd(Join(LabelsOf(wire)));
    }
  }

  lemma LowerEnd(s: bytes)
    ensures EndsWithDot(Lower(s)) <==> EndsWithDot(s)
    ensures Lower(s) == [] <==> s == []
  {}

  /** A relayed record read back is the same record up to its compressed payload. */
  lemma UncompressedIsSteady(r: Record)
    requires Steady(r)
    ensures Uncompressed(r) == r.(data := EmitData(r))
    ensures Steady(Uncompressed(r))
    ensures RecordBytes(Uncompressed(r)) == RecordBytes(r)
  {
    hide DisplayOf, Names, RRBytes, TxtOk, Undotted;
    SteadyName(r);
    if r.typ == PTR {
      TargetFits(r.target, r.targetWire);
    } else if r.typ == SRV {
      TargetFits(r.target, r.targetWire);
      assert EmitData(r)[..6] == r.data[..6];
      assert U16At(EmitData(r), 4) == U16At(r.data, 4);
    }
  }

  lemma TargetFits(target: bytes, wire: bytes)
    requires Names(target, wire)
    ensures 1 <= |wire| <= MAX_WIRE
  {}

  lemma {:induction false} UncompressedBytes(rs: seq<Record>)
    requires AllSteady(rs)
    ensures AllSteady(UncompressedAll(rs))
    ensures RecordsBytes(UncompressedAll(rs)) == RecordsBytes(rs)
  {
    hide Steady, RecordBytes, RecordOk, Uncompressed;
    SteadyAreOk(rs);
    if rs != [] {
      UncompressedIsSteady(rs[0]);
      UncompressedBytes(rs[1..]);
    }
  }

  lemma SteadyAreOk(rs: seq<Record>)
    requires AllSteady(rs)
    ensures forall i :: 0 <= i < |rs| ==> RecordOk(rs[i])
  {
    hide RecordOk, Internet, Undotted;
  }

  lemma {:induction false} AllPass(s: State, rs: seq<Record>, i: nat, own: Own, env: Environment)
    requires i <= |rs| && forall k :: 0 <= k < i ==> Passes(s, rs, k, own, env)
    ensures Kept(s, rs, i, own, env) == rs[..i]
  {
    hide Passes;
    if i > 0 {
      AllPass(s, rs, i - 1, own, env);
      assert rs[..i - 1] + [rs[i - 1]] == rs[..i];
    }
  }

  lemma {:induction false} KeptSteady(s: State, rs: seq<Record>, i: nat, own: Own, env: Environment)
    requires i <= |rs| && AllSteady(rs)
    ensures AllSteady(Kept(s, rs, i, own, env))
  {
    hide Steady, Passes;
    if i > 0 {
      KeptSteady(s, rs, i - 1, own, env);
      assert Steady(rs[i - 1]);
    }
  }

  // ----- exactly when the second pass keeps everything ------------------------------------------

  predicate AddressType(r: Record) {
    r.typ == A || r.typ == AAAA
  }

  /** Every address record sent has a name the cache knows, or one that a service record sent beside it targets. */
  ghost predicate AddressesHeld(s: State, kept: seq<Record>, env: Environment) {
    forall k :: 0 <= k < |kept| && AddressType(kept[k]) ==>
                  Knows(s, kept[k].name, env) || Targeted(kept, kept[k].name)
  }

  ghost predicate Targeted(kept: seq<Record>, name: bytes) {
    exists j :: 0 <= j < |kept| && kept[j].typ == SRV && kept[j].target == name
  }

  /** A record that may pass, when its owner is known if it needs to be. */
  lemma PermittedIff(s: State, t: State, r: Record, d: bytes, hosts: set<bytes>, hosts': set<bytes>, own: Own,
                     env: Environment)
    requires Permitted(s, r, hosts, own, env)
    requires Knows(s, r.name, env) ==> Knows(t, r.name, env)
    ensures Permitted(t, r.(data := d), hosts', own, env) <==>
            (AddressType(r) ==> Knows(t, r.name, env) || r.name in hosts')
  {
    hide Knows, AllowedInstance;
  }

  /** Where a record sent stands now, and what let it pass. */
  lemma PassesAgainIff(first: State, rs: seq<Record>, i: nat, second: State, extra: nat, again: seq<Record>, j: nat,
                       d: bytes, own: Own, env: Environment, now: int)
    requires ClockStopped(env, now) && Extends(first, second, extra, now)
    requires i < |rs| && Passes(first, rs, i, own, env)
    requires j < |again| && again[j] == rs[i].(data := d)
    ensures Passes(second, again, j, own, env) <==>
            (AddressType(again[j]) ==>
               Knows(second, again[j].name, env) || again[j].name in PacketHosts(again, |again|))
  {
    hide FilterState, Knows, AllowedInstance, Extends, Permitted, PacketHosts;
    FilterStateKnows(first, rs, i, own, rs[i].name, env, now);
    FilterStateKnows(second, again, j, own, rs[i].name, env, now);
    if Knows(first, rs[i].name, env) {
      ExtendsKnows(first, second, extra, rs[i].name, env, now);
    }
    PermittedIff(FilterState(first, rs, i, own, env), FilterState(second, again, j, own, env), rs[i], d,
                 PacketHosts(rs, |rs|), PacketHosts(again, |again|), own, env);
  }

  /** The owner of a service record that passes is permitted or known. */
  lemma ServiceOwnerKnown(s: State, rs: seq<Record>, i: nat, own: Own, env: Environment, now: int)
    requires ClockStopped(env, now) && i < |rs| && Passes(s, rs, i, own, env)
    ensures Internet(rs[i]) && (rs[i].typ == SRV ==> OwnerKnown(s, rs[i].name, env))
    ensures rs[i].typ == PTR ==> PermittedPointer(rs[i])
  {
    hide FilterState, Knows, AllowedInstance, PermittedPointer;
    FilterStateKnows(s, rs, i, own, rs[i].name, env, now);
  }

  /** The filter sends a list unchanged exactly when each of its records passes. */
  lemma KeptAllIff(s: State, rs: seq<Record>, own: Own, env: Environment)
    ensures Kept(s, rs, |rs|, own, env) == rs <==> forall k :: 0 <= k < |rs| ==> Passes(s, rs, k, own, env)
  {
    hide Passes, Kept;
    if forall k :: 0 <= k < |rs| ==> Passes(s, rs, k, own, env) {
      AllPass(s, rs, |rs|, own, env);
      assert rs[..|rs|] == rs;
    } else {
      var k :| 0 <= k < |rs| && !Passes(s, rs, k, own, env);
      KeptShort(s, rs, |rs|, k, own, env);
    }
  }

  lemma {:induction false} KeptShort(s: State, rs: seq<Record>, i: nat, k: nat, own: Own, env: Environment)
    requires i <= |rs| && k < |rs| && !Passes(s, rs, k, own, env)
    ensures |Kept(s, rs, i, own, env)| <= if k < i then i - 1 else i
  {
    hide Passes;
    if i > 0 {
      KeptShort(s, rs, i - 1, k, own, env);
    }
  }

  /** Where the kept record `j` stood before. */
  lemma KeptFrom(s: State, rs: seq<Record>, j: nat, own: Own, env: Environment) returns (i: nat)
    requires j < |Kept(s, rs, |rs|, own, env)|
    ensures i < |rs| && Passes(s, rs, i, own, env) && Kept(s, rs, |rs|, own, env)[j] == rs[i]
  {
    hide Passes, Kept, KeptAt;
    KeptAtExact(s, rs, |rs|, own, env);
    i := KeptAt(s, rs, |rs|, own, env)[j];
    assert i in KeptAt(s, rs, |rs|, own, env);
  }

  /** What the two passes have in common: the second starts from a cache that extends the first one's. */
  lemma SecondExtends(s: State, rs: seq<Record>, own: Own, env: Environment, now: int)
    requires ClockStopped(env, now) && AllSteady(rs) && |s.expires| + 4 * |rs| < MAX_NAMES
    ensures var first := Learned(s, rs, env);
            var kept := Kept(first, rs, |rs|, own, env);
            && AllSteady(kept) && |kept| <= |rs| && (forall k :: 0 <= k < |kept| ==> RecordOk(kept[k]))
            && AllSteady(UncompressedAll(kept))
            && var after := FilterState(first, rs, |rs|, own, env);
               var again := UncompressedAll(kept);
               && |after.expires| + 2 * |again| < MAX_NAMES
               && Extends(first, Learned(after, again, env), 2 * |again|, now)
               && (forall n: bytes :: Knows(after, n, env) <==> Knows(first, n, env))
  {
    hide FilterState, Knows, RecordOk, Steady, Kept, Passes, Learned, UncompressedAll;
    var first := Learned(s, rs, env);
    var kept := Kept(first, rs, |rs|, own, env);
    KeptSteady(first, rs, |rs|, own, env);
    SteadyAreOk(kept);
    UncompressedBytes(kept);
    var again := UncompressedAll(kept);
    var after := FilterState(first, rs, |rs|, own, env);
    LearnedExtends(s, rs, env, now);
    FilterStateSame(first, rs, |rs|, own, env, now);
    LearnedExtends(after, again, env, now);
    ExtendsTrans(first, after, Learned(after, again, env), 0, 2 * |again|, now);
    forall n: bytes
      ensures Knows(after, n, env) <==> Knows(first, n, env)
    {
      FilterStateKnows(first, rs, |rs|, own, n, env, now);
    }
  }

  /** A record sent, as the second pass sees it. */
  lemma SentAgain(s: State, rs: seq<Record>, j: nat, own: Own, env: Environment, now: int) returns (i: nat)
    requires ClockStopped(env, now) && AllSteady(rs) && |s.expires| + 4 * |rs| < MAX_NAMES
    requires j < |Kept(Learned(s, rs, env), rs, |rs|, own, env)|
    requires forall k :: 0 <= k < |Kept(Learned(s, rs, env), rs, |rs|, own, env)| ==>
                           RecordOk(Kept(Learned(s, rs, env), rs, |rs|, own, env)[k])
    ensures var first := Learned(s, rs, env);
            var kept := Kept(first, rs, |rs|, own, env);
            && i < |rs| && Passes(first, rs, i, own, env) && kept[j] == rs[i] && Steady(rs[i])
            && UncompressedAll(kept)[j] == rs[i].(data := Uncompressed(rs[i]).data)
  {
    hide Knows, Kept, Passes, Learned, Steady, RecordOk, UncompressedAll, Uncompressed;
    var first := Learned(s, rs, env);
    i := KeptFrom(first, rs, j, own, env);
    UncompressedIsSteady(rs[i]);
  }

  /**
   * What the second pass knows of the name of a record sent: only what the first one knew, and the targets
   * of the service records sent.
   */
  lemma KnownSecondIff(s: State, rs: seq<Record>, name: bytes, own: Own, env: Environment, now: int)
    requires ClockStopped(env, now) && AllSteady(rs) && |s.expires| + 4 * |rs| < MAX_NAMES
    requires Normalize(name) == name
    requires forall k :: 0 <= k < |Kept(Learned(s, rs, env), rs, |rs|, own, env)| ==>
                           RecordOk(Kept(Learned(s, rs, env), rs, |rs|, own, env)[k])
    ensures var first := Learned(s, rs, env);
            var kept := Kept(first, rs, |rs|, own, env);
            Knows(Learned(FilterState(first, rs, |rs|, own, env), UncompressedAll(kept), env), name, env) <==>
            Knows(first, name, env) || Targeted(kept, name)
  {
    hide FilterState, AllowedInstance, RecordOk, Steady, Kept, Passes, Learned, UncompressedAll, Uncompressed, Knows,
         PermittedPointer, Internet;
    SecondExtends(s, rs, own, env, now);
    var first := Learned(s, rs, env);
    var kept := Kept(first, rs, |rs|, own, env);
    var again := UncompressedAll(kept);
    var after := FilterState(first, rs, |rs|, own, env);
    var second := Learned(after, again, env);
    if Knows(first, name, env) {
      ExtendsKnows(first, second, 2 * |again|, name, env, now);
    }
    if Targeted(kept, name) {
      var j :| 0 <= j < |kept| && kept[j].typ == SRV && kept[j].target == name;
      var i := SentAgain(s, rs, j, own, env, now);
      ServiceOwnerKnown(first, rs, i, own, env, now);
      LearnedExtends(after, again, env, now);
      assert Internet(again[j]) by {
        SameClass(again[j], rs[i]);
      }
    }
    if Knows(second, name, env) && !Knows(first, name, env) {
      LearnedSourced(after, again, env);
      var j := NewlySourced(after, second, again, name, env, now);
      var i := SentAgain(s, rs, j, own, env, now);
      SteadyName(rs[i]);
      ServiceOwnerKnown(first, rs, i, own, env, now);
      if again[j].typ != SRV {
        PointerHasTarget(again[j]);
        assert HasTarget(rs[i].typ);
        PointerKnown(s, rs, i, env, now);
        assert false;
      }
    }
  }

  lemma SameClass(a: Record, b: Record)
    requires a.cls == b.cls
    ensures Internet(a) <==> Internet(b)
  {}

  lemma PointerHasTarget(r: Record)
    requires PermittedPointer(r)
    ensures r.typ == PTR && HasTarget(r.typ)
  {}

  lemma NewlySourced(s: State, t: State, rs: seq<Record>, name: bytes, env: Environment, now: int) returns (k: nat)
    requires ClockStopped(env, now) && Knows(t, name, env) && !Knows(s, name, env) && Normalize(name) == name
    requires forall n :: n in t.expires ==> Sourced(s, t, rs, n)
    ensures k < |rs| && Internet(rs[k]) && (PermittedPointer(rs[k]) || rs[k].typ == SRV)
        && Normalize(rs[k].target) == name != []
  {
    hide Internet, PermittedPointer, Normalize;
    assert Sourced(s, t, rs, name);
    k :| 0 <= k < |rs| && Internet(rs[k]) && (PermittedPointer(rs[k]) || rs[k].typ == SRV)
        && Normalize(rs[k].target) == name;
  }

  /** The second pass keeps everything exactly when every address record sent is held by the cache or beside it. */
  lemma RefilterKeepsAllIff(s: State, rs: seq<Record>, own: Own, env: Environment, now: int)
    requires ClockStopped(env, now) && AllSteady(rs) && |s.expires| + 4 * |rs| < MAX_NAMES
    requires forall k :: 0 <= k < |Kept(Learned(s, rs, env), rs, |rs|, own, env)| ==>
                           RecordOk(Kept(Learned(s, rs, env), rs, |rs|, own, env)[k])
    ensures var first := Learned(s, rs, env);
            var kept := Kept(first, rs, |rs|, own, env);
            var again := UncompressedAll(kept);
            Kept(Learned(FilterState(first, rs, |rs|, own, env), again, env), again, |again|, own, env) == again <==>
            AddressesHeld(first, kept, env)
  {
    hide FilterState, AllowedInstance, RecordOk, Steady, Kept, Passes, Learned, UncompressedAll, Uncompressed, Knows,
         Extends;
    SecondExtends(s, rs, own, env, now);
    var first := Learned(s, rs, env);
    var kept := Kept(first, rs, |rs|, own, env);
    var again := UncompressedAll(kept);
    var second := Learned(FilterState(first, rs, |rs|, own, env), again, env);
    KeptAllIff(second, again, own, env);
    forall j | 0 <= j < |again|
      ensures Passes(second, again, j, own, env) <==>
              (AddressType(kept[j]) ==> Knows(first, kept[j].name, env) || Targeted(kept, kept[j].name))
    {
      var i := SentAgain(s, rs, j, own, env, now);
      SteadyName(rs[i]);
      PassesAgainIff(first, rs, i, second, 2 * |again|, again, j, again[j].data, own, env, now);
      KnownSecondIff(s, rs, kept[j].name, own, env, now);
      if kept[j].name in PacketHosts(again, |again|) {
        HostIsTargeted(s, rs, kept[j].name, own, env, now);
      }
    }
  }

  lemma HostIsTargeted(s: State, rs: seq<Record>, name: bytes, own: Own, env: Environment, now: int)
    requires ClockStopped(env, now) && AllSteady(rs) && |s.expires| + 4 * |rs| < MAX_NAMES
    requires forall k :: 0 <= k < |Kept(Learned(s, rs, env), rs, |rs|, own, env)| ==>
                           RecordOk(Kept(Learned(s, rs, env), rs, |rs|, own, env)[k])
    requires var again := UncompressedAll(Kept(Learned(s, rs, env), rs, |rs|, own, env));
             name in PacketHosts(again, |again|)
    ensures Targeted(Kept(Learned(s, rs, env), rs, |rs|, own, env), name)
  {
    hide AllowedInstance, RecordOk, Steady, Kept, Passes, Learned, UncompressedAll, Uncompressed;
    var again := UncompressedAll(Kept(Learned(s, rs, env), rs, |rs|, own, env));
    var j :| 0 <= j < |again| && again[j].typ == SRV && AllowedInstance(again[j].name) && again[j].target == name;
    var i := SentAgain(s, rs, j, own, env, now);
  }

  /**
   * On octets: what the relay sends parses to records for which the same cache sends the same octets again,
   * exactly when every address record sent has a name the cache already knows or one that a service record
   * sent beside it targets.
   */
  lemma RefilteringKeepsPacketIff(s: State, rs: seq<Record>, own: Own, env: Environment, now: int, p: bytes)
    requires ClockStopped(env, now) && AllSteady(rs) && |s.expires| + 4 * |rs| < MAX_NAMES
    requires |rs| <= MAX_ENTRIES && forall i :: 0 <= i < |rs| ==> RecordOk(rs[i])
    requires ResponseOutcome(Learned(s, rs, env), rs, own, env) == Packet(p)
    ensures var first := Learned(s, rs, env);
            var after := FilterState(first, rs, |rs|, own, env);
            && Parse(p).Some?
            && var again := Parse(p).value.records;
            && |again| <= MAX_ENTRIES
            && (forall k :: 0 <= k < |again| ==> RecordOk(again[k]))
            && (ResponseOutcome(Learned(after, again, env), again, own, env) == Packet(p) <==>
                AddressesHeld(first, Kept(first, rs, |rs|, own, env), env))
  {
    hide FilterState, RecordOk, Steady, Kept, Learned, UncompressedAll, Parse, PrintedMessage, AddressesHeld;
    var first := Learned(s, rs, env);
    var kept := Kept(first, rs, |rs|, own, env);
    SecondExtends(s, rs, own, env, now);
    RefilterKeepsAllIff(s, rs, own, env, now);
    var again := UncompressedAll(kept);
    SteadyAreOk(again);
    PrintedAgain(kept, again);
    var second := Learned(FilterState(first, rs, |rs|, own, env), again, env);
    KeptAreOk(second, again, |again|, own, env);
    SteadyKept(second, again, own, env);
    var twice := Kept(second, again, |again|, own, env);
    if twice != [] && PrintedMessage(0, RESPONSE_FLAGS, [], twice) == p {
      PrintedAgain(twice, UncompressedAll(twice));
      SameAgain(second, again, own, env);
    }
  }

  lemma SteadyKept(s: State, rs: seq<Record>, own: Own, env: Environment)
    requires AllSteady(rs)
    ensures AllSteady(Kept(s, rs, |rs|, own, env)) && AllSteady(UncompressedAll(Kept(s, rs, |rs|, own, env)))
    ensures forall r :: r in Kept(s, rs, |rs|, own, env) ==> RecordOk(r)
  {
    hide Steady, Kept, RecordOk, UncompressedAll;
    KeptSteady(s, rs, |rs|, own, env);
    var kept := Kept(s, rs, |rs|, own, env);
    SteadyAreOk(kept);
    UncompressedBytes(kept);
  }

  /** Printing steady records and printing them as read back gives one packet, and it parses to the latter. */
  lemma PrintedAgain(kept: seq<Record>, again: seq<Record>)
    requires AllSteady(kept) && |kept| <= MAX_ENTRIES && (forall k :: 0 <= k < |kept| ==> RecordOk(kept[k]))
    requires again == UncompressedAll(kept)
    ensures AllSteady(again) && (forall k :: 0 <= k < |again| ==> RecordOk(again[k]))
    ensures PrintedMessage(0, RESPONSE_FLAGS, [], again) == PrintedMessage(0, RESPONSE_FLAGS, [], kept)
    ensures var m := Parse(PrintedMessage(0, RESPONSE_FLAGS, [], kept)); m.Some? && m.value.records == again
  {
    hide RecordOk, Steady, RecordsBytes, UncompressedAll, ReadMessage, Header, FlagsSupported;
    UncompressedBytes(kept);
    SteadyAreOk(again);
    ReplyFlagsSupported();
    PrintedMessageReads(0, RESPONSE_FLAGS, [], kept);
  }

  /** Sending as many records as there were means sending all of them. */
  lemma SameAgain(s: State, rs: seq<Record>, own: Own, env: Environment)
    requires |Kept(s, rs, |rs|, own, env)| == |rs|
    ensures Kept(s, rs, |rs|, own, env) == rs
  {
    hide Passes, Kept;
    forall k | 0 <= k < |rs|
      ensures Passes(s, rs, k, own, env)
    {
      if !Passes(s, rs, k, own, env) {
        KeptShort(s, rs, |rs|, k, own, env);
      }
    }
    KeptAllIff(s, rs, own, env);
  }

  // ----- a packet of one class ----------------------------------------------------------------

  /**
   * When every record has class IN, the hosts of the packet are among the names learned, and so the addresses
   * sent are held.
   */
  lemma InternetHeld(s: State, rs: seq<Record>, own: Own, env: Environment, now: int)
    requires ClockStopped(env, now) && AllSteady(rs) && AllInternet(rs) && |s.expires| + 4 * |rs| < MAX_NAMES
    ensures AddressesHeld(Learned(s, rs, env), Kept(Learned(s, rs, env), rs, |rs|, own, env), env)
  {
    hide FilterState, AllowedInstance, Steady, Kept, Learned, Knows, Internet;
    var first := Learned(s, rs, env);
    var kept := Kept(first, rs, |rs|, own, env);
    LearnedExtends(s, rs, env, now);
    forall j | 0 <= j < |kept| && AddressType(kept[j])
      ensures Knows(first, kept[j].name, env)
    {
      var i := KeptFrom(first, rs, j, own, env);
      FilterStateKnows(first, rs, i, own, rs[i].name, env, now);
      if rs[i].name in PacketHosts(rs, |rs|) {
        var k :| 0 <= k < |rs| && rs[k].typ == SRV && AllowedInstance(rs[k].name) && rs[k].target == rs[i].name;
        assert Internet(rs[k]) && OwnerKnown(s, rs[k].name, env);
      }
    }
  }

  /**
   * Idempotence on octets: what the relay sends for a steady response of class IN parses to records for which
   * the same cache sends the same octets again.
   */
  lemma FilteringIsIdempotent(s: State, rs: seq<Record>, own: Own, env: Environment, now: int, p: bytes)
    requires ClockStopped(env, now) && AllSteady(rs) && AllInternet(rs) && |s.expires| + 4 * |rs| < MAX_NAMES
    requires |rs| <= MAX_ENTRIES && forall k :: 0 <= k < |rs| ==> RecordOk(rs[k])
    requires ResponseOutcome(Learned(s, rs, env), rs, own, env) == Packet(p)
    ensures var after := FilterState(Learned(s, rs, env), rs, |rs|, own, env);
            && Parse(p).Some?
            && var again := Parse(p).value.records;
            && |again| <= MAX_ENTRIES
            && (forall k :: 0 <= k < |again| ==> RecordOk(again[k]))
            && ResponseOutcome(Learned(after, again, env), again, own, env) == Packet(p)
  {
    hide FilterState, RecordOk, Steady, Kept, Learned, Parse, AddressesHeld, ResponseOutcome, Internet;
    InternetHeld(s, rs, own, env, now);
    RefilteringKeepsPacketIff(s, rs, own, env, now, p);
  }
}
