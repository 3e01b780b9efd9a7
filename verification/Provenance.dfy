/**
 * Where learned names come from. A name is learnable from a set of records if a chain of those
 * records leads to it: a permitted pointer or a service record of a permitted instance, followed by
 * service records each owned by the name before it.
 */
module Provenance {
  import opened Bytes
  import opened DnsMessages
  import opened NameCache
  import opened ServicePolicy
  import opened RelayFilter

  ghost predicate Root(r: Record) {
    Internet(r) && (PermittedPointer(r) || (r.typ == SRV && r.target != [] && AllowedInstance(r.name)))
  }

  ghost predicate Link(before: Record, r: Record) {
    Internet(r) && r.typ == SRV && r.target != [] && Normalize(r.name) == Normalize(before.target)
  }

  ghost predicate Chain(h: set<Record>, chain: seq<Record>) {
    && chain != []
    && (forall i :: 0 <= i < |chain| ==> chain[i] in h)
    && Root(chain[0])
    && (forall i :: 0 < i < |chain| ==> Link(chain[i - 1], chain[i]))
  }

  ghost predicate LeadsTo(h: set<Record>, chain: seq<Record>, n: bytes) {
    Chain(h, chain) && Normalize(chain[|chain| - 1].target) == n
  }

  ghost predicate Learnable(h: set<Record>, n: bytes) {
    exists chain: seq<Record> :: LeadsTo(h, chain, n)
  }

  /** Every cached name has a chain. */
  ghost predicate Grounded(h: set<Record>, s: State) {
    forall n :: n in s.expires ==> Learnable(h, n)
  }

  lemma LearnableGrows(h: set<Record>, more: set<Record>, n: bytes)
    requires Learnable(h, n)
    ensures Learnable(h + more, n)
  {
    hide Root, Link;
    var chain: seq<Record> :| LeadsTo(h, chain, n);
    assert LeadsTo(h + more, chain, n);
  }

  lemma GroundedGrows(h: set<Record>, more: set<Record>, s: State)
    requires Grounded(h, s)
    ensures Grounded(h + more, s)
  {
    hide Learnable;
    forall n | n in s.expires
      ensures Learnable(h + more, n)
    {
      LearnableGrows(h, more, n);
    }
  }

  lemma RootLeads(h: set<Record>, r: Record)
    requires r in h && Root(r)
    ensures Learnable(h, Normalize(r.target))
  {
    hide Root, Link, Normalize;
    assert LeadsTo(h, [r], Normalize(r.target));
  }

  lemma LinkLeads(h: set<Record>, r: Record)
    requires r in h && Internet(r) && r.typ == SRV && r.target != []
    requires Learnable(h, Normalize(r.name))
    ensures Learnable(h, Normalize(r.target))
  {
    hide Root, Normalize, Internet;
    var chain: seq<Record> :| LeadsTo(h, chain, Normalize(r.name));
    var longer := chain + [r];
    assert forall i :: 0 < i < |longer| ==> Link(longer[i - 1], longer[i]);
    assert LeadsTo(h, longer, Normalize(r.target));
  }

  lemma AddedGrounded(h: set<Record>, s: State, name: bytes, ttl: u32, env: Environment)
    requires Grounded(h, s) && Learnable(h, Normalize(name))
    ensures Grounded(h, Added(s, name, ttl, env))
  {
    hide Learnable, Normalize, Lifetime;
    assert Room(s.expires, env(s.ops)).Keys <= s.expires.Keys;
  }

  lemma AskedGrounded(h: set<Record>, s: State, name: bytes, env: Environment)
    requires Grounded(h, s)
    ensures Grounded(h, Asked(s, name, env))
  {
    hide Learnable, Normalize;
  }

  lemma OwnerAskedGrounded(h: set<Record>, s: State, name: bytes, env: Environment)
    requires Grounded(h, s)
    ensures Grounded(h, OwnerAsked(s, name, env))
    ensures OwnerKnown(s, name, env) && !AllowedInstance(name) ==> Learnable(h, Normalize(name))
  {
    hide Learnable, Normalize, AllowedInstance;
    AskedGrounded(h, s, name, env);
  }

  lemma LearnHostGrounded(h: set<Record>, s: State, r: Record, env: Environment)
    requires Grounded(h, s) && r in h
    ensures Grounded(h, LearnHost(s, r, env))
  {
    hide Learnable, Grounded, Normalize, AllowedInstance, OwnerKnown, OwnerAsked, Added, PermittedPointer, Internet;
    OwnerAskedGrounded(h, s, r.name, env);
    if Internet(r) && OwnerKnown(s, r.name, env) && r.typ == SRV && r.target != [] {
      if AllowedInstance(r.name) {
        RootLeads(h, r);
      } else {
        LinkLeads(h, r);
      }
      AddedGrounded(h, OwnerAsked(s, r.name, env), r.target, r.ttl, env);
    }
  }

  lemma LearnedGrounded(h: set<Record>, s: State, rs: seq<Record>, env: Environment)
    requires Grounded(h, s)
    ensures Grounded(h + RecordsOf(rs), Learned(s, rs, env))
  {
    hide Grounded, Learnable, LearnHost, PermittedPointer, Internet;
    var all := h + RecordsOf(rs);
    GroundedGrows(h, RecordsOf(rs), s);
    for i := 0 to |rs|
      invariant Grounded(all, LearnPointers(s, rs, i, env))
    {
      if Internet(rs[i]) && PermittedPointer(rs[i]) {
        RootLeads(all, rs[i]);
        AddedGrounded(all, LearnPointers(s, rs, i, env), rs[i].target, rs[i].ttl, env);
      }
    }
    var t := LearnPointers(s, rs, |rs|, env);
    for i := 0 to |rs|
      invariant Grounded(all, LearnHosts(t, rs, i, env))
    {
      LearnHostGrounded(all, LearnHosts(t, rs, i, env), rs[i], env);
    }
  }

  lemma {:induction false} FilterStateGrounded(h: set<Record>, s: State, rs: seq<Record>, i: nat, own: Own,
           env: Environment)
    requires i <= |rs| && Grounded(h, s)
    ensures Grounded(h, FilterState(s, rs, i, own, env))
  {
    hide Grounded, Learnable, OwnerAsked, Asked, Suppressed;
    if i > 0 {
      FilterStateGrounded(h, s, rs, i - 1, own, env);
      var t := FilterState(s, rs, i - 1, own, env);
      OwnerAskedGrounded(h, t, rs[i - 1].name, env);
      AskedGrounded(h, t, rs[i - 1].name, env);
    }
  }

  // ----- whole runs -------------------------------------------------------------------------

  /** Everything the daemon does with its cache: learn from a response, or look a name up. */
  datatype Event = Learn(records: seq<Record>) | Lookup(name: bytes)

  ghost function After(events: seq<Event>, env: Environment): State {
    if events == [] then EMPTY
    else
      var s := After(events[..|events| - 1], env);
      match events[|events| - 1]
      case Learn(records) => Learned(s, records, env)
      case Lookup(name) => Asked(s, name, env)
  }

  ghost function Received(events: seq<Event>): set<Record> {
    if events == [] then {}
    else
      Received(events[..|events| - 1]) +
      (match events[|events| - 1]
       case Learn(records) => RecordsOf(records)
       case Lookup(_) => {})
  }

  /** Whatever arrives, expires or is evicted, the cache only holds learnable names. */
  lemma {:induction false} CacheIsGrounded(events: seq<Event>, env: Environment)
    ensures Grounded(Received(events), After(events, env))
  {
    hide Grounded, Learned, Asked;
    if events == [] {
      assert Grounded(Received(events), EMPTY) by {
        EmptyGrounded(Received(events));
      }
    } else {
      var before := events[..|events| - 1];
      CacheIsGrounded(before, env);
      var s := After(before, env);
      match events[|events| - 1] {
        case Learn(records) => LearnedGrounded(Received(before), s, records, env);
        case Lookup(name) =>
          AskedGrounded(Received(before), s, name, env);
          assert Received(events) == Received(before);
      }
    }
  }

  lemma EmptyGrounded(h: set<Record>)
    ensures Grounded(h, EMPTY)
  {}

  /**
   * Why a record may be relayed: it is a permitted pointer, belongs to a permitted instance, belongs to a name
   * learnable from `h`, or is an address of a host that a permitted service record beside it in `rs` names.
   */
  ghost predicate Legitimate(h: set<Record>, rs: seq<Record>, r: Record) {
    && Internet(r)
    && (|| PermittedPointer(r)
        || (r.typ in {SRV, TXT} && AllowedInstance(r.name))
        || (r.typ in {SRV, TXT, A, AAAA} && Learnable(h, Normalize(r.name)))
        || (r.typ in {A, AAAA} && exists k :: 0 <= k < |rs| && rs[k].typ == SRV && AllowedInstance(rs[k].name)
                                              && rs[k].target == r.name))
  }

  lemma PassesLegitimate(h: set<Record>, s: State, rs: seq<Record>, i: nat, own: Own, env: Environment)
    requires i < |rs| && Grounded(h, s) && Passes(s, rs, i, own, env)
    ensures Legitimate(h, rs, rs[i])
  {
    hide Grounded, Learnable, Asked, PermittedPointer, AllowedInstance, Internet, Normalize;
    FilterStateGrounded(h, s, rs, i, own, env);
    OwnerAskedGrounded(h, FilterState(s, rs, i, own, env), rs[i].name, env);
    KnownIsLearnable(h, FilterState(s, rs, i, own, env), rs[i].name, env);
  }

  /** No leak: after any run, only a legitimate record of a response is relayed. */
  lemma OnlyGroundedRecordsRelayed(events: seq<Event>, rs: seq<Record>, i: nat, own: Own, env: Environment)
    requires i < |rs|
    requires Passes(Learned(After(events, env), rs, env), rs, i, own, env)
    ensures Legitimate(Received(events + [Learn(rs)]), rs, rs[i])
  {
    hide Grounded, Legitimate, Learned, Asked, Passes;
    var all := events + [Learn(rs)];
    assert all[..|all| - 1] == events;
    CacheIsGrounded(all, env);
    PassesLegitimate(Received(all), Learned(After(events, env), rs, env), rs, i, own, env);
  }

  lemma KnownIsLearnable(h: set<Record>, s: State, name: bytes, env: Environment)
    requires Grounded(h, s)
    ensures Knows(s, name, env) ==> Learnable(h, Normalize(name))
  {}
}
