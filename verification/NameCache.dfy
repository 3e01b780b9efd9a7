/**
 * The bounded, expiring cache of learned names: every operation reads the clock once, and a full
 * cache drops one arbitrary entry.
 */
module NameCache {
  import opened Bytes
  import opened Clock

  const MAX_NAMES: nat := 1024
  const MAX_TTL: nat := 900

  /** What the environment supplies to one cache operation: a clock reading and an iteration order. */
  datatype Choice = Choice(now: int, pick: Pick)

  /** The readings and choices of a whole run, one per operation. */
  type Environment = nat -> Choice

  ghost predicate ClockMonotone(env: Environment) {
    forall i, j :: 0 <= i <= j ==> env(i).now <= env(j).now
  }

  datatype State = State(expires: map<bytes, int>, ops: nat)

  const EMPTY: State := State(map[], 0)

  // ----- one operation ----------------------------------------------------------------------

  function Lifetime(ttl: u32): int {
    (if ttl > MAX_TTL then MAX_TTL else ttl) * SECOND
  }

  function Unexpired(e: map<bytes, int>, now: int): map<bytes, int> {
    map k | k in e && now <= e[k] :: e[k]
  }

  /** A full cache drops what has expired and, if it is still full, one arbitrary entry. */
  function Room(e: map<bytes, int>, c: Choice): map<bytes, int> {
    if |e| < MAX_NAMES then e
    else
      var live := Unexpired(e, c.now);
      if |live| < MAX_NAMES then live else live - {c.pick(live.Keys)}
  }

  function Added(s: State, name: bytes, ttl: u32, env: Environment): State {
    var n := Normalize(name);
    if n == [] then s
    else
      var c := env(s.ops);
      State(if ttl == 0 then s.expires - {n} else Room(s.expires, c)[n := c.now + Lifetime(ttl)], s.ops + 1)
  }

  predicate Knows(s: State, name: bytes, env: Environment) {
    var n := Normalize(name);
    n in s.expires && env(s.ops).now <= s.expires[n]
  }

  function Asked(s: State, name: bytes, env: Environment): State {
    var n := Normalize(name);
    State(if n in s.expires && env(s.ops).now > s.expires[n] then s.expires - {n} else s.expires, s.ops + 1)
  }

  class Cache {
    const env: Environment
    var expires: map<bytes, int>
    var ops: nat

    constructor (env: Environment)
      ensures this.env == env && Abstract() == EMPTY
    {
      this.env := env;
      expires := map[];
      ops := 0;
    }

    function Abstract(): State
      reads this
    {
      State(expires, ops)
    }

    method AddTTL(name: bytes, ttl: u32)
      modifies this
      ensures Abstract() == Added(old(Abstract()), name, ttl, env)
    {
      hide Normalize, Lifetime, Room;
      var n := Normalize(name);
      if n == [] {
        return;
      }
      var c := env(ops);
      ops := ops + 1;
      if ttl == 0 {
        expires := expires - {n};
        return;
      }
      MakeRoom(c);
      expires := expires[n := c.now + Lifetime(ttl)];
    }

    method MakeRoom(c: Choice)
      modifies this`expires
      ensures expires == Room(old(expires), c)
    {
      hide Unexpired;
      if |expires| >= MAX_NAMES {
        Purge(c.now);
        if |expires| >= MAX_NAMES {
          expires := expires - {c.pick(expires.Keys)};
        }
      }
    }

    /** Deletes every expired entry, in whatever order the map yields them. */
    method Purge(now: int)
      modifies this`expires
      ensures expires == Unexpired(old(expires), now)
    {
      var todo := expires.Keys;
      while todo != {}
        invariant todo <= old(expires).Keys
        invariant expires == map k | k in old(expires) && (k in todo || now <= old(expires)[k]) :: old(expires)[k]
        decreases |todo|
      {
        var k :| k in todo;
        todo := todo - {k};
        if now > expires[k] {
          expires := expires - {k};
        }
      }
    }

    method Has(name: bytes) returns (known: bool)
      modifies this
      ensures known == Knows(old(Abstract()), name, env)
      ensures Abstract() == Asked(old(Abstract()), name, env)
    {
      var n := Normalize(name);
      var now := env(ops).now;
      ops := ops + 1;
      if n !in expires {
        return false;
      }
      if now > expires[n] {
        expires := expires - {n};
        return false;
      }
      return true;
    }
  }

  // ----- what one operation means -----------------------------------------------------------

  /** A name added with a positive TTL is known for that many seconds, at most 900, and one added with TTL 0 is not. */
  lemma KnownFor(s: State, name: bytes, ttl: u32, env: Environment)
    requires Normalize(name) != []
    ensures var t := Added(s, name, ttl, env);
            var age := env(t.ops).now - env(s.ops).now;
            Knows(t, name, env) <==> ttl > 0 && age <= ttl as int * 1_000_000_000 && age <= 900_000_000_000
  {
    hide Normalize, Room;
  }

  /** Asking forgets the name exactly when it is not known, and touches no other. */
  lemma AskedForgets(s: State, name: bytes, env: Environment, other: bytes)
    ensures var t := Asked(s, name, env);
      && (Normalize(name) in t.expires <==> Knows(s, name, env))
      && (other in t.expires ==> other in s.expires && t.expires[other] == s.expires[other])
      && (other in s.expires && other != Normalize(name) ==> other in t.expires)
  {
    hide Normalize;
  }

  /** Adding leaves other names alone while there is room, and in a full cache the unexpired ones if any has expired. */
  lemma AddedKeepsOthers(s: State, name: bytes, ttl: u32, env: Environment, other: bytes)
    requires |s.expires| <= 1024 && other in s.expires && other != Normalize(name)
    requires || |s.expires| < 1024
             || (env(s.ops).now <= s.expires[other] && exists k :: k in s.expires && s.expires[k] < env(s.ops).now)
    ensures var t := Added(s, name, ttl, env);
            other in t.expires && t.expires[other] == s.expires[other]
  {
    hide Normalize, Lifetime;
    var live := Unexpired(s.expires, env(s.ops).now);
    if |s.expires| >= 1024 {
      var k :| k in s.expires && s.expires[k] < env(s.ops).now;
      SubsetSize(live.Keys, s.expires.Keys - {k});
    }
  }

  /** A name is dropped for want of room only while 1024 names in the cache have not expired, this one among them. */
  lemma DroppedOnlyWhenFull(s: State, op: Op, n: bytes, env: Environment)
    requires |s.expires| <= 1024 && Drops(s, op, n, env)
    ensures |s.expires| == 1024 && n in s.expires
    ensures forall k :: k in s.expires ==> env(s.ops).now <= s.expires[k]
  {
    var live := Unexpired(s.expires, env(s.ops).now);
    assert live.Keys <= s.expires.Keys;
    SubsetSize(live.Keys, s.expires.Keys);
    if k :| k in s.expires && k !in live.Keys {
      SubsetSize(live.Keys, s.expires.Keys - {k});
    }
    assert env(s.ops).pick(live.Keys) in live.Keys;
  }

  // ----- whole runs -------------------------------------------------------------------------

  datatype Op = Add(name: bytes, ttl: u32) | Has(name: bytes)

  function Step(s: State, op: Op, env: Environment): State {
    match op
    case Add(name, ttl) => Added(s, name, ttl, env)
    case Has(name) => Asked(s, name, env)
  }

  /** The state after a run of operations on an empty cache. */
  function Run(ops: seq<Op>, env: Environment): State {
    if ops == [] then EMPTY else Step(Run(ops[..|ops| - 1], env), ops[|ops| - 1], env)
  }

  predicate Adds(op: Op, n: bytes) {
    op.Add? && Normalize(op.name) == n
  }

  /** The reference: an unbounded map from names to the deadline of their latest addition. */
  function Deadline(ops: seq<Op>, n: bytes, env: Environment): Option<int>
    requires n != []
  {
    if ops == [] then None
    else
      var before, op := ops[..|ops| - 1], ops[|ops| - 1];
      if Adds(op, n) then
        if op.ttl == 0 then None else Some(env(Run(before, env).ops).now + Lifetime(op.ttl))
      else Deadline(before, n, env)
  }

  /** `op` found the cache full of unexpired names and dropped `n`. */
  predicate Drops(s: State, op: Op, n: bytes, env: Environment) {
    && op.Add? && op.ttl > 0 && Normalize(op.name) != []
    && |s.expires| >= MAX_NAMES
    && var live := Unexpired(s.expires, env(s.ops).now);
       |live| >= MAX_NAMES && env(s.ops).pick(live.Keys) == n
  }

  /** The arbitrary eviction took `n` after its latest addition. */
  predicate Evicted(ops: seq<Op>, n: bytes, env: Environment) {
    ops != [] &&
    var before, op := ops[..|ops| - 1], ops[|ops| - 1];
    !Adds(op, n) && (Drops(Run(before, env), op, n, env) || Evicted(before, n, env))
  }

  lemma RoomLeavesSpace(e: map<bytes, int>, c: Choice)
    requires |e| <= MAX_NAMES
    ensures |Room(e, c)| < MAX_NAMES
  {
    var live := Unexpired(e, c.now);
    if |e| >= MAX_NAMES && |live| >= MAX_NAMES {
      assert |live.Keys| <= |e.Keys| by {
        SubsetSize(live.Keys, e.Keys);
      }
      assert Room(e, c).Keys == live.Keys - {c.pick(live.Keys)};
    }
  }

  lemma StepKeepsBound(s: State, op: Op, env: Environment)
    requires |s.expires| <= MAX_NAMES
    ensures |Step(s, op, env).expires| <= MAX_NAMES
  {
    hide Room, Normalize, Lifetime;
    var e := s.expires;
    var n := Normalize(op.name);
    assert (e - {n}).Keys == e.Keys - {n};
    RoomLeavesSpace(e, env(s.ops));
    var room := Room(e, env(s.ops));
    if op.Add? {
      assert room[n := env(s.ops).now + Lifetime(op.ttl)].Keys == room.Keys + {n};
    }
  }

  /** No run, no clock and no choice of victims grows the cache past its bound. */
  lemma {:induction false} Bounded(ops: seq<Op>, env: Environment)
    ensures |Run(ops, env).expires| <= 1024
  {
    if ops != [] {
      Bounded(ops[..|ops| - 1], env);
      StepKeepsBound(Run(ops[..|ops| - 1], env), ops[|ops| - 1], env);
    }
  }

  predicate Outlives(deadline: Option<int>, now: int) {
    deadline.Some? && now <= deadline.value
  }

  ghost predicate Agrees(ops: seq<Op>, n: bytes, env: Environment)
    requires n != []
  {
    var s := Run(ops, env);
    && (n in s.expires ==> Deadline(ops, n, env) == Some(s.expires[n]) && !Evicted(ops, n, env))
    && (n !in s.expires && !Evicted(ops, n, env) ==>
          var d := Deadline(ops, n, env);
          d.Some? ==> d.value < env(s.ops).now)
  }

  /** What one operation does to the entry of `n`. */
  lemma StepEntry(s: State, op: Op, n: bytes, env: Environment)
    requires n != []
    ensures var t := Step(s, op, env);
            && s.ops <= t.ops
            && (Adds(op, n) && op.ttl == 0 ==> n !in t.expires)
            && (Adds(op, n) && op.ttl > 0 ==> n in t.expires && t.expires[n] == env(s.ops).now + Lifetime(op.ttl))
            && (!Adds(op, n) && n in t.expires ==>
                  n in s.expires && t.expires[n] == s.expires[n] && !Drops(s, op, n, env))
            && (!Adds(op, n) && n in s.expires && n !in t.expires ==>
                  Drops(s, op, n, env) || s.expires[n] < env(s.ops).now)
  {}

  lemma {:induction false} RunAgrees(ops: seq<Op>, n: bytes, env: Environment)
    requires ClockMonotone(env) && n != []
    ensures Agrees(ops, n, env)
  {
    hide Step, Drops, Lifetime, Normalize;
    if ops != [] {
      var before, op := ops[..|ops| - 1], ops[|ops| - 1];
      RunAgrees(before, n, env);
      StepEntry(Run(before, env), op, n, env);
      assert env(Run(before, env).ops).now <= env(Run(ops, env).ops).now;
    }
  }

  /**
   * The bounded cache answers as the unbounded TTL map does, except for names the arbitrary
   * eviction has taken since they were last added.
   */
  lemma CacheRefinesUnbounded(ops: seq<Op>, name: bytes, env: Environment)
    requires ClockMonotone(env)
    ensures Knows(Run(ops, env), name, env) <==>
            var n := Normalize(name);
            n != [] && Outlives(Deadline(ops, n, env), env(Run(ops, env).ops).now) && !Evicted(ops, n, env)
  {
    var n := Normalize(name);
    if n == [] {
      NeverEmpty(ops, env);
    } else {
      RunAgrees(ops, n, env);
    }
  }

  lemma {:induction false} NeverEmpty(ops: seq<Op>, env: Environment)
    ensures [] !in Run(ops, env).expires
  {
    if ops != [] {
      NeverEmpty(ops[..|ops| - 1], env);
    }
  }
}
