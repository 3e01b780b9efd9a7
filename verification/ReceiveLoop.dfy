/**
 * The receive loop of one socket: at most 100 datagrams a window, and a table of at most 256 recent
 * digests that drops an arbitrary entry when it is full.
 */
module ReceiveLoop {
  import opened Bytes
  import opened Clock

  const REPEAT: int := 900 * MILLISECOND
  const WINDOW_LIMIT: nat := 100
  const TABLE_LIMIT: nat := 256

  /**
   * One datagram and the clock readings taken while it is handled: when the window is checked, when a
   * new window would start, and when the table is consulted.
   */
  datatype Arrival = Arrival(own: bool, wellFormed: bool, digest: bytes, check: int, restart: int, now: int, pick: Pick)

  datatype Loop = Loop(window: int, count: nat, seen: map<bytes, int>)

  // ----- one datagram -----------------------------------------------------------------------

  function Counted(s: Loop, a: Arrival): Loop {
    if a.check - s.window > SECOND then s.(window := a.restart, count := 1) else s.(count := s.count + 1)
  }

  predicate Repeats(seen: map<bytes, int>, a: Arrival) {
    a.digest in seen && a.now - seen[a.digest] < REPEAT
  }

  predicate Accepts(s: Loop, a: Arrival) {
    !a.own && Counted(s, a).count <= WINDOW_LIMIT && a.wellFormed && !Repeats(s.seen, a)
  }

  function Recent(seen: map<bytes, int>, now: int): map<bytes, int> {
    map d | d in seen && now - seen[d] < SECOND :: seen[d]
  }

  function Vacated(seen: map<bytes, int>, a: Arrival): map<bytes, int> {
    if |seen| < TABLE_LIMIT then seen
    else
      var recent := Recent(seen, a.now);
      if |recent| < TABLE_LIMIT then recent else recent - {a.pick(recent.Keys)}
  }

  function Step(s: Loop, a: Arrival): Loop {
    if a.own then s
    else
      var t := Counted(s, a);
      if Accepts(s, a) then t.(seen := Vacated(t.seen, a)[a.digest := a.now]) else t
  }

  class Receiver {
    var window: int
    var count: nat
    var seen: map<bytes, int>

    constructor (now: int)
      ensures Abstract() == Loop(now, 0, map[])
    {
      window, count, seen := now, 0, map[];
    }

    function Abstract(): Loop
      reads this
    {
      Loop(window, count, seen)
    }

    /** One turn of the loop; the result says whether the datagram goes on to be answered or relayed. */
    method Receive(a: Arrival) returns (accepted: bool)
      modifies this
      ensures accepted == Accepts(old(Abstract()), a)
      ensures Abstract() == Step(old(Abstract()), a)
    {
      hide Recent;
      if a.own {
        return false;
      }
      if a.check - window > SECOND {
        window := a.restart;
        count := 0;
      }
      count := count + 1;
      if count > WINDOW_LIMIT {
        return false;
      }
      if !a.wellFormed {
        return false;
      }
      if a.digest in seen && a.now - seen[a.digest] < REPEAT {
        return false;
      }
      if |seen| >= TABLE_LIMIT {
        DropOld(a.now);
        if |seen| >= TABLE_LIMIT {
          seen := seen - {a.pick(seen.Keys)};
        }
      }
      seen := seen[a.digest := a.now];
      return true;
    }

    method DropOld(now: int)
      modifies this`seen
      ensures seen == Recent(old(seen), now)
    {
      var todo := seen.Keys;
      while todo != {}
        invariant todo <= old(seen).Keys
        invariant seen == map d | d in old(seen) && (d in todo || now - old(seen)[d] < SECOND) :: old(seen)[d]
        decreases |todo|
      {
        var d :| d in todo;
        todo := todo - {d};
        if now - seen[d] >= SECOND {
          seen := seen - {d};
        }
      }
    }
  }

  // ----- whole runs -------------------------------------------------------------------------

  /** Clock readings never go back, within a datagram and from one to the next. */
  ghost predicate Ordered(start: int, run: seq<Arrival>) {
    && (forall i :: 0 <= i < |run| ==> run[i].check <= run[i].restart <= run[i].now)
    && (forall i :: 0 <= i < |run| ==> Before(start, run, i) <= run[i].check)
  }

  function Before(start: int, run: seq<Arrival>, i: nat): int
    requires i <= |run|
  {
    if i == 0 then start else run[i - 1].now
  }

  function After(start: int, run: seq<Arrival>): Loop {
    if run == [] then Loop(start, 0, map[]) else Step(After(start, run[..|run| - 1]), run[|run| - 1])
  }

  /** The same loop with a table that forgets nothing. */
  function UnboundedStep(s: Loop, a: Arrival): Loop {
    if a.own then s
    else
      var t := Counted(s, a);
      if Accepts(s, a) then t.(seen := t.seen[a.digest := a.now]) else t
  }

  function AfterUnbounded(start: int, run: seq<Arrival>): Loop {
    if run == [] then Loop(start, 0, map[]) else UnboundedStep(AfterUnbounded(start, run[..|run| - 1]), run[|run| - 1])
  }

  /** Digests recorded in the current window and in the one before it. */
  datatype Windows = Windows(current: set<bytes>, previous: set<bytes>)

  function WindowsStep(s: Loop, w: Windows, a: Arrival): Windows {
    if a.own then w
    else
      var v := if a.check - s.window > SECOND then Windows({}, w.current) else w;
      if Accepts(s, a) then v.(current := v.current + {a.digest}) else v
  }

  function WindowsAfter(start: int, run: seq<Arrival>): Windows {
    if run == [] then Windows({}, {})
    else
      var before := run[..|run| - 1];
      WindowsStep(After(start, before), WindowsAfter(start, before), run[|run| - 1])
  }

  /** Everything older than the two latest windows is more than a second old. */
  ghost predicate TwoWindows(s: Loop, w: Windows, last: int) {
    && s.window <= last
    && |w.current| <= s.count && |w.current| <= WINDOW_LIMIT && |w.previous| <= WINDOW_LIMIT
    && (forall d :: d in s.seen ==> s.seen[d] <= last)
    && (forall d :: d in s.seen && d !in w.current ==>
          if d in w.previous then s.seen[d] <= s.window else s.seen[d] + SECOND < s.window)
  }

  lemma UnionSize(a: set<bytes>, b: set<bytes>)
    ensures |a + b| <= |a| + |b|
  {
    assert a + b == a + (b - a);
    assert |b - a| <= |b| by {
      SubsetSize(b - a, b);
    }
  }

  /** After the purge, only digests of the two latest windows are left: fewer than the table holds. */
  lemma RecentIsSmall(s: Loop, w: Windows, now: int)
    requires TwoWindows(s, w, now)
    ensures |Recent(s.seen, now)| <= |w.current| + |w.previous| <= 2 * WINDOW_LIMIT < TABLE_LIMIT
  {
    var recent := Recent(s.seen, now);
    assert recent.Keys <= w.current + w.previous;
    SubsetSize(recent.Keys, w.current + w.previous);
    UnionSize(w.current, w.previous);
  }

  /** The windows as they stand once the datagram has been counted, before it is recorded. */
  lemma CountedKeeps(s: Loop, w: Windows, last: int, a: Arrival)
    requires TwoWindows(s, w, last) && last <= a.check <= a.restart <= a.now && !a.own
    ensures var v := if a.check - s.window > SECOND then Windows({}, w.current) else w;
            && TwoWindows(Counted(s, a), v, a.now)
            && |v.current| < Counted(s, a).count
  {}

  lemma VacatedPart(seen: map<bytes, int>, a: Arrival)
    ensures forall d :: d in Vacated(seen, a) ==> d in seen && Vacated(seen, a)[d] == seen[d]
  {}

  lemma RecordKeeps(t: Loop, v: Windows, a: Arrival)
    requires TwoWindows(t, v, a.now) && |v.current| < t.count <= WINDOW_LIMIT
    ensures TwoWindows(t.(seen := Vacated(t.seen, a)[a.digest := a.now]), v.(current := v.current + {a.digest}), a.now)
  {
    hide Vacated;
    VacatedPart(t.seen, a);
    UnionSize(v.current, {a.digest});
  }

  lemma StepKeeps(s: Loop, w: Windows, last: int, a: Arrival)
    requires TwoWindows(s, w, last) && last <= a.check <= a.restart <= a.now
    ensures TwoWindows(Step(s, a), WindowsStep(s, w, a), a.now)
    ensures !a.own ==> |Recent(s.seen, a.now)| < TABLE_LIMIT
  {
    if a.own {
      LaterKeeps(s, w, last, a.now);
    } else {
      var v := if a.check - s.window > SECOND then Windows({}, w.current) else w;
      var t := Counted(s, a);
      assert t.seen == s.seen;
      CountedKeeps(s, w, last, a);
      RecentIsSmall(t, v, a.now);
      if Accepts(s, a) {
        RecordKeeps(t, v, a);
      }
      hide TwoWindows, Recent, Vacated, Counted;
    }
  }

  lemma LaterKeeps(s: Loop, w: Windows, last: int, now: int)
    requires TwoWindows(s, w, last) && last <= now
    ensures TwoWindows(s, w, now)
  {}

  lemma {:induction false} RunKeeps(start: int, run: seq<Arrival>)
    requires Ordered(start, run)
    ensures TwoWindows(After(start, run), WindowsAfter(start, run), Before(start, run, |run|))
  {
    hide Step, WindowsStep, TwoWindows;
    if run == [] {
      StartKeeps(start);
    } else {
      var before := run[..|run| - 1];
      PrefixOrdered(start, run);
      RunKeeps(start, before);
      StepKeeps(After(start, before), WindowsAfter(start, before), Before(start, run, |run| - 1), run[|run| - 1]);
    }
  }

  lemma StartKeeps(start: int)
    ensures TwoWindows(Loop(start, 0, map[]), Windows({}, {}), start)
  {}

  lemma PrefixOrdered(start: int, run: seq<Arrival>)
    requires run != [] && Ordered(start, run)
    ensures Ordered(start, run[..|run| - 1])
    ensures Before(start, run, |run| - 1) == Before(start, run[..|run| - 1], |run| - 1)
    ensures Before(start, run, |run| - 1) <= run[|run| - 1].check <= run[|run| - 1].restart <= run[|run| - 1].now
  {
    var before := run[..|run| - 1];
    forall i | 0 <= i < |before|
      ensures Before(start, before, i) <= before[i].check
    {
      assert Before(start, before, i) == Before(start, run, i);
    }
  }

  /** In every run, a full table has room after the purge: the arbitrary eviction never happens. */
  lemma EvictionNeverHappens(start: int, run: seq<Arrival>, a: Arrival)
    requires Ordered(start, run + [a]) && !a.own
    ensures var seen := After(start, run).seen;
            && |Recent(seen, a.now)| < 256
            && Vacated(seen, a) == if |seen| < 256 then seen else Recent(seen, a.now)
  {
    hide Step, WindowsStep, TwoWindows, Recent;
    var all := run + [a];
    assert all[..|all| - 1] == run;
    PrefixOrdered(start, all);
    RunKeeps(start, run);
    StepKeeps(After(start, run), WindowsAfter(start, run), Before(start, run, |run|), a);
  }

  /** The bounded table has the recent part of the unbounded one. */
  ghost predicate Mirrors(s: Loop, u: Loop, last: int) {
    && s.window == u.window && s.count == u.count
    && (forall d :: d in s.seen ==> d in u.seen && u.seen[d] == s.seen[d])
    && (forall d :: d in u.seen && d !in s.seen ==> last - u.seen[d] >= SECOND)
  }

  lemma MirrorsStep(s: Loop, u: Loop, last: int, a: Arrival)
    requires Mirrors(s, u, last) && last <= a.now
    requires !a.own ==> |Recent(s.seen, a.now)| < TABLE_LIMIT
    ensures Accepts(s, a) == Accepts(u, a)
    ensures Mirrors(Step(s, a), UnboundedStep(u, a), a.now)
  {}

  lemma {:induction false} RunMirrors(start: int, run: seq<Arrival>)
    requires Ordered(start, run)
    ensures Mirrors(After(start, run), AfterUnbounded(start, run), Before(start, run, |run|))
  {
    hide Step, UnboundedStep, Mirrors, Recent;
    if run == [] {
      StartMirrors(start);
    } else {
      var before, a := run[..|run| - 1], run[|run| - 1];
      PrefixOrdered(start, run);
      RunMirrors(start, before);
      assert run == before + [a];
      if !a.own {
        EvictionNeverHappens(start, before, a);
      }
      MirrorsStep(After(start, before), AfterUnbounded(start, before), Before(start, run, |run| - 1), a);
    }
  }

  lemma StartMirrors(start: int)
    ensures Mirrors(Loop(start, 0, map[]), Loop(start, 0, map[]), start)
  {}

  /** So the bounded loop accepts exactly what a loop with unlimited memory accepts. */
  lemma BoundedAcceptsAsUnbounded(start: int, run: seq<Arrival>, a: Arrival)
    requires Ordered(start, run + [a])
    ensures Accepts(After(start, run), a) <==> Accepts(AfterUnbounded(start, run), a)
  {
    hide Step, UnboundedStep, Mirrors, Accepts, Recent;
    var all := run + [a];
    assert all[..|all| - 1] == run;
    PrefixOrdered(start, all);
    RunMirrors(start, run);
    if !a.own {
      EvictionNeverHappens(start, run, a);
    }
    MirrorsStep(After(start, run), AfterUnbounded(start, run), Before(start, run, |run|), a);
  }

  /** Datagram `i` of the run was accepted. */
  ghost predicate AcceptedAt(start: int, run: seq<Arrival>, i: nat)
    requires i < |run|
  {
    Accepts(After(start, run[..i]), run[i])
  }

  lemma UnboundedForgetsNothing(u: Loop, a: Arrival, d: bytes)
    requires d in u.seen
    ensures d in UnboundedStep(u, a).seen && UnboundedStep(u, a).seen[d] in {u.seen[d], a.now}
  {}

  lemma {:induction false} UnboundedRemembers(start: int, run: seq<Arrival>, i: nat)
    requires Ordered(start, run) && i < |run| && AcceptedAt(start, run, i)
    ensures var u := AfterUnbounded(start, run).seen;
            run[i].digest in u && run[i].now <= u[run[i].digest]
    decreases |run|
  {
    hide Accepts, Mirrors, Counted, Ordered, After;
    var before, a := run[..|run| - 1], run[|run| - 1];
    assert run == before + [a];
    PrefixOrdered(start, run);
    BoundedAcceptsAsUnbounded(start, before, a);
    if i < |before| {
      assert before[..i] == run[..i];
      assert AcceptedAt(start, before, i);
      UnboundedRemembers(start, before, i);
      NowOrdered(start, run, i, |run| - 1);
      UnboundedForgetsNothing(AfterUnbounded(start, before), a, run[i].digest);
    } else {
      AcceptedIsForeign(After(start, before), a);
    }
  }

  lemma AcceptedIsForeign(s: Loop, a: Arrival)
    requires Accepts(s, a)
    ensures !a.own && !Repeats(s.seen, a)
  {}

  lemma {:induction false} NowOrdered(start: int, run: seq<Arrival>, i: nat, j: nat)
    requires Ordered(start, run) && i <= j < |run|
    ensures run[i].now <= run[j].now
  {
    if i < j {
      NowOrdered(start, run, i, j - 1);
      assert Before(start, run, j) <= run[j].check;
    }
  }

  /** Two accepted datagrams with one digest are at least 900 ms apart, however the run went. */
  lemma RepeatsAreSpaced(start: int, run: seq<Arrival>, i: nat, j: nat)
    requires Ordered(start, run) && i < j < |run|
    requires AcceptedAt(start, run, i) && AcceptedAt(start, run, j) && run[i].digest == run[j].digest
    ensures run[j].now - run[i].now >= 900_000_000
  {
    hide Accepts, Ordered, After, AfterUnbounded;
    var before, a := run[..j], run[j];
    OrderedPrefix(start, run, j);
    OrderedPrefix(start, run, j + 1);
    assert run[..j + 1] == before + [a];
    assert before[..i] == run[..i];
    UnboundedRemembers(start, before, i);
    BoundedAcceptsAsUnbounded(start, before, a);
    AcceptedIsForeign(AfterUnbounded(start, before), a);
  }

  lemma OrderedPrefix(start: int, run: seq<Arrival>, n: nat)
    requires Ordered(start, run) && n <= |run|
    ensures Ordered(start, run[..n])
  {
    forall i | 0 <= i < n
      ensures Before(start, run[..n], i) <= run[..n][i].check
    {
      assert Before(start, run[..n], i) == Before(start, run, i);
    }
  }

  // ----- bursts -----------------------------------------------------------------------------

  /** How many of the first `n` datagrams are accepted. */
  function AcceptedCount(start: int, run: seq<Arrival>, n: nat): nat
    requires n <= |run|
  {
    if n == 0 then 0
    else AcceptedCount(start, run, n - 1) + if Accepts(After(start, run[..n - 1]), run[n - 1]) then 1 else 0
  }

  /** The part of the window's allowance that is used up. */
  function Used(s: Loop): nat {
    if s.count > WINDOW_LIMIT then WINDOW_LIMIT else s.count
  }

  lemma CheckOrdered(start: int, run: seq<Arrival>, i: nat, j: nat)
    requires Ordered(start, run) && i <= j < |run|
    ensures run[i].check <= run[j].check
  {
    if i < j {
      NowOrdered(start, run, i, j - 1);
      assert Before(start, run, j) <= run[j].check;
      assert run[i].check <= run[i].restart <= run[i].now;
    }
  }

  lemma StepUses(s: Loop, a: Arrival)
    ensures var t := Step(s, a); var accepted := if Accepts(s, a) then 1 else 0;
      || (t.window == s.window && accepted <= Used(t) - Used(s))
      || (a.check - s.window > SECOND && t.window == a.restart && accepted <= Used(t))
  {
    hide Vacated, Repeats;
  }

  /** From datagram `i` to `n`, within a second: one window, or the rest of one and the start of the next. */
  lemma {:induction false} BurstUses(start: int, run: seq<Arrival>, i: nat, n: nat)
    requires Ordered(start, run) && i <= n <= |run| && i < |run|
    requires n > i ==> run[n - 1].check - run[i].check <= SECOND
    ensures var s, t := After(start, run[..i]), After(start, run[..n]);
      var accepted := AcceptedCount(start, run, n) - AcceptedCount(start, run, i);
      || (t.window == s.window && accepted <= Used(t) - Used(s))
      || (t.window >= run[i].check && accepted <= WINDOW_LIMIT + Used(t))
    decreases n
  {
    hide Step, Used, Accepts, Ordered;
    if n > i {
      if n - 1 > i {
        CheckOrdered(start, run, n - 2, n - 1);
      }
      BurstUses(start, run, i, n - 1);
      CheckOrdered(start, run, i, n - 1);
      RestartAfterCheck(start, run, n - 1);
      assert run[..n][..n - 1] == run[..n - 1];
      StepUses(After(start, run[..n - 1]), run[n - 1]);
      UsedLimit(After(start, run[..n - 1]));
      UsedLimit(After(start, run[..i]));
    }
  }

  lemma UsedLimit(s: Loop)
    ensures Used(s) <= WINDOW_LIMIT
  {}

  lemma RestartAfterCheck(start: int, run: seq<Arrival>, i: nat)
    requires Ordered(start, run) && i < |run|
    ensures run[i].check <= run[i].restart
  {}

  /** Any stretch of a run whose checks lie within one second accepts at most two windows' worth of datagrams. */
  lemma BurstsAreBounded(start: int, run: seq<Arrival>, i: nat, n: nat)
    requires Ordered(start, run) && i < n <= |run| && run[n - 1].check - run[i].check <= 1_000_000_000
    ensures AcceptedCount(start, run, n) - AcceptedCount(start, run, i) <= 200
  {
    BurstUses(start, run, i, n);
    UsedLimit(After(start, run[..n]));
  }

  // ----- what is accepted, said of the run itself -----------------------------------------------

  /** How many datagrams do not come from the daemon's own addresses. */
  function ForeignCount(run: seq<Arrival>): nat {
    if run == [] then 0 else ForeignCount(run[..|run| - 1]) + if run[|run| - 1].own then 0 else 1
  }

  /** Datagram `j` comes more than a second after the current window started, and starts a new one. */
  ghost predicate Opens(start: int, run: seq<Arrival>, j: nat)
    requires j < |run|
  {
    !run[j].own && run[j].check - After(start, run[..j]).window > 1_000_000_000
  }

  lemma {:induction false} CountSince(start: int, run: seq<Arrival>, j: nat, n: nat)
    requires j <= n <= |run| && forall k :: j <= k < n ==> !Opens(start, run, k)
    ensures var s, t := After(start, run[..j]), After(start, run[..n]);
            t.window == s.window && t.count == s.count + ForeignCount(run[j..n])
  {
    hide Accepts, Vacated;
    if j < n {
      CountSince(start, run, j, n - 1);
      assert run[..n][..n - 1] == run[..n - 1];
      assert run[j..n][..n - j - 1] == run[j..n - 1];
      assert !Opens(start, run, n - 1);
    }
  }

  lemma OpeningCount(start: int, run: seq<Arrival>, j: nat)
    requires j < |run| && Opens(start, run, j)
    ensures After(start, run[..j + 1]).window == run[j].restart && After(start, run[..j + 1]).count == 1
  {
    hide Accepts, Vacated;
    assert run[..j + 1][..j] == run[..j];
  }

  lemma UnboundedEntry(u: Loop, a: Arrival, d: bytes)
    ensures var t := UnboundedStep(u, a).seen;
            d in t ==> || (d in u.seen && t[d] == u.seen[d])
                       || (!a.own && Accepts(u, a) && d == a.digest && t[d] == a.now)
  {}

  /** The unbounded table holds the time of the latest accepted datagram with each digest. */
  lemma {:induction false} UnboundedIsLatest(start: int, run: seq<Arrival>, d: bytes)
    requires Ordered(start, run)
    ensures var u := AfterUnbounded(start, run).seen;
            d in u ==>
              exists k :: 0 <= k < |run| && AcceptedAt(start, run, k) && run[k].digest == d && u[d] == run[k].now
  {
    hide Accepts, Counted, Ordered, After;
    if run != [] {
      var before, a := run[..|run| - 1], run[|run| - 1];
      assert run == before + [a];
      PrefixOrdered(start, run);
      BoundedAcceptsAsUnbounded(start, before, a);
      UnboundedIsLatest(start, before, d);
      var u := AfterUnbounded(start, before);
      UnboundedEntry(u, a, d);
      if d in u.seen {
        var k :| 0 <= k < |before| && AcceptedAt(start, before, k) && before[k].digest == d
            && u.seen[d] == before[k].now;
        assert run[..k] == before[..k];
        assert AcceptedAt(start, run, k) && run[k] == before[k];
      }
      assert AcceptedAt(start, run, |run| - 1) <==> Accepts(After(start, before), a);
    }
  }

  /**
   * A datagram is accepted exactly when it is not the daemon's own, is well formed, is among the first hundred foreign
   * ones of its window, and every accepted datagram with its digest is at least 900 ms old. Its window goes from the
   * latest datagram that came more than a second after the one before it began, or else from the start.
   */
  lemma AcceptedIff(start: int, run: seq<Arrival>, a: Arrival, j: nat)
    requires Ordered(start, run + [a]) && j <= |run|
    requires j == 0 || Opens(start, run + [a], j)
    requires forall k :: j < k <= |run| ==> !Opens(start, run + [a], k)
    ensures Accepts(After(start, run), a) <==>
            && !a.own && a.wellFormed && ForeignCount((run + [a])[j..]) <= 100
            && (forall k :: 0 <= k < |run| && AcceptedAt(start, run, k) && run[k].digest == a.digest ==>
                              a.now - run[k].now >= 900_000_000)
  {
    hide After, AfterUnbounded, Ordered, Opens, Counted;
    if !a.own {
      CountIs(start, run, a, j);
    }
    LastIs(start, run, a);
    RunMirrors(start, run);
    MirrorsRepeat(After(start, run), AfterUnbounded(start, run), Before(start, run, |run|), a);
    forall k | 0 <= k < |run| && AcceptedAt(start, run, k)
      ensures run[k].digest in AfterUnbounded(start, run).seen
      ensures run[k].now <= AfterUnbounded(start, run).seen[run[k].digest]
    {
      UnboundedRemembers(start, run, k);
    }
    UnboundedIsLatest(start, run, a.digest);
  }

  lemma LastIs(start: int, run: seq<Arrival>, a: Arrival)
    requires Ordered(start, run + [a])
    ensures Ordered(start, run) && Before(start, run, |run|) <= a.now
  {
    PrefixOrdered(start, run + [a]);
    assert (run + [a])[..|run|] == run;
  }

  lemma MirrorsRepeat(s: Loop, u: Loop, last: int, a: Arrival)
    requires Mirrors(s, u, last) && last <= a.now
    ensures Repeats(s.seen, a) <==> Repeats(u.seen, a)
  {}

  /** The count the window's limit is compared with: the foreign datagrams from the one that started the window. */
  lemma CountIs(start: int, run: seq<Arrival>, a: Arrival, j: nat)
    requires j <= |run| && !a.own
    requires j == 0 || Opens(start, run + [a], j)
    requires forall k :: j < k <= |run| ==> !Opens(start, run + [a], k)
    ensures Counted(After(start, run), a).count == ForeignCount((run + [a])[j..])
  {
    hide After, Opens, Counted, ForeignCount;
    var all := run + [a];
    assert all[..|all|] == all;
    LastCount(start, run, a);
    if Opens(start, all, j) {
      OpeningCount(start, all, j);
      CountSince(start, all, j + 1, |all|);
      assert all[j + 1..|all|] == all[j + 1..];
      ForeignFirst(all[j..]);
      assert all[j..][1..] == all[j + 1..];
      OpenerIsForeign(start, all, j);
    } else {
      CountSince(start, all, 0, |all|);
      assert all[0..|all|] == all[0..];
      NothingCounted(start, all);
    }
  }

  lemma NothingCounted(start: int, run: seq<Arrival>)
    ensures After(start, run[..0]).count == 0
  {}

  lemma LastCount(start: int, run: seq<Arrival>, a: Arrival)
    requires !a.own
    ensures After(start, run + [a]).count == Counted(After(start, run), a).count
  {
    hide Accepts, Vacated, Counted;
    assert (run + [a])[..|run|] == run;
  }

  lemma OpenerIsForeign(start: int, run: seq<Arrival>, j: nat)
    requires j < |run| && Opens(start, run, j)
    ensures !run[j].own
  {}

  lemma {:induction false} ForeignFirst(run: seq<Arrival>)
    requires run != []
    ensures ForeignCount(run) == ForeignCount(run[1..]) + if run[0].own then 0 else 1
  {
    if |run| > 1 {
      var before := run[..|run| - 1];
      ForeignFirst(before);
      assert run[1..][..|run| - 2] == before[1..];
    }
  }
}
