/** The worker: one service action, from its first record to done or failed, as the list of what it does and sees. */
module ActionWorker {
  import opened Bytes
  import opened Clock
  import Cfg = Settings

  datatype Kind = Save | Start | StopService | Restart | Unknown

  datatype Stage = Queued | Applying | Done | Failed

  datatype Verb = StopIt | EnableIt | StartIt | DisableIt

  /** The runtime file, and whether the process it names is the daemon. */
  datatype Runtime = Runtime(matches: bool, pid: nat, config: Cfg.Settings, mdns: bool, http: bool)

  datatype Entry =
    | Store(stage: Stage)
    | Command(verb: Verb, ok: bool)
    | See(seen: Runtime)

  /**
   * The surroundings: how each service command ends, what each poll reads, and when. The k-th clock reading
   * of a loop is at least the sleep of that loop after the one before.
   */
  datatype Surroundings = Surroundings(
    command: Verb -> bool,
    stopBegins: int, stopSees: nat -> Runtime, stopClock: Ticks,
    startBegins: int, startSees: nat -> Runtime, startClock: Ticks)

  const STOP_POLL := 100 * MILLISECOND
  const STOP_WAIT := 7 * SECOND
  const READY_WAIT := 15 * SECOND

  ghost predicate Paced(f: nat -> int) {
    forall i: nat, j: nat :: j == i + 1 ==> f(j) >= f(i) + STOP_POLL
  }

  type Ticks = f: nat -> int | Paced(f) ghost witness (n: nat) => n * STOP_POLL

  predicate Ready(c: Cfg.Settings, v: Runtime) {
    v.matches && v.config == c && (c.mdns ==> v.mdns) && (c.http ==> v.http)
  }

  // ----- what the worker does ---------------------------------------------------------------

  /** Waiting for the old daemon to go. */
  function StopWait(e: Surroundings, k: nat): (seq<Entry>, bool)
    decreases e.stopBegins + STOP_WAIT - e.stopClock(k)
  {
    var seen := [See(e.stopSees(k))];
    if !e.stopSees(k).matches then (seen, true)
    else if e.stopClock(k) > e.stopBegins + STOP_WAIT then (seen, false)
    else
      assert e.stopClock(k + 1) >= e.stopClock(k) + STOP_POLL;
      var (rest, gone) := StopWait(e, k + 1); (seen + rest, gone)
  }

  /** Waiting for the new daemon to be ready: `stable` good polls in a row with `pid` so far. */
  function ReadyWait(e: Surroundings, c: Cfg.Settings, k: nat, pid: nat, stable: nat): (seq<Entry>, bool)
    decreases e.startBegins + READY_WAIT - e.startClock(k)
  {
    if e.startClock(k) >= e.startBegins + READY_WAIT then ([], false)
    else
      assert e.startClock(k + 1) >= e.startClock(k) + STOP_POLL;
      var v := e.startSees(k);
      var now := if !Ready(c, v) then 0 else if pid == v.pid then stable + 1 else 1;
      if now >= 3 then ([See(v)], true)
      else
        var (rest, ok) := ReadyWait(e, c, k + 1, if Ready(c, v) then v.pid else pid, now);
        ([See(v)] + rest, ok)
  }

  function Issue(e: Surroundings, verb: Verb): seq<Entry> {
    [Store(Applying), Command(verb, e.command(verb))]
  }

  function Stopped(kind: Kind, e: Surroundings): (seq<Entry>, bool) {
    if kind.Start? then ([], true)
    else if !e.command(StopIt) then (Issue(e, StopIt), false)
    else (Issue(e, StopIt) + StopWait(e, 0).0, StopWait(e, 0).1)
  }

  function Served(c: Cfg.Settings, e: Surroundings): (seq<Entry>, bool) {
    if !c.enabled then (Issue(e, DisableIt), e.command(DisableIt))
    else if !e.command(EnableIt) then (Issue(e, EnableIt), false)
    else if !e.command(StartIt) then (Issue(e, EnableIt) + Issue(e, StartIt), false)
    else (Issue(e, EnableIt) + Issue(e, StartIt) + ReadyWait(e, c, 0, 0, 0).0, ReadyWait(e, c, 0, 0, 0).1)
  }

  function Work(kind: Kind, settings: Option<Cfg.Settings>, e: Surroundings): (seq<Entry>, bool) {
    if settings.None? then ([], false)
    else
      var (stopping, gone) := Stopped(kind, e);
      if !gone then (stopping, false)
      else var (serving, ok) := Served(settings.value, e); (stopping + serving, ok)
  }

  /** Everything one action does, with its first and its final record. */
  function Applied(kind: Kind, settings: Option<Cfg.Settings>, e: Surroundings): seq<Entry> {
    var (work, ok) := Work(kind, settings, e);
    [Store(Applying)] + work + [Store(if ok then Done else Failed)]
  }

  method Try(verb: Verb, e: Surroundings) returns (did: seq<Entry>, ok: bool)
    ensures did == Issue(e, verb) && ok == e.command(verb)
  {
    did := [Store(Applying)];
    ok := e.command(verb);
    did := did + [Command(verb, ok)];
  }

  method AwaitStop(e: Surroundings, before: seq<Entry>) returns (did: seq<Entry>, gone: bool)
    ensures did == before + StopWait(e, 0).0 && gone == StopWait(e, 0).1
  {
    did := before;
    var until := e.stopBegins + STOP_WAIT;
    var k: nat := 0;
    while e.stopSees(k).matches
      invariant did + StopWait(e, k).0 == before + StopWait(e, 0).0 && StopWait(e, k).1 == StopWait(e, 0).1
      decreases until - e.stopClock(k)
    {
      ghost var was := did;
      did := did + [See(e.stopSees(k))];
      if e.stopClock(k) > until {
        return did, false;
      }
      assert e.stopClock(k + 1) >= e.stopClock(k) + STOP_POLL;
      assert was + StopWait(e, k).0 == did + StopWait(e, k + 1).0;
      k := k + 1;
    }
    return did + [See(e.stopSees(k))], true;
  }

  method AwaitReady(c: Cfg.Settings, e: Surroundings, before: seq<Entry>) returns (did: seq<Entry>, ok: bool)
    ensures did == before + ReadyWait(e, c, 0, 0, 0).0 && ok == ReadyWait(e, c, 0, 0, 0).1
  {
    hide Ready;
    did := before;
    var until := e.startBegins + READY_WAIT;
    var k: nat, stable: nat, pid: nat := 0, 0, 0;
    while e.startClock(k) < until
      invariant did + ReadyWait(e, c, k, pid, stable).0 == before + ReadyWait(e, c, 0, 0, 0).0
      invariant ReadyWait(e, c, k, pid, stable).1 == ReadyWait(e, c, 0, 0, 0).1
      decreases until - e.startClock(k)
    {
      var v := e.startSees(k);
      ghost var was, wait := did, ReadyWait(e, c, k, pid, stable);
      did := did + [See(v)];
      if Ready(c, v) {
        if pid == v.pid {
          stable := stable + 1;
        } else {
          stable := 1;
          pid := v.pid;
        }
        if stable >= 3 {
          return did, true;
        }
      } else {
        stable := 0;
      }
      assert e.startClock(k + 1) >= e.startClock(k) + STOP_POLL;
      assert was + wait.0 == did + ReadyWait(e, c, k + 1, pid, stable).0;
      k := k + 1;
    }
    return did, false;
  }

  /** Stopping the old daemon, which a start leaves out. */
  method StopOld(kind: Kind, e: Surroundings) returns (did: seq<Entry>, gone: bool)
    ensures (did, gone) == Stopped(kind, e)
  {
    hide StopWait, Issue;
    if kind.Start? {
      return [], true;
    }
    did, gone := Try(StopIt, e);
    if gone {
      did, gone := AwaitStop(e, did);
    }
  }

  method Serve(c: Cfg.Settings, e: Surroundings) returns (did: seq<Entry>, ok: bool)
    ensures (did, ok) == Served(c, e)
  {
    hide ReadyWait, Issue;
    if c.enabled {
      did, ok := Try(EnableIt, e);
      if !ok {
        return;
      }
      var starting;
      starting, ok := Try(StartIt, e);
      did := did + starting;
      if !ok {
        return;
      }
      did, ok := AwaitReady(c, e, did);
    } else {
      did, ok := Try(DisableIt, e);
    }
  }

  /** Applies the saved settings to the service. */
  method ApplyAction(kind: Kind, settings: Option<Cfg.Settings>, e: Surroundings) returns (did: seq<Entry>, done: bool)
    ensures did == Applied(kind, settings, e)
    ensures done == (did[|did| - 1] == Store(Done))
  {
    hide Stopped, Served;
    did := [Store(Applying)];
    if settings.None? {
      return did + [Store(Failed)], false;
    }
    var stopping, gone := StopOld(kind, e);
    did := did + stopping;
    if !gone {
      return did + [Store(Failed)], false;
    }
    var serving, ok := Serve(settings.value, e);
    did := did + serving;
    return did + [Store(if ok then Done else Failed)], ok;
  }

  // ----- when the waits succeed -------------------------------------------------------------

  /** The old daemon is seen gone, and no poll before that came more than seven seconds after the stop. */
  ghost predicate GoneAt(e: Surroundings, k: nat) {
    !e.stopSees(k).matches && forall j: nat :: j < k ==> e.stopClock(j) - e.stopBegins <= 7_000_000_000
  }

  /** The poll finds the daemon with these settings, and neither discovery nor web page wanted but down. */
  ghost predicate Good(c: Cfg.Settings, v: Runtime) {
    v.matches && v.config == c && !(c.mdns && !v.mdns) && !(c.http && !v.http)
  }

  /** Three good polls in a row, of one process, within fifteen seconds of the start. */
  ghost predicate StableAt(e: Surroundings, c: Cfg.Settings, k: nat) {
    && Good(c, e.startSees(k)) && Good(c, e.startSees(k + 1)) && Good(c, e.startSees(k + 2))
    && e.startSees(k).pid == e.startSees(k + 1).pid == e.startSees(k + 2).pid
    && e.startClock(k + 2) - e.startBegins < 15_000_000_000
  }

  lemma ReadyIsGood(c: Cfg.Settings)
    ensures forall v :: Ready(c, v) <==> Good(c, v)
  {}

  lemma {:induction false} Later(f: Ticks, i: nat, j: nat)
    requires i <= j
    ensures f(i) <= f(j)
    decreases j
  {
    if i < j {
      Later(f, i, j - 1);
      assert f(j) >= f(j - 1) + STOP_POLL;
    }
  }

  lemma {:induction false} StopWaitIff(e: Surroundings, k: nat)
    requires forall j: nat :: j < k ==> e.stopSees(j).matches && e.stopClock(j) <= e.stopBegins + STOP_WAIT
    ensures StopWait(e, k).1 <==> exists m: nat :: GoneAt(e, m)
    ensures |StopWait(e, k).0| > 0
    ensures StopWait(e, k).1 ==> var last := StopWait(e, k).0[|StopWait(e, k).0| - 1]; last.See? && !last.seen.matches
    decreases e.stopBegins + STOP_WAIT - e.stopClock(k)
  {
    if !e.stopSees(k).matches {
      assert GoneAt(e, k);
    } else if e.stopClock(k) > e.stopBegins + STOP_WAIT {
      forall m: nat
        ensures !GoneAt(e, m)
      {
        if m > k {
          assert e.stopClock(k) > e.stopBegins + STOP_WAIT;
        }
      }
    } else {
      assert e.stopClock(k + 1) >= e.stopClock(k) + STOP_POLL;
      StopWaitIff(e, k + 1);
    }
  }

  /** The loop's two variables describe the latest polls. */
  ghost predicate Streak(e: Surroundings, c: Cfg.Settings, k: nat, pid: nat, stable: nat) {
    stable <= 2 && stable <= k
    && forall j: nat :: k - stable <= j < k ==> Ready(c, e.startSees(j)) && e.startSees(j).pid == pid
  }

  lemma {:induction false} ReadyWaitIff(e: Surroundings, c: Cfg.Settings, k: nat, pid: nat, stable: nat)
    requires Streak(e, c, k, pid, stable)
    ensures ReadyWait(e, c, k, pid, stable).1 <==> exists m: nat :: m >= k - stable && StableAt(e, c, m)
    decreases e.startBegins + READY_WAIT - e.startClock(k)
  {
    hide Ready, Good;
    ReadyIsGood(c);
    if e.startClock(k) >= e.startBegins + READY_WAIT {
      forall m: nat | m >= k - stable
        ensures !StableAt(e, c, m)
      {
        Later(e.startClock, k, m + 2);
      }
    } else {
      assert e.startClock(k + 1) >= e.startClock(k) + STOP_POLL;
      var v := e.startSees(k);
      var now := if !Ready(c, v) then 0 else if pid == v.pid then stable + 1 else 1;
      if now >= 3 {
        assert StableAt(e, c, k - 2);
      } else {
        ReadyWaitIff(e, c, k + 1, if Ready(c, v) then v.pid else pid, now);
        forall m: nat | k - stable <= m < k + 1 - now
          ensures !StableAt(e, c, m)
        {
          assert m == k || m + 1 == k || m + 2 == k;
        }
      }
    }
  }

  lemma {:induction false} StopWaitSees(e: Surroundings, k: nat)
    ensures forall i :: 0 <= i < |StopWait(e, k).0| ==> StopWait(e, k).0[i].See?
    decreases e.stopBegins + STOP_WAIT - e.stopClock(k)
  {
    if e.stopSees(k).matches && e.stopClock(k) <= e.stopBegins + STOP_WAIT {
      assert e.stopClock(k + 1) >= e.stopClock(k) + STOP_POLL;
      StopWaitSees(e, k + 1);
    }
  }

  /** The polls are recorded in order, and success ends with three good ones of one process. */
  lemma {:induction false} ReadyWaitSees(e: Surroundings, c: Cfg.Settings, k: nat, pid: nat, stable: nat)
    requires Streak(e, c, k, pid, stable)
    ensures var (seen, ok) := ReadyWait(e, c, k, pid, stable);
      && (forall i :: 0 <= i < |seen| ==> seen[i] == See(e.startSees(k + i)))
      && (ok ==> k + |seen| >= 3 && |seen| > 0 && StableAt(e, c, k + |seen| - 3))
    decreases e.startBegins + READY_WAIT - e.startClock(k)
  {
    hide Ready, Good;
    ReadyIsGood(c);
    if e.startClock(k) < e.startBegins + READY_WAIT {
      assert e.startClock(k + 1) >= e.startClock(k) + STOP_POLL;
      var v := e.startSees(k);
      var now := if !Ready(c, v) then 0 else if pid == v.pid then stable + 1 else 1;
      if now < 3 {
        ReadyWaitSees(e, c, k + 1, if Ready(c, v) then v.pid else pid, now);
      }
    }
  }

  // ----- what every action keeps to -----------------------------------------------------------

  /**
   * An action is done exactly when every command it needs succeeds, the old daemon goes in time and the new one
   * is stable in time.
   */
  lemma DoneIff(kind: Kind, settings: Option<Cfg.Settings>, e: Surroundings)
    ensures var did := Applied(kind, settings, e);
      did[|did| - 1] == Store(Done) <==>
        && settings.Some?
        && (!kind.Start? ==> e.command(StopIt) && exists m: nat :: GoneAt(e, m))
        && (if settings.value.enabled
            then e.command(EnableIt) && e.command(StartIt) && exists m: nat :: StableAt(e, settings.value, m)
            else e.command(DisableIt))
  {
    hide StopWait, ReadyWait, GoneAt, StableAt;
    StopWaitIff(e, 0);
    if settings.Some? {
      ReadyWaitIff(e, settings.value, 0, 0, 0);
    }
  }

  ghost predicate OnlyApplying(es: seq<Entry>) {
    forall i :: 0 <= i < |es| && es[i].Store? ==> es[i].stage.Applying?
  }

  lemma WorkOnlyApplying(kind: Kind, settings: Option<Cfg.Settings>, e: Surroundings)
    ensures OnlyApplying(Work(kind, settings, e).0)
  {
    hide StopWait, ReadyWait;
    if settings.Some? {
      StopWaitSees(e, 0);
      ReadyWaitSees(e, settings.value, 0, 0, 0);
      assert OnlyApplying(Stopped(kind, e).0);
      assert OnlyApplying(Served(settings.value, e).0);
    }
  }

  /** Every action ends in done or failed, and says so only once, at the end. */
  lemma EndsOnce(kind: Kind, settings: Option<Cfg.Settings>, e: Surroundings, i: nat)
    requires i < |Applied(kind, settings, e)| && Applied(kind, settings, e)[i].Store?
    ensures var did := Applied(kind, settings, e);
      if i == |did| - 1 then did[i].stage.Done? || did[i].stage.Failed? else did[i].stage.Applying?
  {
    hide Work;
    WorkOnlyApplying(kind, settings, e);
    var did := Applied(kind, settings, e);
    assert 0 < i < |did| - 1 ==> did[i] == Work(kind, settings, e).0[i - 1];
  }

  /** The service commands of a list of entries. */
  function Verbs(es: seq<Entry>): seq<Verb> {
    if es == [] then [] else (if es[0].Command? then [es[0].verb] else []) + Verbs(es[1..])
  }

  lemma NothingIssued()
    ensures Verbs([]) == []
  {}

  lemma VerbsFront(x: Entry, rest: seq<Entry>)
    ensures Verbs([x] + rest) == (if x.Command? then [x.verb] else []) + Verbs(rest)
  {
    assert ([x] + rest)[1..] == rest;
  }

  lemma {:induction false} VerbsConcat(a: seq<Entry>, b: seq<Entry>)
    ensures Verbs(a + b) == Verbs(a) + Verbs(b)
  {
    hide Verbs;
    if a == [] {
      assert a + b == b;
      NothingIssued();
    } else {
      VerbsConcat(a[1..], b);
      VerbsFront(a[0], a[1..]);
      VerbsFront(a[0], a[1..] + b);
      assert [a[0]] + a[1..] == a;
      assert [a[0]] + (a[1..] + b) == a + b;
    }
  }

  lemma {:induction false} NoVerbs(es: seq<Entry>)
    requires forall i :: 0 <= i < |es| ==> es[i].See?
    ensures Verbs(es) == []
  {
    if es != [] {
      NoVerbs(es[1..]);
    }
  }

  function Needed(kind: Kind, enabled: bool): seq<Verb> {
    (if kind.Start? then [] else [StopIt]) + if enabled then [EnableIt, StartIt] else [DisableIt]
  }

  lemma IssueVerbs(e: Surroundings, verb: Verb)
    ensures Verbs(Issue(e, verb)) == [verb]
  {
    var command := [Command(verb, e.command(verb))];
    assert command[1..] == [];
    assert Verbs(command) == [verb];
    assert Issue(e, verb)[1..] == command;
  }

  lemma StoppedVerbs(kind: Kind, e: Surroundings)
    ensures Verbs(Stopped(kind, e).0) == if kind.Start? then [] else [StopIt]
  {
    hide StopWait;
    IssueVerbs(e, StopIt);
    StopWaitSees(e, 0);
    NoVerbs(StopWait(e, 0).0);
    VerbsConcat(Issue(e, StopIt), StopWait(e, 0).0);
  }

  lemma ServedVerbs(c: Cfg.Settings, e: Surroundings)
    ensures Verbs(Served(c, e).0) <= if c.enabled then [EnableIt, StartIt] else [DisableIt]
    ensures Served(c, e).1 ==> Verbs(Served(c, e).0) == if c.enabled then [EnableIt, StartIt] else [DisableIt]
  {
    hide ReadyWait;
    IssueVerbs(e, DisableIt);
    IssueVerbs(e, EnableIt);
    IssueVerbs(e, StartIt);
    ReadyWaitSees(e, c, 0, 0, 0);
    NoVerbs(ReadyWait(e, c, 0, 0, 0).0);
    VerbsConcat(Issue(e, EnableIt), Issue(e, StartIt));
    VerbsConcat(Issue(e, EnableIt) + Issue(e, StartIt), ReadyWait(e, c, 0, 0, 0).0);
  }

  /** The commands issued are the needed ones in order, cut short at the first failure and complete when done. */
  lemma CommandsInOrder(kind: Kind, c: Cfg.Settings, e: Surroundings)
    ensures var did := Applied(kind, Some(c), e);
      && Verbs(did) <= Needed(kind, c.enabled)
      && (did[|did| - 1] == Store(Done) ==> Verbs(did) == Needed(kind, c.enabled))
  {
    hide StopWait, ReadyWait, Verbs, Stopped, Served;
    var (work, ok) := Work(kind, Some(c), e);
    var end := [Store(if ok then Done else Failed)];
    StoppedVerbs(kind, e);
    ServedVerbs(c, e);
    VerbsConcat(Stopped(kind, e).0, Served(c, e).0);
    VerbsConcat([Store(Applying)] + work, end);
    VerbsConcat([Store(Applying)], work);
    NoCommand(Applying);
    NoCommand(end[0].stage);
  }

  lemma NoCommand(stage: Stage)
    ensures Verbs([Store(stage)]) == []
  {
    assert [Store(stage)][1..] == [];
  }

  /**
   * Unless it was asked to start, the worker has stopped the old daemon and last saw it gone before it starts a
   * new one.
   */
  lemma NoStartWhileOldRuns(kind: Kind, settings: Option<Cfg.Settings>, e: Surroundings, i: nat)
    requires !kind.Start? && i < |Applied(kind, settings, e)|
    requires Applied(kind, settings, e)[i].Command? && Applied(kind, settings, e)[i].verb.StartIt?
    ensures var did := Applied(kind, settings, e);
      && i > 2 && did[2] == Command(StopIt, true)
      && exists j :: 2 < j < i && did[j].See? && !did[j].seen.matches && forall k :: j < k < i ==> !did[k].See?
  {
    hide StopWait, ReadyWait;
    StopWaitIff(e, 0);
    StopWaitSees(e, 0);
    ReadyWaitSees(e, settings.value, 0, 0, 0);
    var did, stopping := Applied(kind, settings, e), Stopped(kind, e).0;
    var j := |stopping|;
    assert i > j && stopping[j - 1] == StopWait(e, 0).0[|StopWait(e, 0).0| - 1] && did[j] == stopping[j - 1];
  }

  /** The last three entries before the final record are good polls of one process with these settings. */
  ghost predicate SawStable(did: seq<Entry>, c: Cfg.Settings) {
    var n := |did|;
    && n >= 4 && did[n - 4].See? && did[n - 3].See? && did[n - 2].See?
    && did[n - 4].seen.pid == did[n - 3].seen.pid == did[n - 2].seen.pid
    && forall k :: n - 4 <= k < n - 1 ==> Good(c, did[k].seen)
  }

  /** An enabled action is done only after three good polls in a row: one process, and the settings being applied. */
  lemma DoneSawStable(kind: Kind, c: Cfg.Settings, e: Surroundings)
    requires c.enabled && var did := Applied(kind, Some(c), e); did[|did| - 1] == Store(Done)
    ensures SawStable(Applied(kind, Some(c), e), c)
  {
    hide StopWait, ReadyWait;
    ReadyWaitSees(e, c, 0, 0, 0);
  }

  lemma SuccessIsDone(kind: Kind, settings: Option<Cfg.Settings>, e: Surroundings)
    requires Work(kind, settings, e).1
    ensures settings.Some?
    ensures var did := Applied(kind, settings, e); did[|did| - 1] == Store(Done)
  {
    hide Stopped, Served;
  }
}
