/**
 * Requests and workers over the configuration file, the ownership marker, the action record and one lock.
 * A request opens the lock file, decides, saves and starts a worker that shares the open lock; both close
 * their copy when they end. Every file access is a step, and any of the parties may die between steps.
 */
module ActionProtocol {
  import opened Bytes
  import Cfg = Settings
  import opened NetworkSelection
  import opened ActionWorker

  /** A request body, and the record it decodes to over the defaults. */
  datatype Payload = Payload(body: bytes, decoded: Option<Cfg.Settings>)

  datatype Record = Record(id: nat, kind: Kind, stage: Stage)

  datatype Holder = ByRequest(id: nat) | ByWorker(id: nat) | ByCommand(id: nat)

  /** `holders`: the open copies of the lock. The service commands of a worker inherit its copy. */
  datatype World = World(live: bytes, marker: bool, record: Option<Record>, holders: set<Holder>)

  datatype Request =
    | Opened(input: Payload)
    | Decided(settings: Cfg.Settings, changed: bool)
    | Committed(settings: Cfg.Settings, changed: bool)
    | Released(settings: Cfg.Settings)
    | Recorded(settings: Cfg.Settings)
    | Answered(settings: Cfg.Settings)
    | Refused
    | Gone

  datatype Worker =
    | Absent
    | Started
    | Loaded(settings: Cfg.Settings)
    | Ended
    | Left

  /**
   * How an action came to its end: whether a party to it died, whether its log could not be opened, and whether
   * its final record was written or missed.
   */
  datatype End = End(died: bool, unlogged: bool, settled: bool, missed: bool)

  /**
   * One action: its request and, once started, its worker. `committed` is the record its request decided on, `met`
   * the behaviour of the service that its worker met, `orphan` a service command that outlives its worker.
   */
  datatype Party = Party(kind: Kind, request: Request, worker: Worker, committed: Option<Cfg.Settings>,
                         met: Option<Surroundings>, orphan: bool, end: End)

  function Arriving(kind: Kind, request: Request): Party {
    Party(kind, request, Absent, None, None, false, End(false, false, false, false))
  }

  datatype State = State(world: World, parties: map<nat, Party>)

  /** What the surroundings decide during one step of a request. */
  datatype Luck = Luck(readable: bool, interfaces: Option<seq<Interface>>, avahi: Avahi, initScript: bool, io: Cfg.Io,
                       remove: bool, random: bool, store: bool, log: bool, spawn: bool, note: bool)

  /**
   * And during one step of a worker: whether the settings can be read, how the service behaves, whether the
   * record is written.
   */
  datatype Fate = Fate(readable: bool, service: Surroundings, written: bool)

  // ----- deciding ---------------------------------------------------------------------------

  const MAX_PAYLOAD: nat := 16384

  function Parsed(p: Payload): Option<Cfg.Settings> {
    if |p.body| > MAX_PAYLOAD || p.decoded.None? then None
    else
      var c := p.decoded.value.(remoteInterfaces := Cfg.Distinct(p.decoded.value.remoteInterfaces));
      if Cfg.Valid(c) then Some(c) else None
  }

  /** Decodes a request body: repeated interface names are dropped before the check. */
  method ParsePayload(p: Payload) returns (r: Option<Cfg.Settings>)
    ensures r == Parsed(p)
    ensures r.Some? ==> Cfg.Valid(r.value) && Cfg.PairwiseDistinct(r.value.remoteInterfaces)
    ensures r.Some? ==> forall n :: n in r.value.remoteInterfaces <==> n in p.decoded.value.remoteInterfaces
  {
    hide Cfg.Valid, Cfg.PairwiseDistinct;
    if |p.body| > MAX_PAYLOAD || p.decoded.None? {
      return None;
    }
    var c := p.decoded.value;
    var names := c.remoteInterfaces;
    var seen: set<bytes>, a: seq<bytes> := {}, [];
    Cfg.NothingRepeats();
    for i := 0 to |names|
      invariant a == Cfg.Distinct(names[..i]) && Cfg.PairwiseDistinct(a)
      invariant forall n :: n in seen <==> n in a
    {
      assert names[..i + 1][..i] == names[..i];
      if names[i] !in seen {
        Cfg.DistinctSnoc(a, names[i]);
        seen := seen + {names[i]};
        a := a + [names[i]];
      }
    }
    assert names[..|names|] == names;
    c := c.(remoteInterfaces := a);
    return if Cfg.Valid(c) then Some(c) else None;
  }

  function Wanted(kind: Kind, was: Cfg.Settings, input: Payload): Option<Cfg.Settings> {
    match kind
    case Save => Parsed(input)
    case Start => Some(was.(enabled := true))
    case StopService => Some(was.(enabled := false))
    case Restart => if was.enabled then Some(was) else None
    case Unknown => None
  }

  /** An enabled record must find its networks and an engine for them. */
  predicate CanServe(c: Cfg.Settings, l: Luck) {
    c.enabled ==>
      l.interfaces.Some? && Resolve(c, l.interfaces.value).Some?
      && ChooseEngine(c.discoveryMode, Resolve(c, l.interfaces.value).value, l.avahi).Some?
  }

  function Decide(kind: Kind, live: bytes, input: Payload, l: Luck): Request {
    if !l.readable || Cfg.ReadSettings(live).None? then Refused
    else
      var was := Cfg.ReadSettings(live).value;
      var c := Wanted(kind, was, input);
      if c.None? || !CanServe(c.value, l) || !l.initScript then Refused else Decided(c.value, c.value != was)
  }

  // ----- the steps --------------------------------------------------------------------------

  predicate Saves(c: Cfg.Settings, io: Cfg.Io) {
    Cfg.Valid(c) && Cfg.SettingsFrom(Cfg.FileOf(c)) == Some(c) && io.Works()
  }

  function Written(w: World, r: Record, ok: bool): World {
    if ok then w.(record := Some(r)) else w
  }

  /** The final record of an action, written or not. */
  function Finished(w: World, id: nat, p: Party, stage: Stage, ok: bool): (World, Party) {
    (Written(w, Record(id, p.kind, stage), ok),
     p.(end := p.end.(settled := p.end.settled || ok, missed := p.end.missed || !ok)))
  }

  /** The next step of a request. */
  function RequestStep(w: World, id: nat, p: Party, l: Luck): (World, Party) {
    match p.request
    case Opened(input) =>
      var next := Decide(p.kind, w.live, input, l);
      (w, p.(request := next, committed := if next.Decided? then Some(next.settings) else None))
    case Decided(c, changed) =>
      if !changed then (w, p.(request := Committed(c, changed)))
      else if Saves(c, l.io) then (w.(live := Cfg.FileOf(c)), p.(request := Committed(c, changed)))
      else (w, p.(request := Refused))
    case Committed(c, changed) =>
      (if !c.manageIP && changed && l.remove then w.(marker := false) else w, p.(request := Released(c)))
    case Released(c) =>
      if l.random && l.store then (w.(record := Some(Record(id, p.kind, Queued))), p.(request := Recorded(c)))
      else (w, p.(request := Refused))
    case Recorded(c) =>
      if !l.log then (w, p.(request := Refused, end := p.end.(unlogged := true)))
      else if l.spawn then (w.(holders := w.holders + {ByWorker(id)}), p.(request := Answered(c), worker := Started))
      else Finished(w, id, p.(request := Refused), Failed, l.note)
    case Answered(_) => (w.(holders := w.holders - {ByRequest(id)}), p.(request := Gone))
    case Refused => (w.(holders := w.holders - {ByRequest(id)}), p.(request := Gone))
    case Gone => (w, p)
  }

  /**
   * The next step of a worker: it loads the settings, then works as `ActionWorker` does, then closes its copy of
   * the lock.
   */
  function WorkerStep(w: World, id: nat, p: Party, f: Fate): (World, Party) {
    match p.worker
    case Started =>
      var c := if f.readable then Cfg.ReadSettings(w.live) else None;
      if c.Some? then (Written(w, Record(id, p.kind, Applying), f.written), p.(worker := Loaded(c.value)))
      else Finished(w, id, p.(worker := Ended), Failed, f.written)
    case Loaded(c) =>
      Finished(w, id, p.(worker := Ended, met := Some(f.service)),
               if Work(p.kind, Some(c), f.service).1 then Done else Failed, f.written)
    case Ended => (w.(holders := w.holders - {ByWorker(id)}), p.(worker := Left))
    case _ => (w, p)
  }

  function Dead(p: Party): Party {
    p.(end := p.end.(died := true))
  }

  datatype Event =
    | Arrive(id: nat, kind: Kind, input: Payload)
    | RequestGoes(id: nat, luck: Luck)
    | WorkerGoes(id: nat, fate: Fate)
    | RequestDies(id: nat)
    | WorkerDies(id: nat, running: bool)
    | CommandEnds(id: nat)

  predicate Enabled(s: State, e: Event) {
    match e
    case Arrive(id, _, _) => id !in s.parties
    case RequestGoes(id, _) => id in s.parties
    case WorkerGoes(id, _) => id in s.parties
    case RequestDies(id) => id in s.parties && !s.parties[id].request.Gone?
    case WorkerDies(id, running) => id in s.parties && WorkerBusy(s.parties[id])
        && (running ==> s.parties[id].worker.Loaded?)
    case CommandEnds(id) => id in s.parties && s.parties[id].orphan
  }

  function Step(s: State, e: Event): State
    requires Enabled(s, e)
  {
    match e
    case Arrive(id, kind, input) =>
      if s.world.holders == {} then
        State(s.world.(holders := {ByRequest(id)}), s.parties[id := Arriving(kind, Opened(input))])
      else s.(parties := s.parties[id := Arriving(kind, Gone)])
    case RequestGoes(id, l) =>
      var (w, p) := RequestStep(s.world, id, s.parties[id], l); State(w, s.parties[id := p])
    case WorkerGoes(id, f) =>
      var (w, p) := WorkerStep(s.world, id, s.parties[id], f); State(w, s.parties[id := p])
    case RequestDies(id) =>
      State(s.world.(holders := s.world.holders - {ByRequest(id)}),
          s.parties[id := Dead(s.parties[id]).(request := Gone)])
    case WorkerDies(id, running) =>
      State(s.world.(holders := s.world.holders - {ByWorker(id)} + if running then {ByCommand(id)} else {}),
            s.parties[id := Dead(s.parties[id]).(worker := Left, orphan := running || s.parties[id].orphan)])
    case CommandEnds(id) =>
      State(s.world.(holders := s.world.holders - {ByCommand(id)}), s.parties[id := s.parties[id].(orphan := false)])
  }

  predicate CanRun(s: State, es: seq<Event>)
    decreases |es|
  {
    es == [] || (Enabled(s, es[0]) && CanRun(Step(s, es[0]), es[1..]))
  }

  function Run(s: State, es: seq<Event>): State
    requires CanRun(s, es)
    decreases |es|
  {
    if es == [] then s else Run(Step(s, es[0]), es[1..])
  }

  predicate Fresh(s: State) {
    s.parties == map[] && s.world.holders == {} && s.world.record.None?
  }

  // ----- what every step keeps --------------------------------------------------------------

  predicate RequestBusy(p: Party) {
    !p.request.Gone?
  }

  predicate WorkerBusy(p: Party) {
    !p.worker.Absent? && !p.worker.Left?
  }

  predicate InProgress(p: Party) {
    RequestBusy(p) || WorkerBusy(p) || p.orphan
  }

  ghost predicate Holds(holders: set<Holder>, id: nat, p: Party) {
    && (RequestBusy(p) <==> ByRequest(id) in holders)
    && (WorkerBusy(p) <==> ByWorker(id) in holders)
    && (p.orphan <==> ByCommand(id) in holders)
  }

  ghost predicate SameOthers(before: set<Holder>, after: set<Holder>, id: nat) {
    forall h: Holder :: h.id != id ==> (h in before <==> h in after)
  }

  ghost predicate LockTells(s: State) {
    && (forall id :: id in s.parties ==> Holds(s.world.holders, id, s.parties[id]))
    && (forall h :: h in s.world.holders ==> h.id in s.parties)
    && (forall g, h :: g in s.world.holders && h in s.world.holders ==> g.id == h.id)
  }

  /** The action has not come to its final record. */
  predicate Unfinished(p: Party) {
    !(p.request.Answered? || p.request.Refused? || p.request.Gone?) || p.worker.Started? || p.worker.Loaded?
  }

  /** What the file holds is what the party in progress decided on. */
  ghost predicate FileAgrees(live: bytes, p: Party) {
    && (match p.request
        case Opened(_) => p.worker.Absent?
        case Decided(c, changed) =>
          p.worker.Absent? && p.committed == Some(c) && (!changed ==> Cfg.SettingsFrom(live) == Some(c))
        case Committed(c, _) => p.worker.Absent? && p.committed == Some(c) && Cfg.SettingsFrom(live) == Some(c)
        case Released(c) => p.worker.Absent? && p.committed == Some(c) && Cfg.SettingsFrom(live) == Some(c)
        case Recorded(c) => p.worker.Absent? && p.committed == Some(c) && Cfg.SettingsFrom(live) == Some(c)
        case Refused => p.worker.Absent?
        case _ => true)
    && (p.worker.Started? ==> p.committed.Some? && Cfg.SettingsFrom(live) == p.committed)
    && (p.worker.Loaded? ==> p.committed == Some(p.worker.settings))
    && (Unfinished(p) ==> !p.end.settled && !p.end.missed && !p.end.unlogged)
  }

  predicate Final(stage: Stage) {
    stage.Done? || stage.Failed?
  }

  ghost predicate RecordTells(s: State) {
    s.world.record.Some? ==>
      var r := s.world.record.value;
      && r.id in s.parties
      && var p := s.parties[r.id];
      && (Final(r.stage) <==> p.end.settled)
      && (!Final(r.stage) ==> p.end.died || p.end.unlogged || p.end.missed || Records(p))
      && (r.stage.Done? ==> p.met.Some? && Work(p.kind, p.committed, p.met.value).1)
  }

  /** The action has queued its record and may still write it again. */
  predicate Records(p: Party) {
    p.request.Recorded? || p.worker.Started? || p.worker.Loaded?
  }

  /** It is then the one the stored record is about. */
  ghost predicate RecordOwned(s: State) {
    forall id :: id in s.parties && Records(s.parties[id]) ==> s.world.record.Some? && s.world.record.value.id == id
  }

  ghost predicate Inv(s: State) {
    && LockTells(s)
    && (forall id :: id in s.parties && InProgress(s.parties[id]) ==> FileAgrees(s.world.live, s.parties[id]))
    && RecordTells(s) && RecordOwned(s)
  }

  lemma HoldsStill(before: set<Holder>, after: set<Holder>, id: nat, j: nat, p: Party)
    requires Holds(before, j, p) && SameOthers(before, after, id) && j != id
    ensures Holds(after, j, p)
  {
    hide RequestBusy, WorkerBusy;
  }

  lemma HolderIsBusy(holders: set<Holder>, id: nat, p: Party, h: Holder)
    requires Holds(holders, id, p) && h in holders && h.id == id
    ensures InProgress(p)
  {
    hide RequestBusy, WorkerBusy;
  }

  /** A step of one party touches its own copies of the lock only, and it runs only while no other party holds one. */
  lemma LockAfter(s: State, next: State, id: nat)
    requires LockTells(s)
    requires next.parties.Keys == s.parties.Keys + {id}
    requires forall j :: j in s.parties && j != id ==> next.parties[j] == s.parties[j]
    requires SameOthers(s.world.holders, next.world.holders, id) && Holds(next.world.holders, id, next.parties[id])
    requires InProgress(next.parties[id]) ==> forall h :: h in s.world.holders ==> h.id == id
    ensures LockTells(next)
  {
    hide Holds, InProgress;
    forall j | j in next.parties
      ensures Holds(next.world.holders, j, next.parties[j])
    {
      if j != id {
        HoldsStill(s.world.holders, next.world.holders, id, j, s.parties[j]);
      }
    }
    forall h | h in next.world.holders
      ensures h.id in next.parties && (h.id != id ==> h in s.world.holders)
      ensures h.id == id ==> InProgress(next.parties[id])
    {
      assert h.id != id ==> h in s.world.holders;
      if h.id == id {
        HolderIsBusy(next.world.holders, id, next.parties[id], h);
      }
    }
  }

  lemma RequestLock(w: World, id: nat, p: Party, l: Luck)
    requires Holds(w.holders, id, p)
    ensures var (after, next) := RequestStep(w, id, p, l);
      Holds(after.holders, id, next) && SameOthers(w.holders, after.holders, id) && (InProgress(next) ==> InProgress(p))
  {
    hide Cfg.ReadSettings, Cfg.SettingsFrom, Cfg.FileOf, Cfg.Valid, Decide, Saves;
    if p.request.Opened? {
      DecideStays(p.kind, w.live, p.request.input, l);
    }
  }

  lemma WorkerLock(w: World, id: nat, p: Party, f: Fate)
    requires Holds(w.holders, id, p)
    ensures var (after, next) := WorkerStep(w, id, p, f);
      Holds(after.holders, id, next) && SameOthers(w.holders, after.holders, id) && (InProgress(next) ==> InProgress(p))
  {
    hide Cfg.ReadSettings;
  }

  /** The other events: an arrival, a death, the end of a command. */
  lemma OtherLock(s: State, e: Event)
    requires LockTells(s) && Enabled(s, e) && !e.RequestGoes? && !e.WorkerGoes?
    ensures var next := Step(s, e);
      && SameOthers(s.world.holders, next.world.holders, e.id) && Holds(next.world.holders, e.id, next.parties[e.id])
      && (InProgress(next.parties[e.id]) ==>
            s.world.holders == {} || (e.id in s.parties && InProgress(s.parties[e.id])))
  {}

  lemma LockStep(s: State, e: Event)
    requires LockTells(s) && Enabled(s, e)
    ensures LockTells(Step(s, e))
  {
    hide RequestStep, WorkerStep, SameOthers, InProgress, LockTells;
    match e {
      case RequestGoes(id, l) =>
        HeldBy(s, id);
        RequestLock(s.world, id, s.parties[id], l);
      case WorkerGoes(id, f) =>
        HeldBy(s, id);
        WorkerLock(s.world, id, s.parties[id], f);
      case _ =>
        OtherLock(s, e);
        if e.id in s.parties {
          HeldBy(s, e.id);
        }
    }
    LockAfter(s, Step(s, e), e.id);
  }

  /** A party in progress is the only one whose copies are open. */
  lemma HeldBy(s: State, id: nat)
    requires LockTells(s) && id in s.parties
    ensures Holds(s.world.holders, id, s.parties[id])
    ensures InProgress(s.parties[id]) ==> forall h :: h in s.world.holders ==> h.id == id
  {
    if InProgress(s.parties[id]) {
      assert ByRequest(id) in s.world.holders || ByWorker(id) in s.world.holders || ByCommand(id) in s.world.holders;
    }
  }

  lemma DecideStays(kind: Kind, live: bytes, input: Payload, l: Luck)
    ensures var r := Decide(kind, live, input, l);
      r.Refused? || (r.Decided? && (!r.changed ==> Cfg.SettingsFrom(live) == Some(r.settings)))
  {
    hide Cfg.SettingsFrom, CanServe, Wanted;
  }

  /** Only a party in progress changes the file, and no other one is then in progress. */
  lemma FileStep(s: State, e: Event, id: nat)
    requires LockTells(s) && Enabled(s, e) && id in Step(s, e).parties && InProgress(Step(s, e).parties[id])
    requires id in s.parties && InProgress(s.parties[id]) ==> FileAgrees(s.world.live, s.parties[id])
    ensures FileAgrees(Step(s, e).world.live, Step(s, e).parties[id])
  {
    hide Cfg.SettingsFrom, Cfg.FileOf, Cfg.Valid, Decide, Work;
    if e.RequestGoes? && s.parties[e.id].request.Opened? {
      DecideStays(s.parties[e.id].kind, s.world.live, s.parties[e.id].request.input, e.luck);
    }
    if e.id != id {
      assert InProgress(s.parties[id]);
      assert e.RequestGoes? ==> !RequestBusy(s.parties[e.id]);
    }
  }

  lemma RecordStep(s: State, e: Event)
    requires LockTells(s) && RecordTells(s) && Enabled(s, e)
    requires forall id :: id in s.parties && InProgress(s.parties[id]) ==> FileAgrees(s.world.live, s.parties[id])
    ensures RecordTells(Step(s, e))
  {
    hide Cfg.SettingsFrom, Cfg.FileOf, Cfg.Valid, Cfg.ReadSettings, Decide, Saves, LockTells, Work;
    assert e.id in s.parties && InProgress(s.parties[e.id]) ==> FileAgrees(s.world.live, s.parties[e.id]);
  }

  /** The lock keeps the parties that may write the record apart. */
  lemma OwnerStep(s: State, e: Event)
    requires LockTells(s) && RecordOwned(s) && Enabled(s, e)
    ensures RecordOwned(Step(s, e))
  {
    hide Cfg.SettingsFrom, Cfg.FileOf, Cfg.Valid, Cfg.ReadSettings, Decide, Saves, Work;
    var next := Step(s, e);
    if e.RequestGoes? && s.parties[e.id].request.Opened? {
      DecideStays(s.parties[e.id].kind, s.world.live, s.parties[e.id].request.input, e.luck);
    }
    forall id | id in next.parties && Records(next.parties[id])
      ensures next.world.record.Some? && next.world.record.value.id == id
    {
      if id in s.parties && InProgress(s.parties[id]) && e.id in s.parties && InProgress(s.parties[e.id]) {
        OnlyOneHolds(s, id, e.id);
      }
    }
  }

  lemma OnlyOneHolds(s: State, i: nat, j: nat)
    requires LockTells(s) && i in s.parties && j in s.parties && InProgress(s.parties[i]) && InProgress(s.parties[j])
    ensures i == j
  {
    assert ByRequest(i) in s.world.holders || ByWorker(i) in s.world.holders || ByCommand(i) in s.world.holders;
    assert ByRequest(j) in s.world.holders || ByWorker(j) in s.world.holders || ByCommand(j) in s.world.holders;
  }

  lemma StepKeepsInv(s: State, e: Event)
    requires Inv(s) && Enabled(s, e)
    ensures Inv(Step(s, e))
  {
    hide LockTells, FileAgrees, RecordTells, RecordOwned, RequestStep, WorkerStep, Step, Enabled;
    LockStep(s, e);
    RecordStep(s, e);
    OwnerStep(s, e);
    var next := Step(s, e);
    forall id | id in next.parties && InProgress(next.parties[id])
      ensures FileAgrees(next.world.live, next.parties[id])
    {
      FileStep(s, e, id);
    }
  }

  lemma {:induction false} RunKeepsInv(s: State, es: seq<Event>)
    requires Inv(s) && CanRun(s, es)
    ensures Inv(Run(s, es))
    decreases |es|
  {
    hide Inv;
    if es != [] {
      StepKeepsInv(s, es[0]);
      RunKeepsInv(Step(s, es[0]), es[1..]);
    }
  }

  lemma FreshRun(s: State, es: seq<Event>)
    requires Fresh(s) && CanRun(s, es)
    ensures Inv(Run(s, es))
  {
    RunKeepsInv(s, es);
  }

  // ----- over every interleaving --------------------------------------------------------------

  /** At most one action is in progress, from the opening of the lock to the end of its worker. */
  lemma OneActionAtATime(s: State, es: seq<Event>, i: nat, j: nat)
    requires Fresh(s) && CanRun(s, es)
    requires i in Run(s, es).parties && InProgress(Run(s, es).parties[i])
    requires j in Run(s, es).parties && InProgress(Run(s, es).parties[j])
    ensures i == j
  {
    FreshRun(s, es);
    hide Run, FileAgrees;
    var now := Run(s, es);
    OnlyOneHolds(now, i, j);
  }

  /** The lock is free exactly when no action is in progress: it is neither leaked nor let go before the worker ends. */
  lemma LockIsFreeIff(s: State, es: seq<Event>)
    requires Fresh(s) && CanRun(s, es)
    ensures Run(s, es).world.holders == {} <==>
            forall id :: id in Run(s, es).parties ==> !InProgress(Run(s, es).parties[id])
  {
    FreshRun(s, es);
    hide Run, FileAgrees, RecordTells;
    var now := Run(s, es);
    if now.world.holders != {} {
      var h :| h in now.world.holders;
      assert InProgress(now.parties[h.id]);
    }
  }

  /**
   * A worker about to read the settings reads what its request committed exactly when the file is within the read
   * limit.
   */
  lemma WorkerReadsCommittedIff(s: State, es: seq<Event>, id: nat, f: Fate)
    requires f.readable
    requires Fresh(s) && CanRun(s, es) && id in Run(s, es).parties && Run(s, es).parties[id].worker.Started?
    ensures var now := Run(s, es); var p := now.parties[id];
      && p.committed.Some?
      && (WorkerStep(now.world, id, p, f).1.worker == Loaded(p.committed.value)
          <==> |now.world.live| <= Cfg.MAX_FILE)
  {
    FreshRun(s, es);
    hide Run, Cfg.SettingsFrom, RecordTells;
    assert InProgress(Run(s, es).parties[id]);
  }

  /** A worker that applies anything applies the record its own request committed. */
  lemma WorkerAppliesCommitted(s: State, es: seq<Event>, id: nat)
    requires Fresh(s) && CanRun(s, es) && id in Run(s, es).parties && Run(s, es).parties[id].worker.Loaded?
    ensures Run(s, es).parties[id].committed == Some(Run(s, es).parties[id].worker.settings)
  {
    FreshRun(s, es);
    hide Run, Cfg.SettingsFrom, RecordTells;
    assert InProgress(Run(s, es).parties[id]);
  }

  lemma RequestMarker(w: World, id: nat, p: Party, l: Luck)
    ensures var after := RequestStep(w, id, p, l).0;
      after.marker != w.marker ==> p.request.Committed? && !p.request.settings.manageIP && after.live == w.live
  {
    hide Decide, Saves, Cfg.FileOf;
  }

  lemma WorkerKeepsMarker(w: World, id: nat, p: Party, f: Fate)
    ensures WorkerStep(w, id, p, f).0.marker == w.marker
  {
    hide Cfg.ReadSettings;
  }

  /** The ownership marker goes only once the file holds settings that do not manage the address. */
  lemma MarkerGoesAfterCommit(s: State, es: seq<Event>, e: Event)
    requires Fresh(s) && CanRun(s, es) && Enabled(Run(s, es), e)
    requires Run(s, es).world.marker && !Step(Run(s, es), e).world.marker
    ensures var now := Run(s, es);
      && Cfg.SettingsFrom(now.world.live).Some? && !Cfg.SettingsFrom(now.world.live).value.manageIP
      && Step(now, e).world.live == now.world.live
  {
    FreshRun(s, es);
    hide Run, LockTells, RecordTells, RequestStep, WorkerStep, Cfg.SettingsFrom;
    var now := Run(s, es);
    match e {
      case RequestGoes(id, l) => RequestMarker(now.world, id, now.parties[id], l);
      case WorkerGoes(id, f) => WorkerKeepsMarker(now.world, id, now.parties[id], f);
      case _ =>
    }
    assert InProgress(now.parties[e.id]);
  }

  lemma RequestWrites(w: World, id: nat, p: Party, l: Luck)
    ensures var after := RequestStep(w, id, p, l).0;
      || after.record == w.record
      || (p.request.Released? && after.record == Some(Record(id, p.kind, Queued)))
      || p.request.Recorded?
  {
    hide Decide, Saves, Cfg.FileOf;
  }

  lemma WorkerWrites(w: World, id: nat, p: Party, f: Fate)
    ensures WorkerStep(w, id, p, f).0.record == w.record || p.worker.Started? || p.worker.Loaded?
  {
    hide Work, Cfg.ReadSettings;
  }

  /**
   * Once the stored record says done or failed, it stays as it is until another action's queued record replaces
   * it.
   */
  lemma FinalRecordStays(s: State, es: seq<Event>, e: Event)
    requires Fresh(s) && CanRun(s, es) && Enabled(Run(s, es), e)
    requires Run(s, es).world.record.Some? && Final(Run(s, es).world.record.value.stage)
    ensures var r, next := Run(s, es).world.record.value, Step(Run(s, es), e).world.record;
      next == Some(r) || (next.Some? && next.value.stage.Queued? && next.value.id == e.id != r.id)
  {
    FreshRun(s, es);
    hide Run, LockTells, RequestStep, WorkerStep, Cfg.SettingsFrom;
    var now := Run(s, es);
    match e {
      case RequestGoes(id, l) => RequestWrites(now.world, id, now.parties[id], l);
      case WorkerGoes(id, f) => WorkerWrites(now.world, id, now.parties[id], f);
      case _ =>
    }
    assert e.id in now.parties && InProgress(now.parties[e.id]) ==> FileAgrees(now.world.live, now.parties[e.id]);
  }

  /**
   * Once the action of the stored record is over, the record says done or failed, unless a party to it died, its
   * log could not be opened, or the write of its final record failed.
   */
  lemma RecordIsSettled(s: State, es: seq<Event>)
    requires Fresh(s) && CanRun(s, es) && Run(s, es).world.record.Some?
    requires var now := Run(s, es); now.world.record.value.id in now.parties ==>
      var p := now.parties[now.world.record.value.id];
      !InProgress(p) && !p.end.died && !p.end.unlogged && !p.end.missed
    ensures Final(Run(s, es).world.record.value.stage)
  {
    FreshRun(s, es);
    hide Run, LockTells, FileAgrees;
  }

  /**
   * A record that says done goes back to its worker's own surroundings: there the commands on the committed settings
   * succeeded, and with the service enabled the last three polls saw one process that carries just those settings.
   */
  lemma DoneRecordSawCommitted(s: State, es: seq<Event>)
    requires Fresh(s) && CanRun(s, es) && Run(s, es).world.record.Some? && Run(s, es).world.record.value.stage.Done?
    ensures var now := Run(s, es); var r := now.world.record.value;
      && r.id in now.parties && now.parties[r.id].committed.Some? && now.parties[r.id].met.Some?
      && var p := now.parties[r.id]; var c := p.committed.value;
      && var did := Applied(p.kind, Some(c), p.met.value);
      && did[|did| - 1] == Store(Done)
      && Verbs(did) == Needed(p.kind, c.enabled)
      && (c.enabled ==> SawStable(did, c))
  {
    FreshRun(s, es);
    hide Run, LockTells, FileAgrees, Verbs, Needed, Applied, SawStable;
    var now := Run(s, es);
    var p := now.parties[now.world.record.value.id];
    SuccessIsDone(p.kind, p.committed, p.met.value);
    var c := p.committed.value;
    CommandsInOrder(p.kind, c, p.met.value);
    if c.enabled {
      DoneSawStable(p.kind, c, p.met.value);
    }
  }

  // ----- one request as one call ---------------------------------------------------------------

  function Rank(r: Request): nat {
    match r
    case Opened(_) => 7
    case Decided(_, _) => 6
    case Committed(_, _) => 5
    case Released(_) => 4
    case Recorded(_) => 3
    case Answered(_) => 2
    case Refused => 1
    case Gone => 0
  }

  /** The steps of a request with nobody in between. */
  function Settle(w: World, id: nat, p: Party, l: Luck): (World, Party)
    decreases Rank(p.request)
  {
    if p.request.Gone? then (w, p)
    else
      var (after, next) := RequestStep(w, id, p, l);
      if Rank(next.request) < Rank(p.request) then Settle(after, id, next, l) else (after, next)
  }

  lemma Onward(w: World, id: nat, p: Party, l: Luck)
    requires !p.request.Gone?
    ensures var (after, next) := RequestStep(w, id, p, l); Settle(w, id, p, l) == Settle(after, id, next, l)
  {
    hide Decide, CanServe, Saves, Cfg.FileOf, Cfg.ReadSettings;
    if p.request.Opened? {
      DecideStays(p.kind, w.live, p.request.input, l);
    }
  }

  class Desk {
    var live: bytes
    var marker: bool
    var record: Option<Record>
    var holders: set<Holder>

    constructor (live: bytes)
      ensures Now() == World(live, false, None, {})
    {
      this.live, marker, record, holders := live, false, None, {};
    }

    ghost function Now(): World
      reads this
    {
      World(live, marker, record, holders)
    }

    /** Replaces the file as `ConfigStore.WriteSettings` does. */
    method WriteSettings(c: Cfg.Settings, io: Cfg.Io) returns (ok: bool)
      modifies this`live
      ensures ok == Saves(c, io)
      ensures live == if ok then Cfg.FileOf(c) else old(live)
    {
      var store := new Cfg.ConfigStore(live);
      ok := store.WriteSettings(c, io);
      live := store.live;
    }

    /** Everything a request checks before it writes. */
    method Validate(kind: Kind, input: Payload, l: Luck) returns (r: Request)
      ensures r == Decide(kind, live, input, l)
      ensures r.Refused? || r.Decided?
    {
      hide Cfg.SettingsFrom, Cfg.Valid, CanServe;
      var was := if l.readable then Cfg.ReadSettings(live) else None;
      if was.None? {
        return Refused;
      }
      var c := was.value;
      match kind {
        case Save =>
          var parsed := ParsePayload(input);
          if parsed.None? {
            return Refused;
          }
          c := parsed.value;
        case Start => c := c.(enabled := true);
        case StopService => c := c.(enabled := false);
        case Restart =>
          if !c.enabled {
            return Refused;
          }
        case Unknown => return Refused;
      }
      if !CanServe(c, l) || !l.initScript {
        return Refused;
      }
      return Decided(c, c != was.value);
    }

    /** The record and the worker of a saved request. */
    method Launch(id: nat, ghost p: Party, kind: Kind, c: Cfg.Settings, l: Luck) returns (accepted: bool)
      requires p.kind == kind && p.request == Released(c) && p.worker.Absent? && holders == {ByRequest(id)}
      modifies this
      ensures live == old(live) && holders == if accepted then {ByWorker(id)} else {}
      ensures accepted ==> record == Some(Record(id, kind, Queued))
      ensures var (after, q) := Settle(old(Now()), id, p, l);
        after == Now() && q.worker == if accepted then Started else Absent
    {
      hide Settle, Decide, Saves;
      Onward(Now(), id, p, l);
      if !l.random || !l.store {
        Refuse(id, p.(request := Refused), l);
        return false;
      }
      record := Some(Record(id, kind, Queued));
      Onward(Now(), id, p.(request := Recorded(c)), l);
      if !l.log {
        Refuse(id, p.(request := Refused, end := p.end.(unlogged := true)), l);
        return false;
      }
      if !l.spawn {
        if l.note {
          record := Some(Record(id, kind, Failed));
        }
        ghost var q := Finished(Now(), id, p.(request := Refused), Failed, l.note).1;
        Refuse(id, q, l);
        return false;
      }
      holders := holders + {ByWorker(id)};
      Onward(Now(), id, p.(request := Answered(c), worker := Started), l);
      holders := holders - {ByRequest(id)};
      Closed(Now(), id, p.(request := Gone, worker := Started), l);
      return true;
    }

    /** Saves what was decided, releases the ownership marker after that, and launches the worker. */
    method CarryOut(id: nat, ghost p: Party, kind: Kind, c: Cfg.Settings, changed: bool, l: Luck)
        returns (accepted: bool)
      requires p.kind == kind && p.request == Decided(c, changed) && p.worker.Absent? && holders == {ByRequest(id)}
      requires !changed ==> Cfg.SettingsFrom(live) == Some(c)
      modifies this
      ensures holders == if accepted then {ByWorker(id)} else {}
      ensures accepted ==> record == Some(Record(id, kind, Queued)) && Cfg.SettingsFrom(live) == Some(c)
      ensures var (after, q) := Settle(old(Now()), id, p, l);
        after == Now() && q.worker == if accepted then Started else Absent
    {
      hide Settle, Decide, Saves, Cfg.SettingsFrom, Cfg.FileOf;
      Onward(Now(), id, p, l);
      if changed {
        SavedReads(c, l.io);
        var ok := WriteSettings(c, l.io);
        if !ok {
          Refuse(id, p.(request := Refused), l);
          return false;
        }
      }
      Onward(Now(), id, p.(request := Committed(c, changed)), l);
      if !c.manageIP && changed && l.remove {
        marker := false;
      }
      accepted := Launch(id, p.(request := Released(c)), kind, c, l);
    }

    /**
     * A request: refused at once while anyone holds the lock, and otherwise its steps from opening to closing.
     * An accepted request leaves the lock to its worker alone; a refused one leaves it to nobody.
     */
    method RequestAction(id: nat, kind: Kind, input: Payload, l: Luck) returns (accepted: bool)
      modifies this
      ensures old(holders) != {} ==> !accepted && Now() == old(Now())
      ensures old(holders) == {} ==>
        var w := old(Now()).(holders := {ByRequest(id)});
        var (after, p) := Settle(w, id, Arriving(kind, Opened(input)), l);
        Now() == after && accepted == p.worker.Started?
      ensures old(holders) == {} ==> holders == if accepted then {ByWorker(id)} else {}
      ensures accepted ==> record == Some(Record(id, kind, Queued)) && Cfg.SettingsFrom(live).Some?
      ensures accepted ==> (Cfg.ReadSettings(live).Some? <==> |live| <= Cfg.MAX_FILE)
    {
      hide Settle, Decide, Saves, Cfg.SettingsFrom, Cfg.FileOf;
      if holders != {} {
        return false;
      }
      holders := {ByRequest(id)};
      ghost var p := Arriving(kind, Opened(input));
      Onward(Now(), id, p, l);
      DecideStays(kind, live, input, l);
      var decision := Validate(kind, input, l);
      if decision.Refused? {
        Refuse(id, p.(request := Refused), l);
        return false;
      }
      p := p.(request := decision, committed := Some(decision.settings));
      accepted := CarryOut(id, p, kind, decision.settings, decision.changed, l);
      ReadsUpToLimit(live);
    }

    method Refuse(id: nat, ghost p: Party, l: Luck)
      requires p.request.Refused?
      modifies this`holders
      ensures holders == old(holders) - {ByRequest(id)}
      ensures Settle(old(Now()), id, p, l) == (Now(), p.(request := Gone))
    {
      Onward(Now(), id, p, l);
      holders := holders - {ByRequest(id)};
      Closed(Now(), id, p.(request := Gone), l);
    }
  }

  lemma ReadsUpToLimit(live: bytes)
    ensures Cfg.SettingsFrom(live).Some? ==> (Cfg.ReadSettings(live).Some? <==> |live| <= Cfg.MAX_FILE)
  {
    hide Cfg.SettingsFrom;
  }

  lemma Closed(w: World, id: nat, p: Party, l: Luck)
    requires p.request.Gone?
    ensures Settle(w, id, p, l) == (w, p)
  {}

  lemma SavedReads(c: Cfg.Settings, io: Cfg.Io)
    ensures Saves(c, io) ==> Cfg.Valid(c) && Cfg.SettingsFrom(Cfg.FileOf(c)) == Some(c)
  {}

  /**
   * A request with the lock is accepted exactly when it is decided, saved if it changes anything, recorded,
   * its log opens and its worker starts; then the file holds what was asked for. Refused before that,
   * it changes nothing.
   */
  lemma AcceptedIff(w: World, id: nat, kind: Kind, input: Payload, l: Luck)
    requires w.holders == {ByRequest(id)}
    ensures var (after, p) := Settle(w, id, Arriving(kind, Opened(input)), l);
      var decision := Decide(kind, w.live, input, l);
      var committed := decision.Decided? && (decision.changed ==> Saves(decision.settings, l.io));
      && (p.worker.Started? <==> committed && l.random && l.store && l.log && l.spawn)
      && (committed ==> Cfg.SettingsFrom(after.live) == Wanted(kind, Cfg.ReadSettings(w.live).value, input))
      && (!committed ==> after == w.(holders := {}))
  {
    hide Settle, Decide, Saves, Cfg.SettingsFrom, Cfg.FileOf, Cfg.ReadSettings, Cfg.Valid, Wanted;
    var p := Arriving(kind, Opened(input));
    Onward(w, id, p, l);
    DecideStays(kind, w.live, input, l);
    DecidedIsWanted(kind, w.live, input, l);
    var decision := Decide(kind, w.live, input, l);
    if decision.Refused? {
      RefusedEnds(w, id, p.(request := Refused), l);
    } else {
      AcceptedOnceDecided(w, id, p.(request := decision, committed := Some(decision.settings)), l);
    }
  }

  lemma DecidedIsWanted(kind: Kind, live: bytes, input: Payload, l: Luck)
    ensures var r := Decide(kind, live, input, l);
      r.Decided? ==>
        Cfg.ReadSettings(live).Some? && Wanted(kind, Cfg.ReadSettings(live).value, input) == Some(r.settings)
  {
    hide Cfg.ReadSettings, CanServe, Wanted;
  }

  lemma RefusedEnds(w: World, id: nat, p: Party, l: Luck)
    requires p.request.Refused?
    ensures Settle(w, id, p, l) == (w.(holders := w.holders - {ByRequest(id)}), p.(request := Gone))
  {
    Onward(w, id, p, l);
  }

  lemma AcceptedOnceDecided(w: World, id: nat, p: Party, l: Luck)
    requires w.holders == {ByRequest(id)} && p.request.Decided? && p.worker.Absent?
    requires !p.request.changed ==> Cfg.SettingsFrom(w.live) == Some(p.request.settings)
    ensures var (after, q) := Settle(w, id, p, l);
      var committed := p.request.changed ==> Saves(p.request.settings, l.io);
      && (q.worker.Started? <==> committed && l.random && l.store && l.log && l.spawn)
      && (committed ==> Cfg.SettingsFrom(after.live) == Some(p.request.settings))
      && (!committed ==> after == w.(holders := {}))
  {
    hide Settle, Saves, Cfg.SettingsFrom, Cfg.FileOf;
    var c, changed := p.request.settings, p.request.changed;
    SavedReads(c, l.io);
    Onward(w, id, p, l);
    if changed && !Saves(c, l.io) {
      RefusedEnds(w, id, p.(request := Refused), l);
    } else {
      var saved := if changed then w.(live := Cfg.FileOf(c)) else w;
      Onward(saved, id, p.(request := Committed(c, changed)), l);
      var released := if !c.manageIP && changed && l.remove then saved.(marker := false) else saved;
      LaunchedIff(released, id, p.(request := Released(c)), l);
    }
  }

  lemma LaunchedIff(w: World, id: nat, p: Party, l: Luck)
    requires w.holders == {ByRequest(id)} && p.request.Released? && p.worker.Absent?
    ensures var (after, q) := Settle(w, id, p, l);
      after.live == w.live && (q.worker.Started? <==> l.random && l.store && l.log && l.spawn)
  {
    hide Settle;
    var c := p.request.settings;
    Onward(w, id, p, l);
    if !l.random || !l.store {
      RefusedEnds(w, id, p.(request := Refused), l);
    } else {
      var recorded := w.(record := Some(Record(id, p.kind, Queued)));
      Onward(recorded, id, p.(request := Recorded(c)), l);
      if !l.log {
        RefusedEnds(recorded, id, p.(request := Refused, end := p.end.(unlogged := true)), l);
      } else if !l.spawn {
        var (noted, q) := Finished(recorded, id, p.(request := Refused), Failed, l.note);
        RefusedEnds(noted, id, q, l);
      } else {
        var both := recorded.(holders := w.holders + {ByWorker(id)});
        Onward(both, id, p.(request := Answered(c), worker := Started), l);
        Closed(both.(holders := both.holders - {ByRequest(id)}), id, p.(request := Gone, worker := Started), l);
      }
    }
  }

  // ----- what is granted ------------------------------------------------------------------------

  /**
   * What a request makes of the settings in force: a start only switches the service on, a stop only off, a restart
   * changes nothing and needs it on; a save replaces them by the posted record, valid and without repeated
   * networks. Nothing else is granted.
   */
  ghost predicate Grants(kind: Kind, was: Cfg.Settings, input: Payload, c: Cfg.Settings) {
    match kind
    case Start => c.enabled && c == was.(enabled := c.enabled)
    case StopService => !c.enabled && c == was.(enabled := c.enabled)
    case Restart => was.enabled && c == was
    case Save =>
      && |input.body| <= 16384 && input.decoded.Some? && Cfg.Valid(c)
      && c == input.decoded.value.(remoteInterfaces := c.remoteInterfaces)
      && exists at :: Cfg.FirstsAt(input.decoded.value.remoteInterfaces, c.remoteInterfaces, at)
    case Unknown => false
  }

  /** All a request for `c` needs from the stored file and the surroundings. */
  ghost predicate Succeeds(w: World, kind: Kind, input: Payload, l: Luck, c: Cfg.Settings) {
    && l.readable && |w.live| <= 65536 && Cfg.SettingsFrom(w.live).Some?
    && var was := Cfg.SettingsFrom(w.live).value;
    && Grants(kind, was, input, c)
    && (c.enabled ==>
          && l.interfaces.Some? && Resolve(c, l.interfaces.value).Some?
          && ChooseEngine(c.discoveryMode, Resolve(c, l.interfaces.value).value, l.avahi).Some?)
    && l.initScript
    && (c != was ==>
          && Cfg.Valid(c) && Cfg.SettingsFrom(Cfg.FileOf(c)) == Some(c)
          && l.io.readLive && l.io.stage && l.io.uciBatch && l.io.readStaged && l.io.writePrevious && l.io.writeLive)
    && l.random && l.store && l.log && l.spawn
  }

  lemma GrantsIff(kind: Kind, was: Cfg.Settings, input: Payload, c: Cfg.Settings)
    ensures Grants(kind, was, input, c) <==> Wanted(kind, was, input) == Some(c)
  {
    hide Cfg.Valid, Cfg.FirstsAt, Cfg.Distinct;
    if kind.Save? && input.decoded.Some? {
      var ns := input.decoded.value.remoteInterfaces;
      var at := Cfg.DistinctIsFirsts(ns);
      forall bt | Cfg.FirstsAt(ns, c.remoteInterfaces, bt)
        ensures c.remoteInterfaces == Cfg.Distinct(ns)
      {
        Cfg.FirstsAreDistinct(ns, c.remoteInterfaces, bt);
      }
    }
  }

  lemma SucceedsIff(w: World, kind: Kind, input: Payload, l: Luck, c: Cfg.Settings)
    ensures var decision := Decide(kind, w.live, input, l);
      Succeeds(w, kind, input, l, c) <==>
        && decision.Decided? && decision.settings == c && (decision.changed ==> Saves(c, l.io))
        && l.random && l.store && l.log && l.spawn
    ensures Succeeds(w, kind, input, l, c) ==>
              Decide(kind, w.live, input, l).changed == (Cfg.SettingsFrom(w.live) != Some(c))
  {
    hide Cfg.SettingsFrom, Cfg.FileOf, Cfg.Valid, Wanted, Grants, Resolve, ChooseEngine;
    var was := Cfg.SettingsFrom(w.live);
    if was.Some? {
      GrantsIff(kind, was.value, input, c);
    }
  }

  /**
   * A request with the lock is accepted exactly when it succeeds in all it needs for some record; then the file says
   * that record, the marker is gone if the record is new and leaves the address alone, the action is queued, and the
   * worker alone holds the lock.
   */
  lemma AcceptedExactly(w: World, id: nat, kind: Kind, input: Payload, l: Luck)
    requires w.holders == {ByRequest(id)}
    ensures var (after, p) := Settle(w, id, Arriving(kind, Opened(input)), l);
      && (p.worker.Started? <==> exists c :: Succeeds(w, kind, input, l, c))
      && (forall c :: Succeeds(w, kind, input, l, c) ==>
            && Cfg.SettingsFrom(after.live) == Some(c)
            && after.marker == (w.marker && (c.manageIP || Cfg.SettingsFrom(w.live) == Some(c) || !l.remove))
            && after.record == Some(Record(id, kind, Queued)) && after.holders == {ByWorker(id)})
  {
    hide Settle, Cfg.SettingsFrom, Cfg.FileOf, Cfg.Valid, Decide, Succeeds, Saves;
    AcceptedIff(w, id, kind, input, l);
    if Decide(kind, w.live, input, l).Decided? {
      SucceedsIff(w, kind, input, l, Decide(kind, w.live, input, l).settings);
    }
    forall c
      ensures var decision := Decide(kind, w.live, input, l);
        Succeeds(w, kind, input, l, c) <==>
          && decision.Decided? && decision.settings == c && (decision.changed ==> Saves(c, l.io))
          && l.random && l.store && l.log && l.spawn
      ensures Succeeds(w, kind, input, l, c) ==>
                && Cfg.SettingsFrom(Settle(w, id, Arriving(kind, Opened(input)), l).0.live) == Some(c)
                && Leaves(w, id, kind, input, l, c)
    {
      SucceedsIff(w, kind, input, l, c);
      if Succeeds(w, kind, input, l, c) {
        DecidedIsWanted(kind, w.live, input, l);
        SucceededLeaves(w, id, kind, input, l, c);
      }
    }
  }

  ghost predicate Leaves(w: World, id: nat, kind: Kind, input: Payload, l: Luck, c: Cfg.Settings) {
    var after := Settle(w, id, Arriving(kind, Opened(input)), l).0;
    && after.marker == (w.marker && (c.manageIP || Cfg.SettingsFrom(w.live) == Some(c) || !l.remove))
    && after.record == Some(Record(id, kind, Queued)) && after.holders == {ByWorker(id)}
  }

  lemma SucceededLeaves(w: World, id: nat, kind: Kind, input: Payload, l: Luck, c: Cfg.Settings)
    requires w.holders == {ByRequest(id)} && Succeeds(w, kind, input, l, c)
    ensures Leaves(w, id, kind, input, l, c)
  {
    hide Settle, Cfg.SettingsFrom, Cfg.FileOf, Cfg.Valid, Decide, Succeeds, Saves;
    SucceedsIff(w, kind, input, l, c);
    var p := Arriving(kind, Opened(input));
    Onward(w, id, p, l);
    var changed := Decide(kind, w.live, input, l).changed;
    p := p.(request := Decided(c, changed), committed := Some(c));
    Onward(w, id, p, l);
    SavedReads(c, l.io);
    var saved := if changed then w.(live := Cfg.FileOf(c)) else w;
    p := p.(request := Committed(c, changed));
    Onward(saved, id, p, l);
    var released := if !c.manageIP && changed && l.remove then saved.(marker := false) else saved;
    p := p.(request := Released(c));
    Onward(released, id, p, l);
    var recorded := released.(record := Some(Record(id, kind, Queued)));
    p := p.(request := Recorded(c));
    Onward(recorded, id, p, l);
    var both := recorded.(holders := {ByRequest(id), ByWorker(id)});
    assert recorded.holders + {ByWorker(id)} == both.holders;
    p := p.(request := Answered(c), worker := Started);
    Onward(both, id, p, l);
    assert both.holders - {ByRequest(id)} == {ByWorker(id)};
    Closed(both.(holders := {ByWorker(id)}), id, p.(request := Gone), l);
  }

  /**
   * What a worker leaves in the record, if it can write it: applying once it has read the settings,
       failed if it cannot;
   * then done exactly when every command it needs succeeds, the old daemon goes in time and, with the service
   * enabled, the new one is stable in time, and failed otherwise.
   */
  lemma WorkerRecords(w: World, id: nat, p: Party, f: Fate)
    ensures var (after, next) := WorkerStep(w, id, p, f);
      && after.live == w.live
      && (p.worker.Started? ==>
            var loads := f.readable && |w.live| <= 65536 && Cfg.SettingsFrom(w.live).Some?;
            && next.worker == (if loads then Loaded(Cfg.SettingsFrom(w.live).value) else Ended)
            && after.record == if !f.written then w.record
                               else Some(Record(id, p.kind, if loads then Applying else Failed)))
      && (p.worker.Loaded? ==>
            var done := WorkSucceeds(p.kind, p.worker.settings, f.service);
            && next.worker == Ended
            && after.record == if !f.written then w.record
                               else Some(Record(id, p.kind, if done then Done else Failed)))
  {
    hide Cfg.SettingsFrom, Work;
    if p.worker.Loaded? {
      var c := Some(p.worker.settings);
      DoneIff(p.kind, c, f.service);
      if Work(p.kind, c, f.service).1 {
        SuccessIsDone(p.kind, c, f.service);
      }
    }
  }

  ghost predicate WorkSucceeds(kind: Kind, c: Cfg.Settings, e: Surroundings) {
    && (kind != Start ==> e.command(StopIt) && exists m: nat :: GoneAt(e, m))
    && (c.enabled ==> e.command(EnableIt) && e.command(StartIt) && exists m: nat :: StableAt(e, c, m))
    && (!c.enabled ==> e.command(DisableIt))
  }

  /** A request whose worker cannot be started leaves its record failed, if it can still write it, and its settings. */
  lemma UnstartedIsFailed(w: World, id: nat, p: Party, l: Luck)
    requires p.request.Recorded? && l.log && !l.spawn
    ensures var (after, next) := RequestStep(w, id, p, l);
      && next.request.Refused? && after.live == w.live
      && after.record == if l.note then Some(Record(id, p.kind, Failed)) else w.record
  {}
}
