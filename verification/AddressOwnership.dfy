/**
 * Who may remove the RayNet address. The daemon may add an address of its own and remembers that in a
 * marker file; a settings request that switches to observe-only gives the marker up. Daemon, request and
 * the rest of the router run interleaved, so every file access and every `ip` command is a step of its own.
 */
module AddressOwnership {
  import opened Bytes

  datatype Address = Address(iface: bytes, ip: u32, prefix: nat)

  datatype Owner = Package | Other

  /** A removal by the package: whose address it was, and whether its marker had been given up. */
  datatype Deletion = Deletion(address: Address, owner: Owner, givenUp: bool)

  /**
   * The shared files and tables. `gaveUp` holds the addresses whose marker was given up and which the
   * package has neither added nor marked since; `deletions` is the history of its own removals.
   */
  datatype World = World(table: map<Address, Owner>, marker: Option<Address>, gaveUp: set<Address>,
           deletions: seq<Deletion>)

  datatype Config = Config(manage: bool, remove: bool, rest: bytes)

  datatype Plan = Plan(manage: bool, remove: bool, target: Address)

  /** How an `ip` command ends. A command that runs out of time may still have taken effect. */
  datatype Outcome = Done | Refused | DoneTooLate

  /** What the surroundings decide during one daemon step. */
  datatype Luck = Luck(del: Outcome, found: bool, add: Outcome, write: bool, undo: Outcome)

  const SUCCESS := Luck(Done, true, Done, true, Done)
  const NO_WRITE := SUCCESS.(write := false)

  // ----- single accesses --------------------------------------------------------------------

  function Del(w: World, a: Address, o: Outcome): World {
    if a in w.table && !o.Refused? then
      w.(table := w.table - {a}, deletions := w.deletions + [Deletion(a, w.table[a], a in w.gaveUp)])
    else w
  }

  predicate DelOk(w: World, a: Address, o: Outcome) {
    a in w.table && o.Done?
  }

  function Add(w: World, a: Address, o: Outcome): World {
    if a !in w.table && !o.Refused? then w.(table := w.table[a := Package], gaveUp := w.gaveUp - {a}) else w
  }

  predicate AddOk(w: World, a: Address, o: Outcome) {
    a !in w.table && o.Done?
  }

  function Mark(w: World, a: Address): World {
    w.(marker := Some(a), gaveUp := w.gaveUp - {a})
  }

  function Unmark(w: World): World {
    w.(marker := None)
  }

  /** Removing the marker while the address stays. */
  function GiveUp(w: World): World {
    w.(marker := None, gaveUp := w.gaveUp + if w.marker.Some? then {w.marker.value} else {})
  }

  predicate HasIP(table: map<Address, Owner>, t: Address) {
    exists a :: a in table.Keys && a.iface == t.iface && a.ip == t.ip
  }

  // ----- the steps --------------------------------------------------------------------------

  /** Where the one running daemon stands; `seen` is the marker as the daemon found it at its last look or its add. */
  datatype Daemon =
    | Off
    | Resolved(plan: Plan)
    | Read(plan: Plan, seen: Option<Address>)
    | Deleted(plan: Plan)
    | Checking(plan: Plan, owned: Option<Address>)
    | Adding(plan: Plan)
    | Added(plan: Plan, seen: Option<Address>)
    | Undoing(plan: Plan, seen: Option<Address>)
    | Running(plan: Plan, owned: Option<Address>)
    | Stopping(plan: Plan, owned: Option<Address>)
    | Verified(address: Address)
    | Cleaned

  /** `releasing`: a request has committed observe-only settings and has yet to remove the marker. */
  datatype State = State(world: World, config: Config, releasing: bool, daemon: Daemon)

  datatype Event =
    | Begin(target: Address)
    | Go(luck: Luck)
    | Stop
    | Crash
    | Commit(config: Config)
    | Release
    | RequestDies
    | OtherAdds(address: Address)
    | OtherRemoves(address: Address)

  /** The daemon's next step. */
  function Advance(w: World, d: Daemon, l: Luck): (World, Daemon) {
    match d
    case Off => (w, d)
    case Running(_, _) => (w, d)
    case Resolved(p) => (w, Read(p, w.marker))
    case Read(p, seen) =>
      if !p.manage then (GiveUp(w), Running(p, None))
      else if seen.Some? && seen.value != p.target then
        (Del(w, seen.value, l.del), if DelOk(w, seen.value, l.del) then Deleted(p) else Off)
      else (w, Checking(p, seen))
    case Deleted(p) => (Unmark(w), Checking(p, None))
    case Checking(p, owned) =>
      (w, if !l.found then Off else if HasIP(w.table, p.target) then Running(p, owned) else Adding(p))
    case Adding(p) => (Add(w, p.target, l.add), if AddOk(w, p.target, l.add) then Added(p, w.marker) else Off)
    case Added(p, seen) =>
      if l.write then (Mark(w, p.target), Running(p, Some(p.target))) else (w, Undoing(p, seen))
    case Undoing(p, _) => (Del(w, p.target, l.undo), Off)
    case Stopping(p, owned) =>
      (w, if p.remove && owned == Some(p.target) && w.marker == owned then Verified(p.target) else Off)
    case Verified(a) => (Del(w, a, l.del), if DelOk(w, a, l.del) then Cleaned else Off)
    case Cleaned => (Unmark(w), Off)
  }

  predicate InFlight(d: Daemon, a: Address) {
    (d.Added? || d.Undoing?) && d.plan.target == a
  }

  /**
   * One daemon at a time and one request at a time, by their locks. No crash falls between a removal and
   * that of its marker, and nobody else adds an address that is marked or that the daemon has just added.
   */
  predicate Enabled(s: State, e: Event) {
    match e
    case Begin(_) => s.daemon.Off?
    case Go(_) => !s.daemon.Off? && !s.daemon.Running?
    case Stop => s.daemon.Running?
    case Crash => !s.daemon.Deleted? && !s.daemon.Cleaned?
    case Commit(_) => !s.releasing
    case Release => s.releasing
    case RequestDies => s.releasing
    case OtherAdds(a) => a !in s.world.table && s.world.marker != Some(a) && !InFlight(s.daemon, a)
    case OtherRemoves(a) => a in s.world.table
  }

  function Step(s: State, e: Event): State
    requires Enabled(s, e)
  {
    match e
    case Begin(t) => s.(daemon := Resolved(Plan(s.config.manage, s.config.remove, t)))
    case Go(l) => var (w, d) := Advance(s.world, s.daemon, l); s.(world := w, daemon := d)
    case Stop => s.(daemon := Stopping(s.daemon.plan, s.daemon.owned))
    case Crash => s.(daemon := Off)
    case Commit(c) => s.(config := c, releasing := !c.manage && c != s.config)
    case Release => s.(world := GiveUp(s.world), releasing := false)
    case RequestDies => s.(releasing := false)
    case OtherAdds(a) => s.(world := s.world.(table := s.world.table[a := Other]))
    case OtherRemoves(a) => s.(world := s.world.(table := s.world.table - {a}))
  }

  /** At boot nothing is marked and no address is the package's. */
  predicate Boot(s: State) {
    && s.daemon.Off? && !s.releasing
    && s.world.marker.None? && s.world.gaveUp == {} && s.world.deletions == []
    && forall a :: a in s.world.table ==> s.world.table[a].Other?
  }

  predicate CanRun(s: State, es: seq<Event>)
    decreases |es|
  {
    es == [] || (Enabled(s, es[0]) && CanRun(Step(s, es[0]), es[1..]))
  }

  function Run(s: State, es: seq<Event>): State
    requires CanRun(s, es)
    decreases |es|
  {
    if es == [] then s else Run(Step(s, es[0]), es[1..])
  }

  lemma Prepend(s: State, e: Event, es: seq<Event>)
    requires Enabled(s, e) && CanRun(Step(s, e), es)
    ensures CanRun(s, [e] + es) && Run(s, [e] + es) == Run(Step(s, e), es)
  {
    assert ([e] + es)[1..] == es;
  }

  // ----- what every step keeps --------------------------------------------------------------

  ghost predicate StillMarkedOrGivenUp(w: World, a: Address) {
    w.marker == Some(a) || (w.marker.None? && a in w.gaveUp)
  }

  ghost predicate MarkerIsOurs(w: World) {
    w.marker.Some? ==>
      w.marker.value !in w.gaveUp && (w.marker.value in w.table ==> w.table[w.marker.value].Package?)
  }

  ghost predicate Position(w: World, d: Daemon) {
    match d
    case Read(_, seen) => if seen.Some? then StillMarkedOrGivenUp(w, seen.value) else w.marker.None?
    case Checking(p, _) => w.marker.None? || w.marker == Some(p.target)
    case Adding(p) => w.marker.None? || w.marker == Some(p.target)
    case Added(p, seen) => Claimed(w, p.target, seen)
    case Undoing(p, seen) => Claimed(w, p.target, seen)
    case Verified(a) => StillMarkedOrGivenUp(w, a)
    case _ => true
  }

  /** The target was added by this daemon when the marker read `seen`. */
  ghost predicate Claimed(w: World, t: Address, seen: Option<Address>) {
    && (t in w.table ==> w.table[t].Package?)
    && (seen.None? || seen == Some(t))
    && ((w.marker == seen && t !in w.gaveUp) || (w.marker.None? && seen == Some(t) && t in w.gaveUp))
  }

  ghost predicate Inv(s: State) {
    MarkerIsOurs(s.world) && Position(s.world, s.daemon) && (s.releasing ==> !s.config.manage)
  }

  lemma StepKeepsInv(s: State, e: Event)
    requires Inv(s) && Enabled(s, e)
    ensures Inv(Step(s, e))
  {}

  lemma {:induction false} RunKeepsInv(s: State, es: seq<Event>)
    requires Inv(s) && CanRun(s, es)
    ensures Inv(Run(s, es))
    decreases |es|
  {
    if es != [] {
      StepKeepsInv(s, es[0]);
      RunKeepsInv(Step(s, es[0]), es[1..]);
    }
  }

  // ----- which removals are right -----------------------------------------------------------

  /** The marker as the daemon takes it to be. */
  function Expected(d: Daemon): Option<Address> {
    match d
    case Read(_, seen) => seen
    case Added(_, seen) => seen
    case Undoing(_, seen) => seen
    case Verified(a) => Some(a)
    case _ => None
  }

  predicate Rightful(d: Deletion) {
    d.owner.Package? && !d.givenUp
  }

  ghost predicate Appends(before: World, after: World, d: Deletion) {
    after.deletions == before.deletions + [d]
  }

  /**
   * In every reachable state, an address the next step removes is one that the package added and has not
   * given up exactly when the marker file still reads as the daemon last saw it.
   */
  lemma RemovalIsRightfulIff(boot: State, es: seq<Event>, e: Event, d: Deletion)
    requires Boot(boot) && CanRun(boot, es) && Enabled(Run(boot, es), e)
    requires Appends(Run(boot, es).world, Step(Run(boot, es), e).world, d)
    ensures var s := Run(boot, es); Rightful(d) <==> s.world.marker == Expected(s.daemon)
  {
    RunKeepsInv(boot, es);
    var s := Run(boot, es);
    assert Step(s, e).world.deletions[|s.world.deletions|] == d;
  }

  /** The whole run of a list of events, one by one, from the states it passes through. */
  lemma {:induction false} RunThrough(ss: seq<State>, es: seq<Event>)
    requires |ss| == |es| + 1
    requires forall i :: 0 <= i < |es| ==> Enabled(ss[i], es[i]) && Step(ss[i], es[i]) == ss[i + 1]
    ensures CanRun(ss[0], es) && Run(ss[0], es) == ss[|es|]
    decreases |es|
  {
    if es != [] {
      RunThrough(ss[1..], es[1..]);
    }
  }

  /** A start that adds and marks `a`, and a crash that leaves both. */
  function LeftBehind(a: Address): (seq<State>, seq<Event>) {
    var p, config, empty := Plan(true, false, a), Config(true, false, []), World(map[], None, {}, []);
    var present := empty.(table := map[a := Package]);
    var marked := present.(marker := Some(a));
    ([State(empty, config, false, Off),
      State(empty, config, false, Resolved(p)),
      State(empty, config, false, Read(p, None)),
      State(empty, config, false, Checking(p, None)),
      State(empty, config, false, Adding(p)),
      State(present, config, false, Added(p, None)),
      State(marked, config, false, Running(p, Some(a))),
      State(marked, config, false, Off)],
     [Begin(a), Go(SUCCESS), Go(SUCCESS), Go(SUCCESS), Go(SUCCESS), Go(SUCCESS), Crash])
  }

  /** The next start, for `b`: it has read the marker when a request gives it up and `a` changes hands. */
  function Overtaken(a: Address, b: Address): (seq<State>, seq<Event>) {
    var q, before, after := Plan(true, false, b), Config(true, false, []), Config(false, false, []);
    var marked := World(map[a := Package], Some(a), {}, []);
    var given := marked.(marker := None, gaveUp := {a});
    ([State(marked, before, false, Resolved(q)),
      State(marked, before, false, Read(q, Some(a))),
      State(marked, after, true, Read(q, Some(a))),
      State(given, after, false, Read(q, Some(a))),
      State(given.(table := map[]), after, false, Read(q, Some(a))),
      State(given.(table := map[a := Other]), after, false, Read(q, Some(a))),
      State(given.(table := map[], deletions := [Deletion(a, Other, true)]), after, false, Deleted(q))],
     [Begin(b), Go(SUCCESS), Commit(after), Release, OtherRemoves(a), OtherAdds(a), Go(SUCCESS)])
  }

  /** Such a removal can hit an address that is somebody else's by then. */
  lemma StartCanRemoveAnothers(a: Address, b: Address)
    requires a != b
    ensures exists boot, es ::
              Boot(boot) && CanRun(boot, es) && Deletion(a, Other, true) in Run(boot, es).world.deletions
  {
    hide Run, CanRun;
    var (first, es) := LeftBehind(a);
    var (second, more) := Overtaken(a, b);
    var ss := first + second;
    forall i | 0 <= i < 14
      ensures Enabled(ss[i], (es + more)[i]) && Step(ss[i], (es + more)[i]) == ss[i + 1]
    {
      if i < 7 {
        assert ss[i] == first[i];
      } else {
        assert i > 7 ==> ss[i] == second[i - 8];
      }
    }
    RunThrough(ss, es + more);
    assert ss[14].world.deletions[0] == Deletion(a, Other, true);
  }

  /** The daemon has looked at the marker, or added its address, and a removal may still rely on that. */
  predicate Relying(d: Daemon) {
    d.Read? || d.Verified? || d.Added? || d.Undoing?
  }

  /** No request gives the marker up between a daemon's look at it and the removal that relies on that look. */
  predicate Undisturbed(s: State, e: Event) {
    e.Release? ==> s.world.marker.None? || !Relying(s.daemon)
  }

  predicate UndisturbedRun(s: State, es: seq<Event>)
    requires CanRun(s, es)
    decreases |es|
  {
    es == [] || (Undisturbed(s, es[0]) && UndisturbedRun(Step(s, es[0]), es[1..]))
  }

  ghost predicate Trusting(s: State) {
    && Inv(s)
    && (Relying(s.daemon) ==> s.world.marker == Expected(s.daemon))
    && (forall d :: d in s.world.deletions ==> Rightful(d))
  }

  lemma StepKeepsTrust(s: State, e: Event)
    requires Trusting(s) && Enabled(s, e) && Undisturbed(s, e)
    ensures Trusting(Step(s, e))
  {
    StepKeepsInv(s, e);
  }

  lemma {:induction false} RunKeepsTrust(s: State, es: seq<Event>)
    requires Trusting(s) && CanRun(s, es) && UndisturbedRun(s, es)
    ensures Trusting(Run(s, es))
    decreases |es|
  {
    if es != [] {
      StepKeepsTrust(s, es[0]);
      RunKeepsTrust(Step(s, es[0]), es[1..]);
    }
  }

  /** Over every undisturbed run, the package only ever removes addresses it added itself and has not given up. */
  lemma OnlyOwnAddressesRemoved(boot: State, es: seq<Event>)
    requires Boot(boot) && CanRun(boot, es) && UndisturbedRun(boot, es)
    ensures forall d :: d in Run(boot, es).world.deletions ==> d.owner.Package? && !d.givenUp
  {
    RunKeepsTrust(boot, es);
  }

  /** An address someone else added stays theirs until someone else removes it. */
  lemma OthersKeepTheirs(boot: State, es: seq<Event>, e: Event, a: Address)
    requires Boot(boot) && CanRun(boot, es) && UndisturbedRun(boot, es) && Enabled(Run(boot, es), e)
    requires a in Run(boot, es).world.table && Run(boot, es).world.table[a].Other? && e != OtherRemoves(a)
    ensures var t := Step(Run(boot, es), e).world.table; a in t && t[a].Other?
  {
    RunKeepsTrust(boot, es);
  }

  // ----- when switching to observe-only protects the addresses --------------------------------

  predicate Observing(es: seq<Event>) {
    forall e :: e in es ==> e.Commit? ==> !e.config.manage
  }

  ghost predicate MayRemove(s: State) {
    exists es :: CanRun(s, es) && Observing(es) && |Run(s, es).world.deletions| > |s.world.deletions|
  }

  /** Daemon positions from which a removal can still follow although the marker is gone. */
  predicate Armed(w: World, d: Daemon) {
    match d
    case Resolved(p) => p.manage
    case Read(p, _) => p.manage
    case Deleted(_) => true
    case Checking(_, _) => true
    case Adding(_) => true
    case Added(p, _) => p.remove || p.target in w.table
    case Undoing(p, _) => p.target in w.table
    case Verified(_) => true
    case _ => false
  }

  ghost predicate Disarmed(s: State) {
    && !s.config.manage && !Armed(s.world, s.daemon)
    && (s.daemon.Running? || s.daemon.Stopping? ==> s.daemon.plan.remove ==> s.world.marker.None?)
  }

  lemma {:induction false} DisarmedRun(s: State, es: seq<Event>)
    requires Disarmed(s) && CanRun(s, es) && Observing(es)
    ensures Run(s, es).world.deletions == s.world.deletions
    decreases |es|
  {
    if es != [] {
      assert es[0] in es;
      assert Disarmed(Step(s, es[0]));
      assert Observing(es[1..]) by { assert forall e :: e in es[1..] ==> e in es; }
      DisarmedRun(Step(s, es[0]), es[1..]);
    }
  }

  lemma ByStep(s: State, e: Event)
    requires Enabled(s, e) && (e.Commit? ==> !e.config.manage)
    requires MayRemove(Step(s, e)) || |Step(s, e).world.deletions| > |s.world.deletions|
    ensures MayRemove(s)
  {
    var next := Step(s, e);
    var es: seq<Event> := [];
    if MayRemove(next) {
      es :| CanRun(next, es) && Observing(es) && |Run(next, es).world.deletions| > |next.world.deletions|;
    }
    Prepend(s, e, es);
    assert Observing([e] + es);
  }

  lemma {:induction false} AddingMayRemove(s: State)
    requires s.daemon.Adding?
    ensures MayRemove(s)
    decreases s.daemon.plan.target in s.world.table
  {
    var t := s.daemon.plan.target;
    if t in s.world.table {
      AddingMayRemove(Step(s, OtherRemoves(t)));
      ByStep(s, OtherRemoves(t));
    } else {
      var added := Step(s, Go(SUCCESS));
      var undoing := Step(added, Go(NO_WRITE));
      ByStep(undoing, Go(SUCCESS));
      ByStep(added, Go(NO_WRITE));
      ByStep(s, Go(SUCCESS));
    }
  }

  lemma {:induction false} CheckingMayRemove(s: State)
    requires s.daemon.Checking?
    ensures MayRemove(s)
    decreases |s.world.table|
  {
    if HasIP(s.world.table, s.daemon.plan.target) {
      var a :| a in s.world.table;
      assert (s.world.table - {a}).Keys == s.world.table.Keys - {a};
      CheckingMayRemove(Step(s, OtherRemoves(a)));
      ByStep(s, OtherRemoves(a));
    } else {
      AddingMayRemove(Step(s, Go(SUCCESS)));
      ByStep(s, Go(SUCCESS));
    }
  }

  lemma ReadMayRemove(s: State)
    requires s.daemon.Read? && s.daemon.plan.manage && s.world.marker.None?
    ensures MayRemove(s)
  {
    var p, seen := s.daemon.plan, s.daemon.seen;
    if seen.None? || seen.value == p.target {
      CheckingMayRemove(Step(s, Go(SUCCESS)));
      ByStep(s, Go(SUCCESS));
    } else if seen.value in s.world.table {
      ByStep(s, Go(SUCCESS));
    } else {
      ByStep(Step(s, OtherAdds(seen.value)), Go(SUCCESS));
      ByStep(s, OtherAdds(seen.value));
    }
  }

  lemma VerifiedMayRemove(s: State)
    requires s.daemon.Verified? && s.world.marker.None?
    ensures MayRemove(s)
  {
    var a := s.daemon.address;
    if a in s.world.table {
      ByStep(s, Go(SUCCESS));
    } else {
      ByStep(Step(s, OtherAdds(a)), Go(SUCCESS));
      ByStep(s, OtherAdds(a));
    }
  }

  /** The marker is written after it was given up; a second release then finds the cleanup half done. */
  lemma AddedMayRemove(s: State)
    requires s.daemon.Added? && s.daemon.plan.remove && !s.config.manage
    ensures MayRemove(s)
  {
    var running := Step(s, Go(SUCCESS));
    var stopping := Step(running, Stop);
    var verified := Step(stopping, Go(SUCCESS));
    var again := Commit(s.config.(rest := s.config.rest + [0]));
    var releasing := if s.releasing then verified else Step(verified, again);
    assert releasing.releasing;
    VerifiedMayRemove(Step(releasing, Release));
    ByStep(releasing, Release);
    if !s.releasing {
      ByStep(verified, again);
    }
    ByStep(stopping, Go(SUCCESS));
    ByStep(running, Stop);
    ByStep(s, Go(SUCCESS));
  }

  lemma ArmedMayRemove(s: State)
    requires !s.config.manage && s.world.marker.None? && Armed(s.world, s.daemon)
    ensures MayRemove(s)
  {
    match s.daemon
    case Resolved(p) =>
      ReadMayRemove(Step(s, Go(SUCCESS)));
      ByStep(s, Go(SUCCESS));
    case Read(_, _) => ReadMayRemove(s);
    case Deleted(_) =>
      CheckingMayRemove(Step(s, Go(SUCCESS)));
      ByStep(s, Go(SUCCESS));
    case Checking(_, _) => CheckingMayRemove(s);
    case Adding(_) => AddingMayRemove(s);
    case Added(p, _) =>
      if p.remove {
        AddedMayRemove(s);
      } else {
        ByStep(Step(s, Go(NO_WRITE)), Go(SUCCESS));
        ByStep(s, Go(NO_WRITE));
      }
    case Undoing(_, _) => ByStep(s, Go(SUCCESS));
    case Verified(_) => VerifiedMayRemove(s);
    case _ =>
  }

  /**
   * After a switch to observe-only has removed the marker, the package can still remove an address before
   * managing is switched on again exactly when the daemon was caught between its reading of the marker and
   * the end of its start or of its cleanup. A daemon that is running, stopping or off removes nothing.
   */
  lemma ReleaseProtectsIff(boot: State, es: seq<Event>)
    requires Boot(boot) && CanRun(boot, es) && Run(boot, es).releasing
    ensures var after := Step(Run(boot, es), Release); MayRemove(after) <==> Armed(after.world, after.daemon)
  {
    RunKeepsInv(boot, es);
    var after := Step(Run(boot, es), Release);
    if Armed(after.world, after.daemon) {
      ArmedMayRemove(after);
    } else {
      forall more | CanRun(after, more) && Observing(more)
        ensures Run(after, more).world.deletions == after.world.deletions
      {
        DisarmedRun(after, more);
      }
    }
  }

  // ----- the daemon undisturbed: its start and its cleanup as one call each --------------------

  function Rank(d: Daemon): nat {
    match d
    case Resolved(_) => 8
    case Read(_, _) => 7
    case Deleted(_) => 6
    case Checking(_, _) => 5
    case Adding(_) => 4
    case Added(_, _) => 3
    case Undoing(_, _) => 2
    case Stopping(_, _) => 3
    case Verified(_) => 2
    case Cleaned => 1
    case _ => 0
  }

  /** The daemon's steps with nobody in between, until it runs or has ended. */
  function Settle(w: World, d: Daemon, l: Luck): (World, Daemon)
    decreases Rank(d)
  {
    if Rank(d) == 0 then (w, d)
    else var (next, after) := Advance(w, d, l); Settle(next, after, l)
  }

  lemma Onward(w: World, d: Daemon, l: Luck)
    requires Rank(d) > 0
    ensures var (next, after) := Advance(w, d, l); Settle(w, d, l) == Settle(next, after, l)
  {}

  lemma Ended(w: World, d: Daemon, l: Luck)
    requires Rank(d) == 0
    ensures Settle(w, d, l) == (w, d)
  {}

  class Router {
    var table: map<Address, Owner>
    var marker: Option<Address>
    ghost var gaveUp: set<Address>
    ghost var deletions: seq<Deletion>

    constructor (table: map<Address, Owner>)
      ensures Now() == World(table, None, {}, [])
    {
      this.table, marker, gaveUp, deletions := table, None, {}, [];
    }

    ghost function Now(): World
      reads this
    {
      World(table, marker, gaveUp, deletions)
    }

    /** `ip addr del`. */
    method AddrDel(a: Address, o: Outcome) returns (ok: bool)
      modifies this
      ensures Now() == Del(old(Now()), a, o) && ok == DelOk(old(Now()), a, o)
    {
      ok := a in table && o.Done?;
      if a in table && !o.Refused? {
        deletions := deletions + [Deletion(a, table[a], a in gaveUp)];
        table := table - {a};
      }
    }

    /** `ip addr add`. */
    method AddrAdd(a: Address, o: Outcome) returns (ok: bool)
      modifies this
      ensures Now() == Add(old(Now()), a, o) && ok == AddOk(old(Now()), a, o)
    {
      ok := a !in table && o.Done?;
      if a !in table && !o.Refused? {
        table := table[a := Package];
        gaveUp := gaveUp - {a};
      }
    }

    /** Makes the RayNet address available; the result is the ownership that the cleanup captures, or a failure. */
    method PrepareAddress(p: Plan, l: Luck) returns (captured: Option<Option<Address>>)
      modifies this
      ensures (Now(), if captured.Some? then Running(p, captured.value) else Off) == Settle(old(Now()), Resolved(p), l)
    {
      hide Settle, HasIP;
      ghost var w0 := Now();
      var owned := marker;
      Onward(w0, Resolved(p), l);
      Onward(w0, Read(p, owned), l);
      if !p.manage {
        gaveUp := gaveUp + if marker.Some? then {marker.value} else {};
        marker := None;
        Ended(Now(), Running(p, None), l);
        return Some(None);
      }
      if owned.Some? && owned.value != p.target {
        var ok := AddrDel(owned.value, l.del);
        Ended(Now(), Off, l);
        if !ok {
          return None;
        }
        Onward(Now(), Deleted(p), l);
        marker := None;
        owned := None;
      }
      ghost var w1 := Now();
      assert Settle(w0, Resolved(p), l) == Settle(w1, Checking(p, owned), l);
      Onward(w1, Checking(p, owned), l);
      Ended(w1, Off, l);
      if !l.found {
        return None;
      }
      if !HasIP(table, p.target) {
        Onward(w1, Adding(p), l);
        var ok := AddrAdd(p.target, l.add);
        Ended(Now(), Off, l);
        if !ok {
          return None;
        }
        Onward(Now(), Added(p, marker), l);
        owned := Some(p.target);
        if !l.write {
          Onward(Now(), Undoing(p, marker), l);
          var _ := AddrDel(p.target, l.undo);
          Ended(Now(), Off, l);
          return None;
        }
        marker := owned;
        gaveUp := gaveUp - {p.target};
      }
      Ended(Now(), Running(p, owned), l);
      return Some(owned);
    }

    /** The captured cleanup: it acts only when the marker still agrees with the captured ownership. */
    method Cleanup(p: Plan, owned: Option<Address>, l: Luck)
      modifies this
      ensures (Now(), Off) == Settle(old(Now()), Stopping(p, owned), l)
    {
      hide Settle;
      Onward(Now(), Stopping(p, owned), l);
      Ended(Now(), Off, l);
      if p.remove && owned == Some(p.target) {
        if marker != owned {
          return;
        }
        Onward(Now(), Verified(p.target), l);
        var ok := AddrDel(p.target, l.del);
        Ended(Now(), Off, l);
        if ok {
          Onward(Now(), Cleaned, l);
          marker := None;
          Ended(Now(), Off, l);
        }
      }
    }
  }

  lemma StopAlone(up: World, p: Plan, owned: Option<Address>)
    requires p.remove && up.marker == owned && (owned.Some? ==> owned.value == p.target && p.target in up.table)
    ensures var down := Settle(up, Stopping(p, owned), SUCCESS).0;
      down.marker.None? && down.table == up.table - if owned.Some? then {p.target} else {}
  {
    if owned.Some? {
      var deleted := Del(up, p.target, Done);
      assert Settle(up, Stopping(p, owned), SUCCESS) == Settle(up, Verified(p.target), SUCCESS);
      assert Settle(up, Verified(p.target), SUCCESS) == Settle(deleted, Cleaned, SUCCESS);
    }
  }

  lemma StartFromChecking(w: World, p: Plan)
    requires w.marker.Some? ==> w.marker.value == p.target && p.target in w.table
    ensures Settle(w, Checking(p, w.marker), SUCCESS) ==
      if HasIP(w.table, p.target) then (w, Running(p, w.marker))
      else (Mark(Add(w, p.target, Done), p.target), Running(p, Some(p.target)))
  {
    hide Settle, HasIP;
    var added := Add(w, p.target, Done);
    Onward(w, Checking(p, w.marker), SUCCESS);
    Ended(w, Running(p, w.marker), SUCCESS);
    Onward(w, Adding(p), SUCCESS);
    NoIPNotThere(w.table, p.target);
    Onward(added, Added(p, w.marker), SUCCESS);
    Ended(Mark(added, p.target), Running(p, Some(p.target)), SUCCESS);
  }

  lemma NoIPNotThere(table: map<Address, Owner>, a: Address)
    ensures a in table ==> HasIP(table, a)
  {
    assert a in table ==> a in table.Keys;
  }

  /**
   * With removal on stop, a start followed by a stop leaves every address as it was, except that the one
   * marked before is gone, and leaves no marker.
   */
  lemma StartThenStop(w: World, p: Plan)
    requires p.manage && p.remove && (w.marker.Some? ==> w.marker.value in w.table)
    ensures var (up, running) := Settle(w, Resolved(p), SUCCESS);
      && running.Running?
      && HasIP(up.table, p.target)
      && var (down, _) := Settle(up, Stopping(p, running.owned), SUCCESS);
      && down.marker.None?
      && down.table == w.table - if w.marker.Some? then {w.marker.value} else {}
  {
    hide Settle, HasIP;
    var (up, running) := Settle(w, Resolved(p), SUCCESS);
    Onward(w, Resolved(p), SUCCESS);
    Onward(w, Read(p, w.marker), SUCCESS);
    var checked := if w.marker.Some? && w.marker.value != p.target then Unmark(Del(w, w.marker.value, Done)) else w;
    if checked != w {
      Onward(Del(w, w.marker.value, Done), Deleted(p), SUCCESS);
    }
    StartFromChecking(checked, p);
    NoIPNotThere(checked.table, p.target);
    NoIPNotThere(up.table, p.target);
    StopAlone(up, p, running.owned);
  }

  /** A request gives the marker up exactly when it changes the settings to ones that only observe. */
  lemma ReleaseFollowsIff(s: State, c: Config)
    requires Enabled(s, Commit(c))
    ensures Enabled(Step(s, Commit(c)), Release) <==> !c.manage && c != s.config
    ensures Step(s, Commit(c)).config == c && Step(s, Commit(c)).world == s.world
  {}

  // ----- every start and every stop -------------------------------------------------------------

  ghost predicate Leaves(r: (World, Daemon), table: map<Address, Owner>, marker: Option<Address>, d: Daemon) {
    r.0.table == table && r.0.marker == marker && r.1 == d
  }

  /** A marked address that is not the target. */
  ghost predicate Stale(w: World, p: Plan) {
    w.marker.Some? && w.marker.value != p.target
  }

  ghost predicate AddressThere(table: map<Address, Owner>, t: Address) {
    exists prefix: nat :: Address(t.iface, t.ip, prefix) in table
  }

  lemma HasIPIff(table: map<Address, Owner>, t: Address)
    ensures HasIP(table, t) <==> AddressThere(table, t)
  {
    if a :| a in table.Keys && a.iface == t.iface && a.ip == t.ip {
      assert a == Address(t.iface, t.ip, a.prefix);
    }
  }

  /** A start that only observes changes no address and gives the marker up. */
  lemma ObservingStart(w: World, p: Plan, l: Luck)
    requires !p.manage
    ensures Leaves(Settle(w, Resolved(p), l), w.table, None, Running(p, None))
  {
    hide Settle;
    Onward(w, Resolved(p), l);
    Onward(w, Read(p, w.marker), l);
    Ended(GiveUp(w), Running(p, None), l);
  }

  /**
   * A managing start first removes a marked address that is not its target, and fails unless that command reports
   * success; then it goes on with the rest and no marker.
   */
  lemma StaleStart(w: World, p: Plan, l: Luck)
    requires p.manage && Stale(w, p)
    ensures var stale, r := w.marker.value, Settle(w, Resolved(p), l);
      if stale !in w.table || l.del.Refused? then Leaves(r, w.table, w.marker, Off)
      else if l.del.DoneTooLate? then Leaves(r, w.table - {stale}, w.marker, Off)
      else r == Settle(Unmark(Del(w, stale, Done)), Checking(p, None), l)
           && Unmark(Del(w, stale, Done)).table == w.table - {stale} && Unmark(Del(w, stale, Done)).marker.None?
  {
    hide Settle;
    var stale := w.marker.value;
    Onward(w, Resolved(p), l);
    Onward(w, Read(p, w.marker), l);
    var deleted := Del(w, stale, l.del);
    if DelOk(w, stale, l.del) {
      Onward(deleted, Deleted(p), l);
    } else {
      Ended(deleted, Off, l);
    }
  }

  lemma FreshStart(w: World, p: Plan, l: Luck)
    requires p.manage && !Stale(w, p)
    ensures Settle(w, Resolved(p), l) == Settle(w, Checking(p, w.marker), l)
  {
    hide Settle;
    Onward(w, Resolved(p), l);
    Onward(w, Read(p, w.marker), l);
  }

  /**
   * The rest of a start: it needs the interface; an address already there, whatever its prefix, is left alone; a
   * missing one is added and marked, and taken back if the marker cannot be written. A failed start leaves the marker.
   */
  lemma RestOfStart(w: World, p: Plan, owned: Option<Address>, l: Luck)
    ensures var r, with := Settle(w, Checking(p, owned), l), w.table[p.target := Package];
      && (!l.found ==> Leaves(r, w.table, w.marker, Off))
      && (l.found && AddressThere(w.table, p.target) ==> Leaves(r, w.table, w.marker, Running(p, owned)))
      && (l.found && !AddressThere(w.table, p.target) ==>
            && p.target !in w.table
            && (l.add.Refused? ==> Leaves(r, w.table, w.marker, Off))
            && (l.add.DoneTooLate? ==> Leaves(r, with, w.marker, Off))
            && (l.add.Done? && l.write ==> Leaves(r, with, Some(p.target), Running(p, Some(p.target))))
            && (l.add.Done? && !l.write ==>
                  Leaves(r, if l.undo.Refused? then with else w.table, w.marker, Off)))
  {
    hide Settle, HasIP, AddressThere;
    HasIPIff(w.table, p.target);
    NoIPNotThere(w.table, p.target);
    Onward(w, Checking(p, owned), l);
    Ended(w, Off, l);
    Ended(w, Running(p, owned), l);
    if l.found && !HasIP(w.table, p.target) {
      var added := Add(w, p.target, l.add);
      Onward(w, Adding(p), l);
      Ended(added, Off, l);
      Onward(added, Added(p, w.marker), l);
      Ended(Mark(added, p.target), Running(p, Some(p.target)), l);
      Onward(added, Undoing(p, w.marker), l);
      Ended(Del(added, p.target, l.undo), Off, l);
      assert w.table[p.target := Package] - {p.target} == w.table;
    }
  }

  /**
   * A stop removes the target only if it is to be removed, is the captured address and is still marked; the marker
   * goes only when the command reports success.
   */
  lemma StopIs(w: World, p: Plan, owned: Option<Address>, l: Luck)
    ensures var r, t := Settle(w, Stopping(p, owned), l), p.target;
      && (!(p.remove && owned == Some(t) && w.marker == Some(t)) || t !in w.table || l.del.Refused? ==>
            Leaves(r, w.table, w.marker, Off))
      && (p.remove && owned == Some(t) && w.marker == Some(t) && t in w.table && !l.del.Refused? ==>
            Leaves(r, w.table - {t}, if l.del.Done? then None else w.marker, Off))
  {
    hide Settle;
    Onward(w, Stopping(p, owned), l);
    Ended(w, Off, l);
    var deleted := Del(w, p.target, l.del);
    Onward(w, Verified(p.target), l);
    Ended(deleted, Off, l);
    Onward(deleted, Cleaned, l);
    Ended(Unmark(deleted), Off, l);
  }
}
