/**
 * Whole runs of the daemon: any sequence of accepted messages on any links, each handled as `Dispatch` does,
 * with every learning and every look-up of the one cache. What is sent never leaks, and the display is sound.
 */
module WholeRuns {
  import opened Bytes
  import opened DnsMessages
  import opened NameCache
  import opened ServicePolicy
  import opened RelayFilter
  import opened Observation
  import opened Dispatch
  import P = Provenance
  import R = Refiltering

  /** The records the daemon may learn from: those of responses on the display's link. */
  ghost function HeardFrom(e: Setup, d: Received): set<Record> {
    if d.message.Response() && d.at == e.axiom then RecordsOf(d.message.records) else {}
  }

  ghost function HeardIn(e: Setup, run: seq<Turn>): set<Record> {
    if run == [] then {} else HeardIn(e, run[..|run| - 1]) + HeardFrom(e, run[|run| - 1].d)
  }

  function After(e: Setup, run: seq<Turn>, env: Environment): Tracker {
    if run == [] then Start()
    else
      var turn := run[|run| - 1];
      Filtering(e, turn.d, After(e, run[..|run| - 1], env), turn.t, env)
  }

  /** Observations are made at times that do not go back. */
  ghost predicate ObservedInTime(run: seq<Turn>) {
    forall i, j :: 0 <= i <= j < |run| ==> run[i].t.observe <= run[j].t.observe
  }

  // ----- one message ------------------------------------------------------------------------

  lemma {:induction false} AskingNeverEmpty(s: State, rs: seq<Record>, qs: seq<Question>, i: nat, j: nat, own: Own,
           env: Environment)
    requires i <= |rs| && j <= |qs| && [] !in s.expires
    ensures [] !in FilterState(s, rs, i, own, env).expires && [] !in QuestionState(s, qs, j, env).expires
    decreases i + j
  {
    hide Normalize, Suppressed, AllowedInstance, RaymarineType;
    if i > 0 {
      AskingNeverEmpty(s, rs, qs, i - 1, j, own, env);
    } else if j > 0 {
      AskingNeverEmpty(s, rs, qs, i, j - 1, own, env);
    }
  }

  lemma CacheOnlySound(h: set<Record>, g: Tracker, cache: State, now: int)
    requires Sound(h, g, now) && [] !in cache.expires
    ensures Sound(h, g.(cache := cache), now)
  {
    hide ObservationsOk, HostsOk, AxiomOk;
  }

  lemma NeverEmptyIn(h: set<Record>, g: Tracker, now: int)
    requires Sound(h, g, now)
    ensures [] !in g.cache.expires
  {
    hide ObservationsOk, HostsOk, AxiomOk;
  }

  lemma FilteringSound(h: set<Record>, e: Setup, d: Received, g: Tracker, t: Moment, env: Environment)
    requires Sound(h, g, t.observe) && HeardFrom(e, d) <= h
    ensures Sound(h, Filtering(e, d, g, t, env), t.observe)
  {
    hide Sound, Observe, Learned, Relevant, FilterState, QuestionState;
    var rs, qs := d.message.records, d.message.questions;
    if d.message.Response() && d.at == e.axiom {
      LearnedSound(h, g, rs, env, t.observe);
      ObserveSound(h, g.(cache := Learned(g.cache, rs, env)), rs, t.observe, env, t.order);
    }
    var w := Watched(e, d, g, t, env);
    NeverEmptyIn(h, w, t.observe);
    LearnedNeverEmpty(w.cache, rs, env);
    AskingNeverEmpty(Learned(w.cache, rs, env), rs, qs, |rs|, 0, e.own, env);
    AskingNeverEmpty(w.cache, rs, qs, 0, |qs|, e.own, env);
    CacheOnlySound(h, w, FilterState(Learned(w.cache, rs, env), rs, |rs|, e.own, env), t.observe);
    CacheOnlySound(h, w, QuestionState(w.cache, qs, |qs|, env), t.observe);
  }

  lemma {:induction false} QuestionsGrounded(h: set<Record>, s: State, qs: seq<Question>, i: nat, env: Environment)
    requires i <= |qs| && P.Grounded(h, s)
    ensures P.Grounded(h, QuestionState(s, qs, i, env))
  {
    hide P.Grounded, Asked;
    if i > 0 {
      QuestionsGrounded(h, s, qs, i - 1, env);
      P.AskedGrounded(h, QuestionState(s, qs, i - 1, env), qs[i - 1].name, env);
    }
  }

  lemma {:induction false} AddressesGrounded(h: set<Record>, t: HostTrack, obs: Observations, rs: seq<Record>, i: nat,
                                             now: int, env: Environment)
    requires i <= |rs| && P.Grounded(h, t.cache)
    ensures P.Grounded(h, AddressRecords(t, obs, rs, i, now, env).cache)
  {
    hide P.Grounded, Asked, Knows;
    if i > 0 {
      AddressesGrounded(h, t, obs, rs, i - 1, now, env);
      P.AskedGrounded(h, AddressRecords(t, obs, rs, i - 1, now, env).cache, rs[i - 1].name, env);
    }
  }

  lemma WatchedGrounded(h: set<Record>, e: Setup, d: Received, g: Tracker, t: Moment, env: Environment)
    requires P.Grounded(h, g.cache)
    ensures P.Grounded(h + HeardFrom(e, d), Watched(e, d, g, t, env).cache)
  {
    hide P.Grounded, Learned, Relevant, AddressRecords, ObserveRecords;
    var rs := d.message.records;
    P.GroundedGrows(h, HeardFrom(e, d), g.cache);
    if d.message.Response() && d.at == e.axiom {
      P.LearnedGrounded(h, g.cache, rs, env);
      var l := g.(cache := Learned(g.cache, rs, env));
      var u := Gathered(l, rs, t.observe);
      var start := HostTrack(FreshHosts(l.hosts, t.observe), u.touched, l.cache);
      AddressesGrounded(h + HeardFrom(e, d), start, u.obs, rs, |rs|, t.observe, env);
    }
  }

  /** The caches the filter of one message meets. */
  lemma FilteringGrounded(h: set<Record>, e: Setup, d: Received, g: Tracker, t: Moment, env: Environment)
    requires P.Grounded(h, g.cache)
    ensures var all, s, rs := h + HeardFrom(e, d), Watched(e, d, g, t, env).cache, d.message.records;
      && P.Grounded(all, s)
      && (Concerns(e, d, g.cache, env) ==> P.Grounded(all, Learned(s, rs, env)))
      && P.Grounded(all, Filtering(e, d, g, t, env).cache)
  {
    hide P.Grounded, Learned, Relevant, Watched, FilterState, QuestionState;
    WatchedGrounded(h, e, d, g, t, env);
    var all, s, rs := h + HeardFrom(e, d), Watched(e, d, g, t, env).cache, d.message.records;
    if Concerns(e, d, g.cache, env) {
      P.LearnedGrounded(all, s, rs, env);
      assert all + RecordsOf(rs) == all;
      P.FilterStateGrounded(all, Learned(s, rs, env), rs, |rs|, e.own, env);
    }
    QuestionsGrounded(all, s, d.message.questions, |d.message.questions|, env);
  }

  // ----- every run --------------------------------------------------------------------------

  /** In every reachable state the tables are within their bounds and the display is accounted for. */
  lemma {:induction false} EveryRunIsSound(e: Setup, run: seq<Turn>, env: Environment, now: int)
    requires ObservedInTime(run) && (run != [] ==> run[|run| - 1].t.observe <= now)
    ensures Sound(HeardIn(e, run), After(e, run, env), now)
  {
    hide Sound, Filtering;
    if run == [] {
      StartSound(now);
    } else {
      var before, last := run[..|run| - 1], run[|run| - 1];
      assert before != [] ==> before[|before| - 1] == run[|run| - 2];
      EveryRunIsSound(e, before, env, last.t.observe);
      SoundLater(HeardIn(e, before), HeardIn(e, run), After(e, before, env), last.t.observe, last.t.observe);
      FilteringSound(HeardIn(e, run), e, last.d, After(e, before, env), last.t, env);
      SoundLater(HeardIn(e, run), HeardIn(e, run), After(e, run, env), last.t.observe, now);
    }
  }

  /** In every reachable state every cached name has a chain of records heard on the display's link. */
  lemma {:induction false} EveryRunIsGrounded(e: Setup, run: seq<Turn>, env: Environment)
    ensures P.Grounded(HeardIn(e, run), After(e, run, env).cache)
  {
    hide P.Grounded, Filtering;
    if run == [] {
      P.EmptyGrounded({});
    } else {
      var before, last := run[..|run| - 1], run[|run| - 1];
      EveryRunIsGrounded(e, before, env);
      FilteringGrounded(HeardIn(e, before), e, last.d, After(e, before, env), last.t, env);
    }
  }

  // ----- what a receiver of a relayed packet reads --------------------------------------------

  /** The names of a record do not end in a dot octet, so they read back as they were shown. */
  ghost predicate ReadsBack(o: Record) {
    R.Undotted(o.wire) && (HasTarget(o.typ) ==> R.Undotted(o.targetWire))
  }

  lemma SameNames(o: Record)
    requires RecordOk(o) && ReadsBack(o)
    ensures Uncompressed(o) == o.(data := EmitData(o))
  {
    hide R.Undotted, DnsNames.DisplayOf, Names;
    R.UndottedName(o.name, o.wire);
    if HasTarget(o.typ) {
      R.UndottedName(o.target, o.targetWire);
    }
  }

  lemma SameLegitimate(h: set<Record>, rs: seq<Record>, o: Record, d: bytes)
    requires P.Legitimate(h, rs, o)
    ensures P.Legitimate(h, rs, o.(data := d))
  {
    hide P.Learnable, AllowedInstance, Normalize;
  }

  /** A record as read from a relayed packet is a received one uncompressed, which was legitimate to pass on. */
  ghost predicate LegitimateCopy(h: set<Record>, rs: seq<Record>, r: Record, o: Record) {
    o in rs && RecordOk(o) && r == Uncompressed(o) && P.Legitimate(h, rs, o)
        && (ReadsBack(o) ==> P.Legitimate(h, rs, r))
  }

  lemma KeptLegitimate(h: set<Record>, s: State, rs: seq<Record>, j: nat, own: Own, env: Environment)
    requires P.Grounded(h, s) && forall k :: 0 <= k < |rs| ==> RecordOk(rs[k])
    requires j < |Kept(s, rs, |rs|, own, env)| && forall k :: 0 <= k < |Kept(s, rs, |rs|, own, env)| ==>
        RecordOk(Kept(s, rs, |rs|, own, env)[k])
    ensures var kept := Kept(s, rs, |rs|, own, env);
      LegitimateCopy(h, rs, UncompressedAll(kept)[j], kept[j])
  {
    hide P.Grounded, P.Legitimate, Kept, Passes, RecordOk, Uncompressed, ReadsBack;
    var i := R.KeptFrom(s, rs, j, own, env);
    P.PassesLegitimate(h, s, rs, i, own, env);
    if ReadsBack(rs[i]) {
      SameNames(rs[i]);
      SameLegitimate(h, rs, rs[i], Uncompressed(rs[i]).data);
    }
  }

  /**
   * No leak, end to end: after any run, whatever record a receiver reads in a relayed packet is a copy of one
   * in the response just handled, and that was legitimate given what had been heard on the display's link.
   */
  lemma NothingLeaks(e: Setup, run: seq<Turn>, d: Received, t: Moment, env: Environment, s: Send, r: Record)
    requires MessageOk(d.message) && s in Relayed(e, d, After(e, run, env), t, env)
    requires Parse(s.packet).Some? && r in Parse(s.packet).value.records
    ensures exists o :: LegitimateCopy(HeardIn(e, run + [Turn(d, t)]), d.message.records, r, o)
  {
    hide P.Grounded, P.Legitimate, Kept, RecordOk, QuestionOk, Uncompressed, ReadsBack, Learned, Watched, Relevant,
         Parse, ReadMessage, ResponseOutcome, QueryOutcome, KeptQuestions, LegitimateCopy;
    var g, m := After(e, run, env), d.message;
    EveryRunIsGrounded(e, run, env);
    FilteringGrounded(HeardIn(e, run), e, d, g, t, env);
    var all := run + [Turn(d, t)];
    assert all[..|all| - 1] == run;
    var cache := Watched(e, d, g, t, env).cache;
    if Concerns(e, d, g.cache, env) {
      var learned := Learned(cache, m.records, env);
      var out := ResponseOutcome(learned, m.records, e.own, env);
      ToOthersExact(d.at, |e.links|, out.packet);
      RelayedResponse(m, learned, e.own, env, out.packet);
      ReadIsParse(out.packet);
      var kept := Kept(learned, m.records, |m.records|, e.own, env);
      var j :| 0 <= j < |UncompressedAll(kept)| && UncompressedAll(kept)[j] == r;
      KeptLegitimate(HeardIn(e, all), learned, m.records, j, e.own, env);
    } else {
      RelayedQuery(m, cache, env, QueryOutcome(cache, m.questions, env).packet);
      ReadIsParse(s.packet);
    }
  }

  /** A relayed question asks for a Raymarine type or for a name learnable from what was heard. */
  lemma OnlyGroundedQuestionsRelayed(e: Setup, run: seq<Turn>, d: Received, t: Moment, env: Environment, s: Send,
           q: Question)
    requires MessageOk(d.message) && s in Relayed(e, d, After(e, run, env), t, env)
    requires Parse(s.packet).Some? && q in Parse(s.packet).value.questions
    ensures exists o :: o in d.message.questions && q == Plain(o.(cls := 1))
                        && (RaymarineType(o.name) || P.Learnable(HeardIn(e, run), Normalize(o.name)))
  {
    hide P.Grounded, P.Learnable, Kept, RecordOk, QuestionOk, Learned, Watched, Relevant, Parse, ReadMessage,
         ResponseOutcome, QueryOutcome, KeptQuestions, Normalize, RaymarineType, Plain;
    var g, m := After(e, run, env), d.message;
    EveryRunIsGrounded(e, run, env);
    var cache := Watched(e, d, g, t, env).cache;
    if Concerns(e, d, g.cache, env) {
      var learned := Learned(cache, m.records, env);
      var out := ResponseOutcome(learned, m.records, e.own, env);
      ToOthersExact(d.at, |e.links|, out.packet);
      RelayedResponse(m, learned, e.own, env, out.packet);
      ReadIsParse(out.packet);
    } else {
      RelayedQuery(m, cache, env, QueryOutcome(cache, m.questions, env).packet);
      ReadIsParse(s.packet);
      var kept := KeptQuestions(cache, m.questions, |m.questions|, env);
      var j :| 0 <= j < |PlainAll(kept)| && PlainAll(kept)[j] == q;
      assert cache == g.cache by {
        NothingWatched(e, d, g, t, env);
      }
      var i := QuestionFrom(HeardIn(e, run), cache, m.questions, |m.questions|, j, env);
    }
  }

  lemma NothingWatched(e: Setup, d: Received, g: Tracker, t: Moment, env: Environment)
    requires !d.message.Response()
    ensures Watched(e, d, g, t, env) == g
  {}

  lemma {:induction false} QuestionFrom(h: set<Record>, s: State, qs: seq<Question>, n: nat, j: nat, env: Environment)
      returns (i: nat)
    requires n <= |qs| && P.Grounded(h, s) && j < |KeptQuestions(s, qs, n, env)|
    ensures i < n && KeptQuestions(s, qs, n, env)[j] == qs[i].(cls := 1)
    ensures RaymarineType(qs[i].name) || P.Learnable(h, Normalize(qs[i].name))
  {
    hide P.Grounded, P.Learnable, Normalize, RaymarineType, Knows;
    if j < |KeptQuestions(s, qs, n - 1, env)| {
      i := QuestionFrom(h, s, qs, n - 1, j, env);
    } else {
      i := n - 1;
      QuestionsGrounded(h, s, qs, n - 1, env);
      P.KnownIsLearnable(h, QuestionState(s, qs, n - 1, env), qs[n - 1].name, env);
    }
  }
}
