/**
 * What an accepted message makes the daemon send, and where: its own reply on the link it came from, a
 * relayed response from the display's link to all others, a relayed query from any other link to it.
 */
module Dispatch {
  import opened Bytes
  import opened Clock
  import opened DnsMessages
  import opened NameCache
  import opened Observation
  import opened RelayFilter
  import opened Replies
  import opened ServicePolicy
  import P = RelayPolicy

  const MDNS_PORT: nat := 5353
  const REPLY_GAP := 100 * MILLISECOND

  datatype Link = Link(publish: bool, announcement: bytes)

  /** The links by number, the display's among them, and the emulator's own normalised names. */
  datatype Setup = Setup(links: seq<Link>, axiom: nat, relay: bool, own: Own)

  datatype Received = Received(at: nat, port: nat, message: Message)

  /** Clock readings while one message is handled: the reply check, the reply, the observation. */
  datatype Moment = Moment(check: int, reply: int, observe: int, order: Orders)

  datatype Send = Send(to: nat, unicast: bool, packet: bytes)

  predicate Fits(e: Setup, d: Received) {
    e.axiom < |e.links| && d.at < |e.links|
  }

  // ----- the emulator's own replies -----------------------------------------------------------

  predicate AsksUs(e: Setup, q: Question) {
    PlainClass(q.cls) == 1 && q.name in {HTTP, BROWSE, e.own.host, e.own.inst}
  }

  predicate AskedAny(e: Setup, qs: seq<Question>) {
    exists i :: 0 <= i < |qs| && AsksUs(e, qs[i])
  }

  predicate AskedUnicast(e: Setup, qs: seq<Question>) {
    exists i :: 0 <= i < |qs| && AsksUs(e, qs[i]) && qs[i].cls >= 0x8000
  }

  predicate Due(last: Option<int>, now: int) {
    last.None? || now - last.value > REPLY_GAP
  }

  predicate Answers(e: Setup, d: Received, last: Option<int>, t: Moment)
    requires Fits(e, d)
  {
    !d.message.Response() && e.links[d.at].publish && AskedAny(e, d.message.questions) && Due(last, t.check)
  }

  ghost function UnicastBytes(announcement: bytes, q: Message, legacy: bool): Option<bytes>
    requires MessageOk(q)
  {
    var m := Parse(announcement);
    if m.None? then None
    else
      ParsedIsOk(announcement);
      ReplyOk(m.value, q, legacy);
      Some(MessageBytes(ReplyTo(m.value, q, legacy)))
  }

  ghost function OwnReply(e: Setup, d: Received, last: Option<int>, t: Moment): seq<Send>
    requires Fits(e, d) && MessageOk(d.message)
  {
    if !Answers(e, d, last, t) then []
    else if d.port == MDNS_PORT && !AskedUnicast(e, d.message.questions) then
      [Send(d.at, false, e.links[d.at].announcement)]
    else
      var reply := UnicastBytes(e.links[d.at].announcement, d.message, d.port != MDNS_PORT);
      if reply.None? then [] else [Send(d.at, true, reply.value)]
  }

  // ----- relaying ---------------------------------------------------------------------------

  /** One packet to each of the first `n` links but one. */
  function ToOthers(at: nat, n: nat, p: bytes): seq<Send> {
    if n == 0 then [] else ToOthers(at, n - 1, p) + if n - 1 == at then [] else [Send(n - 1, false, p)]
  }

  /** Only a relevant response on the display's link is handled further. */
  predicate Concerns(e: Setup, d: Received, s: State, env: Environment) {
    d.message.Response() && d.at == e.axiom && Relevant(s, d.message.records, env)
  }

  /** The state in which the filter starts. */
  function Watched(e: Setup, d: Received, g: Tracker, t: Moment, env: Environment): Tracker {
    if d.message.Response() && d.at == e.axiom then Handle(g, Heard(d.message.records, t.observe, t.order), env) else g
  }

  ghost function Relayed(e: Setup, d: Received, g: Tracker, t: Moment, env: Environment): seq<Send>
    requires MessageOk(d.message)
  {
    var s := Watched(e, d, g, t, env).cache;
    if !e.relay then []
    else if Concerns(e, d, g.cache, env) then
      var out := ResponseOutcome(Learned(s, d.message.records, env), d.message.records, e.own, env);
      if out.Packet? then ToOthers(d.at, |e.links|, out.packet) else []
    else if !d.message.Response() && d.at != e.axiom then
      var out := QueryOutcome(s, d.message.questions, env);
      if out.Packet? then [Send(e.axiom, false, out.packet)] else []
    else []
  }

  function Filtering(e: Setup, d: Received, g: Tracker, t: Moment, env: Environment): Tracker {
    var h := Watched(e, d, g, t, env);
    if !e.relay then h
    else if Concerns(e, d, g.cache, env) then
      var rs := d.message.records;
      h.(cache := FilterState(Learned(h.cache, rs, env), rs, |rs|, e.own, env))
    else if !d.message.Response() && d.at != e.axiom then
      h.(cache := QuestionState(h.cache, d.message.questions, |d.message.questions|, env))
    else h
  }

  class Engine {
    const setup: Setup
    const cache: Cache
    const observer: Observer
    var lastReply: seq<Option<int>>

    constructor (setup: Setup, env: Environment)
      ensures this.setup == setup && cache.env == env && fresh(cache) && fresh(observer)
      ensures lastReply == seq(|setup.links|, _ => None)
      ensures Watching() == Start()
    {
      this.setup := setup;
      cache := new Cache(env);
      observer := new Observer();
      lastReply := seq(|setup.links|, _ => None);
    }

    function Watching(): Tracker
      reads this, cache, observer
    {
      observer.Abstract(cache)
    }

    method Scan(qs: seq<Question>, port: nat) returns (asked: bool, unicast: bool)
      ensures asked == AskedAny(setup, qs) && unicast == (port != MDNS_PORT || AskedUnicast(setup, qs))
    {
      asked, unicast := false, port != MDNS_PORT;
      for i := 0 to |qs|
        invariant asked <==> exists k :: 0 <= k < i && AsksUs(setup, qs[k])
        invariant unicast <==>
                  port != MDNS_PORT || exists k :: 0 <= k < i && AsksUs(setup, qs[k]) && qs[k].cls >= 0x8000
      {
        if AsksUs(setup, qs[i]) {
          asked := true;
          if qs[i].cls >= 0x8000 {
            unicast := true;
          }
        }
      }
    }

    method Answer(d: Received, t: Moment) returns (sent: seq<Send>)
      requires Fits(setup, d) && MessageOk(d.message) && |lastReply| == |setup.links|
      modifies this`lastReply
      ensures sent == OwnReply(setup, d, old(lastReply)[d.at], t)
      ensures lastReply == if Answers(setup, d, old(lastReply)[d.at], t) then old(lastReply)[d.at := Some(t.reply)]
          else old(lastReply)
    {
      hide MessageOk, Parse, AsksUs;
      if d.message.Response() || !setup.links[d.at].publish {
        return [];
      }
      var asked, unicast := Scan(d.message.questions, d.port);
      if !asked || !Due(lastReply[d.at], t.check) {
        return [];
      }
      lastReply := lastReply[d.at := Some(t.reply)];
      if !unicast {
        return [Send(d.at, false, setup.links[d.at].announcement)];
      }
      var reply := UnicastReply(setup.links[d.at].announcement, d.message, d.port != MDNS_PORT);
      return if reply.None? then [] else [Send(d.at, true, reply.value)];
    }

    method Spread(at: nat, p: bytes) returns (sent: seq<Send>)
      ensures sent == ToOthers(at, |setup.links|, p)
    {
      sent := [];
      for n := 0 to |setup.links|
        invariant sent == ToOthers(at, n, p)
      {
        if n != at {
          sent := sent + [Send(n, false, p)];
        }
      }
    }

    /** One accepted message, from its own reply to the relay. */
    method Dispatch(d: Received, t: Moment) returns (sent: seq<Send>)
      requires Fits(setup, d) && MessageOk(d.message) && |lastReply| == |setup.links|
      modifies this`lastReply, cache, observer
      ensures sent == OwnReply(setup, d, old(lastReply)[d.at], t) + Relayed(setup, d, old(Watching()), t, cache.env)
      ensures Watching() == Filtering(setup, d, old(Watching()), t, cache.env)
      ensures lastReply == if Answers(setup, d, old(lastReply)[d.at], t) then old(lastReply)[d.at := Some(t.reply)]
          else old(lastReply)
    {
      hide MessageOk, Learned, Relevant, Observe, FilterState, QuestionState, ResponseOutcome, QueryOutcome, ToOthers,
           OwnReply, Answers;
      sent := Answer(d, t);
      if d.message.Response() {
        if d.at == setup.axiom {
          var relevant := ResponseRelevant(d.message, cache);
          if relevant {
            observer.Run(d.message, t.observe, cache, t.order);
            if setup.relay {
              var out := FilterDNS(d.message, cache, setup.own);
              if out.Packet? {
                var copies := Spread(d.at, out.packet);
                sent := sent + copies;
              }
            }
          }
        }
      } else if d.at != setup.axiom && setup.relay {
        var out := FilterDNS(d.message, cache, Own([], []));
        if out.Packet? {
          sent := sent + [Send(setup.axiom, false, out.packet)];
        }
      }
    }
  }

  // ----- where packets go -------------------------------------------------------------------

  lemma {:induction false} ToOthersExact(at: nat, n: nat, p: bytes)
    ensures var out := ToOthers(at, n, p);
      && |out| == (if at < n then n - 1 else n)
      && (forall k :: 0 <= k < |out| ==> out[k] == Send(if k < at then k else k + 1, false, p))
  {
    if n > 0 {
      ToOthersExact(at, n - 1, p);
    }
  }

  /**
   * A response is relayed from the display's link to every other link exactly once, a query from another
   * link to the display's link only; nothing goes back where it came from, and without the relay nothing goes anywhere.
   */
  lemma RelayDirection(e: Setup, d: Received, g: Tracker, t: Moment, env: Environment)
    requires Fits(e, d) && MessageOk(d.message)
    ensures var out := Relayed(e, d, g, t, env);
      && (out != [] ==> e.relay)
      && (forall s :: s in out ==> s.to != d.at && s.to < |e.links| && !s.unicast)
      && (out != [] && d.message.Response() ==>
            && d.at == e.axiom && |out| == |e.links| - 1
            && forall k :: 0 <= k < |out| ==> out[k] == Send(if k < d.at then k else k + 1, false, out[0].packet))
      && (out != [] && !d.message.Response() ==> d.at != e.axiom && |out| == 1 && out[0].to == e.axiom)
  {
    hide RecordOk, QuestionOk, Watched, Relevant, ResponseOutcome, QueryOutcome, Learned;
    var s := Watched(e, d, g, t, env).cache;
    if Concerns(e, d, g.cache, env) {
      var out := ResponseOutcome(Learned(s, d.message.records, env), d.message.records, e.own, env);
      if out.Packet? {
        ToOthersExact(d.at, |e.links|, out.packet);
      }
    }
  }

  // ----- what is sent can be read -------------------------------------------------------------

  ghost predicate Readable(p: bytes, response: bool) {
    Parse(p).Some? && Parse(p).value.Response() == response
  }

  /** Whatever is relayed for a parsed message is accepted in turn, as the same kind of message. */
  lemma RelayedIsReadable(e: Setup, d: Received, g: Tracker, t: Moment, env: Environment)
    requires MessageOk(d.message)
    ensures forall s :: s in Relayed(e, d, g, t, env) ==>
                          Readable(s.packet, d.message.Response()) && |s.packet| <= 9000
  {
    hide RecordOk, QuestionOk, Parse, ReadMessage, Watched, Relevant, ResponseOutcome, QueryOutcome, Learned;
    var m, s := d.message, Watched(e, d, g, t, env).cache;
    if Concerns(e, d, g.cache, env) {
      var learned := Learned(s, m.records, env);
      var out := ResponseOutcome(learned, m.records, e.own, env);
      if out.Packet? {
        RelayedResponse(m, learned, e.own, env, out.packet);
        ReadIsParse(out.packet);
        ToOthersExact(d.at, |e.links|, out.packet);
      }
    } else if e.relay && !m.Response() && d.at != e.axiom {
      var out := QueryOutcome(s, m.questions, env);
      if out.Packet? {
        RelayedQuery(m, s, env, out.packet);
        ReadIsParse(out.packet);
      }
    }
  }

  lemma ReadIsParse(p: bytes)
    ensures ReadMessage(p).Some? ==> Parse(p) == Some(ReadMessage(p).value.value)
  {
    hide ReadMessage;
  }

  /** The emulator's own replies are responses anyone can read, exactly up to the parser's limit on entries. */
  lemma OwnReplyReadableIff(e: Setup, d: Received, last: Option<int>, t: Moment, s: Send)
    requires Fits(e, d) && MessageOk(d.message)
    requires Readable(e.links[d.at].announcement, true)
    requires s in OwnReply(e, d, last, t)
    ensures s.to == d.at
    ensures Readable(s.packet, true) <==>
      (s.unicast && d.port != MDNS_PORT ==>
         |d.message.questions| + |Parse(e.links[d.at].announcement).value.records| <= MAX_ENTRIES)
  {
    hide MessageOk, Parse, ReadMessage, Answers, RecordOk, QuestionOk, AskedUnicast;
    var announcement, legacy := e.links[d.at].announcement, d.port != MDNS_PORT;
    ParsedIsOk(announcement);
    var m := Parse(announcement).value;
    ReplyReadsBack(m, d.message, legacy);
    ReadIsParse(MessageBytes(ReplyTo(m, d.message, legacy)));
    NotRead(MessageBytes(ReplyTo(m, d.message, legacy)));
    AtMostEntries(m);
  }

  lemma NotRead(p: bytes)
    ensures ReadMessage(p).None? ==> Parse(p).None?
  {
    hide ReadMessage;
  }

  lemma AtMostEntries(m: Message)
    requires MessageOk(m)
    ensures |m.records| <= MAX_ENTRIES
  {}

  /** The question is of class IN, with or without the unicast bit, for one of the emulator's own four names. */
  ghost predicate ForUs(e: Setup, q: Question) {
    && (q.cls == 1 || q.cls == 0x8001)
    && q.name in {Ascii("_http._tcp.local"), Ascii("_services._dns-sd._udp.local"), e.own.host, e.own.inst}
  }

  /**
   * When the emulator replies and how: only to a query on a link it publishes on, with a question for it, and more
   * than 100 ms after its last reply there. The announcement goes out as it is, unless the querier does not use
   * the mDNS port or set the unicast bit on such a question; then the reply goes to the querier alone.
   */
  lemma OwnReplyIff(e: Setup, d: Received, last: Option<int>, t: Moment)
    requires Fits(e, d) && MessageOk(d.message)
    ensures var qs, packet := d.message.questions, e.links[d.at].announcement;
      var out := OwnReply(e, d, last, t);
      var due := last.None? || t.check > last.value + 100_000_000;
      var asked := exists i :: 0 <= i < |qs| && ForUs(e, qs[i]);
      var unicast := d.port != 5353 || exists i :: 0 <= i < |qs| && ForUs(e, qs[i]) && qs[i].cls == 0x8001;
      if d.message.Response() || !e.links[d.at].publish || !asked || !due then out == []
      else if !unicast then out == [Send(d.at, false, packet)]
      else if Parse(packet).None? then out == []
      else |out| == 1 && out[0].to == d.at && out[0].unicast
           && Some(out[0].packet) == UnicastBytes(packet, d.message, d.port != 5353)
  {
    hide MessageOk, Parse, ReadMessage, RecordOk, QuestionOk, PlainClass, MessageBytes;
    forall i | 0 <= i < |d.message.questions|
      ensures AsksUs(e, d.message.questions[i]) <==> ForUs(e, d.message.questions[i])
    {
      InternetClassIff(d.message.questions[i].cls);
    }
  }

  // ----- replies are spaced -----------------------------------------------------------------

  /** A message and when it is handled. */
  datatype Turn = Turn(d: Received, t: Moment)

  /** The turns of one link follow each other; those of different links, each read by its own loop, may not. */
  ghost predicate InTime(e: Setup, run: seq<Turn>) {
    && (forall i :: 0 <= i < |run| ==> Fits(e, run[i].d) && run[i].t.check <= run[i].t.reply)
    && (forall i, j :: 0 <= i < j < |run| && run[i].d.at == run[j].d.at ==> run[i].t.reply <= run[j].t.check)
  }

  /** The time of the latest reply on each link. */
  function LastReplies(e: Setup, run: seq<Turn>): (last: seq<Option<int>>)
    requires forall i :: 0 <= i < |run| ==> Fits(e, run[i].d)
    ensures |last| == |e.links|
  {
    if run == [] then seq(|e.links|, _ => None)
    else
      var before, turn := LastReplies(e, run[..|run| - 1]), run[|run| - 1];
      assert Fits(e, turn.d);
      if Answers(e, turn.d, before[turn.d.at], turn.t) then before[turn.d.at := Some(turn.t.reply)] else before
  }

  predicate AnsweredAt(e: Setup, run: seq<Turn>, i: nat)
    requires i < |run| && forall k :: 0 <= k < |run| ==> Fits(e, run[k].d)
  {
    assert Fits(e, run[i].d);
    Answers(e, run[i].d, LastReplies(e, run[..i])[run[i].d.at], run[i].t)
  }

  lemma {:induction false} LastRepliesRecent(e: Setup, run: seq<Turn>, i: nat)
    requires InTime(e, run) && i < |run| && AnsweredAt(e, run, i)
    ensures var last := LastReplies(e, run)[run[i].d.at]; last.Some? && last.value >= run[i].t.reply
    decreases |run|
  {
    hide Answers;
    var before := run[..|run| - 1];
    if i == |run| - 1 {
      assert run[..i] == before;
    } else {
      assert before[..i] == run[..i] && before[i] == run[i];
      LastRepliesRecent(e, before, i);
      assert run[i].d.at == run[|run| - 1].d.at ==> run[i].t.reply <= run[|run| - 1].t.check;
    }
  }

  /** Two own replies on one link are more than 100 ms apart, however the run went. */
  lemma RepliesAreSpaced(e: Setup, run: seq<Turn>, i: nat, j: nat)
    requires InTime(e, run) && i < j < |run| && run[i].d.at == run[j].d.at
    requires AnsweredAt(e, run, i) && AnsweredAt(e, run, j)
    ensures run[j].t.reply - run[i].t.reply > 100_000_000
  {
    var before := run[..j];
    assert before[..i] == run[..i] && before[i] == run[i];
    LastRepliesRecent(e, before, i);
  }

  /**
   * With the relay on, a response is relayed exactly when it comes from the display's link, is relevant, there is
   * another link, some record passes, and the packet fits.
   */
  lemma ResponseRelayedIff(e: Setup, d: Received, g: Tracker, t: Moment, env: Environment)
    requires Fits(e, d) && MessageOk(d.message) && e.relay && d.message.Response()
    ensures var s, rs := Learned(Watched(e, d, g, t, env).cache, d.message.records, env), d.message.records;
      var kept := Kept(s, rs, |rs|, e.own, env);
      && |kept| <= MAX_ENTRIES && (forall k :: 0 <= k < |kept| ==> RecordOk(kept[k]))
      && (Relayed(e, d, g, t, env) != [] <==>
            && d.at == e.axiom && |e.links| >= 2 && Relevant(g.cache, rs, env)
            && (exists k :: 0 <= k < |rs| && Passes(s, rs, k, e.own, env))
            && |PrintedMessage(0, 0x8400, [], kept)| <= 9000)
  {
    hide RecordOk, QuestionOk, Learned, Watched, Relevant, Passes, Kept, ResponseOutcome, ToOthers, PrintedMessage;
    var s, rs := Learned(Watched(e, d, g, t, env).cache, d.message.records, env), d.message.records;
    KeptAreOk(s, rs, |rs|, e.own, env);
    SomeKeptIff(s, rs, e.own, env);
    PacketIff(s, rs, e.own, env);
    var out := ResponseOutcome(s, rs, e.own, env);
    if out.Packet? {
      ToOthersExact(d.at, |e.links|, out.packet);
    }
  }

  /**
   * With the relay on, a query from another link is relayed exactly when one of its questions is passed on, whatever
   * port it came from, and the packet fits; it then goes to the display's link, once.
   */
  lemma QueryRelayedIff(e: Setup, d: Received, g: Tracker, t: Moment, env: Environment)
    requires ClockMonotone(env) && Fits(e, d) && MessageOk(d.message)
    requires e.relay && !d.message.Response() && d.at != e.axiom
    ensures var qs := d.message.questions;
      var kept := KeptQuestions(g.cache, qs, |qs|, env);
      var p := PrintedMessage(0, 0, kept, []);
      && (Relayed(e, d, g, t, env) != [] <==>
            (exists k :: 0 <= k < |qs| && P.Asks(g.cache, qs, k, env)) && |p| <= 9000)
      && (Relayed(e, d, g, t, env) != [] ==> Relayed(e, d, g, t, env) == [Send(e.axiom, false, p)])
  {
    hide RecordOk, QuestionOk, P.Asks, KeptQuestions, PrintedMessage;
    var qs := d.message.questions;
    P.QuestionSentIff(g.cache, qs, |qs|, env);
    var at := P.QuestionsAt(g.cache, qs, |qs|, env);
    if at != [] {
      assert at[0] in at;
    }
  }

  /** Deciding a query leaves its mark on the cache: a name asked for in vain is forgotten. */
  lemma VainQuestionForgotten(e: Setup, d: Received, g: Tracker, t: Moment, env: Environment, k: nat)
    requires e.relay && !d.message.Response() && d.at != e.axiom
    requires var qs := d.message.questions;
      && k < |qs| && PlainClass(qs[k].cls) == 1 && !RaymarineType(qs[k].name)
      && !Knows(QuestionState(g.cache, qs, k, env), qs[k].name, env)
    ensures Normalize(d.message.questions[k].name) !in Filtering(e, d, g, t, env).cache.expires
  {
    hide Normalize, RaymarineType, Knows, QuestionState;
    P.QuestionsForget(g.cache, d.message.questions, k, |d.message.questions|, env);
  }

  lemma SomeKeptIff(s: State, rs: seq<Record>, own: Own, env: Environment)
    ensures var kept := Kept(s, rs, |rs|, own, env);
      |kept| <= |rs| && (kept != [] <==> exists k :: 0 <= k < |rs| && Passes(s, rs, k, own, env))
  {
    hide Passes, Kept, KeptAt;
    KeptAtExact(s, rs, |rs|, own, env);
    var at := KeptAt(s, rs, |rs|, own, env);
    if at != [] {
      assert at[0] in at;
    }
  }

  lemma PacketIff(s: State, rs: seq<Record>, own: Own, env: Environment)
    requires |rs| <= MAX_ENTRIES && forall k :: 0 <= k < |rs| ==> RecordOk(rs[k])
    ensures var kept := Kept(s, rs, |rs|, own, env);
      && |kept| <= |rs| && (forall k :: 0 <= k < |kept| ==> RecordOk(kept[k]))
      && (ResponseOutcome(s, rs, own, env).Packet? <==>
            kept != [] && |PrintedMessage(0, RESPONSE_FLAGS, [], kept)| <= MAX_PACKET)
  {
    hide RecordOk, PrintedMessage, Kept;
    KeptAreOk(s, rs, |rs|, own, env);
  }
}
