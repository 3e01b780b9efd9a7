/**
 * A request any client can make from the default settings, whose save succeeds and whose file nobody can read:
 * the check before a save does not look at the size of the whole file.
 */
module UnreadableSave {
  import opened Bytes
  import opened ActionWorker
  import opened ActionProtocol
  import Cfg = Settings
  import D = DefaultSettings

  const QUOTES: nat := 16350
  const BODY_START: bytes := Ascii("{\"axiom_interface\":\"")
  const BODY_END: bytes := Ascii("\"}")

  /** The JSON body that sets only the unused interface name, to octets that need no escaping. */
  function Body(name: bytes): bytes {
    BODY_START + name + BODY_END
  }

  /** The defaults with that one field replaced, as decoding over the defaults gives. */
  function Crowded(): Cfg.Settings {
    Cfg.DEFAULTS.(axiomInterface := Cfg.Quotes(QUOTES))
  }

  lemma BodyFits()
    ensures |Body(Cfg.Quotes(QUOTES))| == 16372 <= MAX_PAYLOAD
  {
    hide Cfg.Quotes;
    assert |BODY_START| == 20 && |BODY_END| == 2;
  }

  /** The record is valid and is saved, and the file cannot be read. */
  lemma CrowdedUnreadable()
    ensures Cfg.Valid(Crowded()) && Cfg.SettingsFrom(Cfg.FileOf(Crowded())) == Some(Crowded())
    ensures Cfg.ReadSettings(Cfg.FileOf(Crowded())) == None
  {
    hide Cfg.Valid, Cfg.SettingsFrom, Cfg.FileOf, Cfg.Quotes, Cfg.ReadSettings;
    D.DefaultsRoundTrip();
    Cfg.SavedButTooLargeToRead(Cfg.DEFAULTS, Crowded());
  }

  lemma CrowdedChanges()
    ensures Crowded() != Cfg.DEFAULTS && !Crowded().enabled
    ensures Crowded().(remoteInterfaces := Cfg.Distinct(Crowded().remoteInterfaces)) == Crowded()
  {
    hide Cfg.Quotes;
    assert |Crowded().axiomInterface| == QUOTES && |Cfg.DEFAULTS.axiomInterface| == 6;
    D.OneIsDistinct(Ascii("br-lan"));
  }

  /** The surroundings of a request in which everything works. */
  predicate Works(l: Luck) {
    l.readable && l.initScript && l.io.Works() && l.random && l.store && l.log && l.spawn
  }

  /**
   * From the default file, in surroundings where everything works, the request with this body is accepted and its
   * worker starts; but no worker step can then read the settings, and the action ends as failed.
   */
  lemma AcceptedThenFails(w: World, id: nat, l: Luck, f: Fate)
    requires Cfg.Valid(Cfg.DEFAULTS) && w.live == Cfg.FileOf(Cfg.DEFAULTS) && w.holders == {ByRequest(id)} && Works(l)
        && f.written
    ensures var input := Payload(Body(Cfg.Quotes(QUOTES)), Some(Crowded()));
      var (after, p) := Settle(w, id, Arriving(Save, Opened(input)), l);
      && p.worker.Started?
      && Cfg.ReadSettings(after.live) == None
      && WorkerStep(after, id, p, f).0.record == Some(Record(id, p.kind, Failed))
      && WorkerStep(after, id, p, f).1.worker.Ended?
  {
    hide Cfg.Valid, Cfg.SettingsFrom, Cfg.FileOf, Cfg.Quotes, Cfg.ReadSettings, Settle, Body, Cfg.Distinct;
    D.DefaultsRoundTrip();
    CrowdedUnreadable();
    CrowdedChanges();
    BodyFits();
    var input := Payload(Body(Cfg.Quotes(QUOTES)), Some(Crowded()));
    AcceptedIff(w, id, Save, input, l);
    CommittedFile(w, id, input, l);
  }

  /** What the file is after a changing request that was decided and could be saved. */
  lemma CommittedFile(w: World, id: nat, input: Payload, l: Luck)
    requires w.holders == {ByRequest(id)}
    requires var d := Decide(Save, w.live, input, l); d.Decided? && d.changed && Saves(d.settings, l.io)
    ensures Settle(w, id, Arriving(Save, Opened(input)), l).0.live ==
            Cfg.FileOf(Decide(Save, w.live, input, l).settings)
  {
    hide Settle, Decide, Saves, Cfg.SettingsFrom, Cfg.FileOf;
    var p := Arriving(Save, Opened(input));
    var d := Decide(Save, w.live, input, l);
    var c := d.settings;
    SavedReads(c, l.io);
    Onward(w, id, p, l);
    var q := p.(request := d, committed := Some(c));
    Onward(w, id, q, l);
    var saved := w.(live := Cfg.FileOf(c));
    Onward(saved, id, q.(request := Committed(c, true)), l);
    var released := if !c.manageIP && l.remove then saved.(marker := false) else saved;
    LaunchedIff(released, id, q.(request := Released(c)), l);
  }
}
