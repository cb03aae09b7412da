/** What a restore writes and counts, in terms of the decoded rows and their times alone. */
module RestoreFacts {
  import opened Options
  import opened Account
  import opened Json
  import opened Bundle
  import opened Restore
  import opened RestoreLaws
  import opened Acceptance

  /** No time of the row is before the window opens or after it closes. */
  predicate AllWithin(cfg: Config, e: Entry) {
    forall k :: 0 <= k < |e.times| ==> cfg.from <= e.times[k] && e.times[k] <= cfg.to
  }

  /** No time of the row is before the retention cutoff, if there is one. */
  predicate Retained(cfg: Config, e: Entry) {
    match cfg.sampleFrom
    case None => true
    case Some(cutoff) => forall k :: 0 <= k < |e.times| ==> e.times[k] >= cutoff
  }

  /** A row to be written: of a drive or charge, when it lies in the window; of a sample, when it is also retained;
    * of any other kind, always. */
  predicate ToWrite(cfg: Config, kind: Kind, e: Entry) {
    match kind
    case Drives => AllWithin(cfg, e)
    case Charges => AllWithin(cfg, e)
    case Samples => AllWithin(cfg, e) && Retained(cfg, e)
    case _ => true
  }

  lemma AdmitIffToWrite(cfg: Config, kind: Kind, v: Value)
    requires WellTyped(cfg) && cfg.decode(kind, v).Some?
    ensures Judge(cfg, kind, cfg.decode(kind, v).value) == Admit <==> ToWrite(cfg, kind, cfg.decode(kind, v).value)
  {
    var e := cfg.decode(kind, v).value;
    assert Typed(kind, e);
    assert InWindow(cfg, e.times) <==> AllWithin(cfg, e) by {
      assert forall k :: 0 <= k < |e.times| ==> e.times[k] in e.times;
    }
  }

  // ---------------------------------------------------------------------------------------------
  // Every row written comes from such a row
  // ---------------------------------------------------------------------------------------------

  /** The row event ev decodes to a row to be written, and w writes it. */
  predicate WritesRow(cfg: Config, ev: Event, w: Write) {
    ev.Row? && cfg.decode(ev.kind, ev.value).Some? &&
    var e := cfg.decode(ev.kind, ev.value).value;
    ToWrite(cfg, ev.kind, e) && w == Put(e.key, e.cell)
  }

  predicate FromRow(cfg: Config, es: seq<Event>, w: Write) {
    w.Put? ==> exists i :: 0 <= i < |es| && WritesRow(cfg, es[i], w)
  }

  ghost predicate AllFromRows(cfg: Config, es: seq<Event>, ws: seq<Write>, batch: seq<Entry>) {
    && (forall w :: w in ws ==> FromRow(cfg, es, w))
    && forall e :: e in batch ==> FromRow(cfg, es, PutOf(e))
  }

  lemma FromRowGrows(cfg: Config, es: seq<Event>, ev: Event, w: Write)
    requires FromRow(cfg, es, w) || WritesRow(cfg, ev, w)
    ensures FromRow(cfg, es + [ev], w)
  {
    var all := es + [ev];
    assert all[|es|] == ev && forall i :: 0 <= i < |es| ==> all[i] == es[i];
  }

  lemma AllFromRowsGrow(cfg: Config, es: seq<Event>, ev: Event, ws: seq<Write>, batch: seq<Entry>)
    requires AllFromRows(cfg, es, ws, batch)
    ensures AllFromRows(cfg, es + [ev], ws, batch)
  {
    forall w | w in ws ensures FromRow(cfg, es + [ev], w) {
      FromRowGrows(cfg, es, ev, w);
    }
    forall e | e in batch ensures FromRow(cfg, es + [ev], PutOf(e)) {
      FromRowGrows(cfg, es, ev, PutOf(e));
    }
  }

  lemma {:induction false} PutsInBatch(es: seq<Entry>, w: Write)
    requires w in PutsFor(es)
    ensures exists e :: e in es && w == PutOf(e)
  {
    var n := |es| - 1;
    if w != PutOf(es[n]) {
      PutsInBatch(es[..n], w);
      var e :| e in es[..n] && w == PutOf(e);
      assert e in es;
    }
  }

  lemma FlushFromRows(cfg: Config, es: seq<Event>, s: Sink)
    requires AllFromRows(cfg, es, s.writes, s.batch)
    ensures AllFromRows(cfg, es, Flush(cfg, s).writes, Flush(cfg, s).batch)
  {
    forall w | w in PutsFor(s.batch) ensures FromRow(cfg, es, w) {
      PutsInBatch(s.batch, w);
    }
  }

  lemma StoreFromRows(cfg: Config, es: seq<Event>, s: Sink, kind: Kind, e: Entry)
    requires AllFromRows(cfg, es, s.writes, s.batch) && FromRow(cfg, es, PutOf(e))
    ensures AllFromRows(cfg, es, Store(cfg, s, kind, e).writes, Store(cfg, s, kind, e).batch)
  {
    if kind.Samples? {
      FlushFromRows(cfg, es, s.(batch := s.batch + [e]));
    }
  }

  lemma StepSinkIs(cfg: Config, st: State, ev: Event)
    ensures var s := Step(cfg, st, ev).sink;
            || s == st.sink || (Admits(cfg, ev) && s == Store(cfg, st.sink, ev.kind, EntryOf(cfg, ev)))
            || s == Flush(cfg, st.sink)
  {
  }

  lemma StepFromRows(cfg: Config, init: seq<Event>, ev: Event)
    requires WellTyped(cfg) && AllFromRows(cfg, init, After(cfg, init).sink.writes, After(cfg, init).sink.batch)
    ensures var s := After(cfg, init + [ev]).sink; AllFromRows(cfg, init + [ev], s.writes, s.batch)
  {
    var st := After(cfg, init);
    AfterSnoc(cfg, init, ev);
    AllFromRowsGrow(cfg, init, ev, st.sink.writes, st.sink.batch);
    StepSinkIs(cfg, st, ev);
    FlushFromRows(cfg, init + [ev], st.sink);
    if Admits(cfg, ev) {
      AdmittedFromRow(cfg, init, ev);
      StoreFromRows(cfg, init + [ev], st.sink, ev.kind, EntryOf(cfg, ev));
    }
  }

  lemma AdmittedFromRow(cfg: Config, init: seq<Event>, ev: Event)
    requires WellTyped(cfg) && Admits(cfg, ev)
    ensures FromRow(cfg, init + [ev], PutOf(EntryOf(cfg, ev)))
  {
    AdmitIffToWrite(cfg, ev.kind, ev.value);
    FromRowGrows(cfg, init, ev, PutOf(EntryOf(cfg, ev)));
  }

  lemma {:induction false} RunFromRows(cfg: Config, es: seq<Event>)
    requires WellTyped(cfg)
    ensures AllFromRows(cfg, es, After(cfg, es).sink.writes, After(cfg, es).sink.batch)
  {
    if es != [] {
      var n := |es| - 1;
      RunFromRows(cfg, es[..n]);
      StepFromRows(cfg, es[..n], es[n]);
      assert es == es[..n] + [es[n]];
    }
  }

  /** In every run on every file, failed or not, whatever is written is a row of the file with its times in the
    * window; a sample is also not older than the cutoff. */
  lemma OnlyTimelyRowsWritten(cfg: Config, es: seq<Event>, w: Write)
    requires WellTyped(cfg) && w in After(cfg, es).sink.writes && w.Put?
    ensures exists i :: 0 <= i < |es| && WritesRow(cfg, es[i], w)
    ensures w.key.SampleKey? ==>
              cfg.from <= w.key.at <= cfg.to && (cfg.sampleFrom.Some? ==> w.key.at >= cfg.sampleFrom.value)
  {
    RunFromRows(cfg, es);
    assert FromRow(cfg, es, w);
    var i :| 0 <= i < |es| && WritesRow(cfg, es[i], w);
    var e := cfg.decode(es[i].kind, es[i].value).value;
    assert Typed(es[i].kind, e);
    if w.key.SampleKey? {
      assert e.times[0] == w.key.at;
    }
  }

  // ---------------------------------------------------------------------------------------------
  // Every such row is written
  // ---------------------------------------------------------------------------------------------

  /** The rows to be written among vs, as their tables get them, in order. */
  function PutsDue(cfg: Config, vs: seq<Value>, kind: Kind): seq<Write> {
    if vs == [] then []
    else
      var n := |vs| - 1;
      var e := cfg.decode(kind, vs[n]);
      PutsDue(cfg, vs[..n], kind) +
      if e.Some? && ToWrite(cfg, kind, e.value) then [Put(e.value.key, e.value.cell)] else []
  }

  lemma {:induction false} PutsDueAreWanted(cfg: Config, vs: seq<Value>, kind: Kind)
    requires WellTyped(cfg)
    ensures PutsDue(cfg, vs, kind) == PutsFor(Rows(cfg, vs, kind, Admit))
  {
    if vs != [] {
      var n := |vs| - 1;
      PutsDueAreWanted(cfg, vs[..n], kind);
      var e := cfg.decode(kind, vs[n]);
      if e.Some? {
        AdmitIffToWrite(cfg, kind, vs[n]);
        PutsSnoc(Rows(cfg, vs[..n], kind, Admit), e.value);
      }
      var rows := Rows(cfg, vs[..n], kind, Admit);
      assert rows + [] == rows;
    }
  }

  lemma {:induction false} DueIsThere(cfg: Config, es: seq<Event>, i: nat, w: Write)
    requires i < |es| && WritesRow(cfg, es[i], w)
    ensures w in PutsDue(cfg, ValuesIn(es, es[i].kind), es[i].kind)
  {
    var n := |es| - 1;
    var kind := es[i].kind;
    var vs := ValuesIn(es[..n], kind);
    if i < n {
      DueIsThere(cfg, es[..n], i, w);
    }
    if es[n].Row? && es[n].kind == kind {
      assert (vs + [es[n].value])[..|vs|] == vs;
    } else {
      assert vs + [] == vs;
    }
  }

  lemma {:induction false} SentIsWritten(ws: seq<Write>, kind: Kind, w: Write)
    requires w in SentTo(ws, kind)
    ensures w in ws
  {
    var n := |ws| - 1;
    if w !in Sent(ws[n], kind) {
      SentIsWritten(ws[..n], kind, w);
    }
  }

  /** An accepted file: each table was sent its rows to be written, in file order, and nothing else. The tables of
    * trips, recaps, analyses and milestones get theirs when there is a database. */
  lemma TablesGetDueRows(cfg: Config, ts: Stream, kind: Kind)
    requires WellTyped(cfg) && Accepted(cfg, ScanObject(ts))
    requires kind == Drives || kind == Charges || kind == Samples || cfg.database
    ensures SentTo(StateOf(cfg, ScanObject(ts)).sink.writes, kind) ==
            PutsDue(cfg, ValuesIn(ScanObject(ts).events, kind), kind)
  {
    EveryTableGetsItsRows(cfg, ts, kind);
    PutsDueAreWanted(cfg, ValuesIn(ScanObject(ts).events, kind), kind);
  }

  /** So every timely row of an accepted file is written. */
  lemma EveryTimelyRowWritten(cfg: Config, ts: Stream, i: nat, w: Write)
    requires WellTyped(cfg) && Accepted(cfg, ScanObject(ts))
    requires i < |ScanObject(ts).events| && WritesRow(cfg, ScanObject(ts).events[i], w)
    requires var kind := ScanObject(ts).events[i].kind;
             kind == Drives || kind == Charges || kind == Samples || cfg.database
    ensures w in StateOf(cfg, ScanObject(ts)).sink.writes
  {
    var es := ScanObject(ts).events;
    TablesGetDueRows(cfg, ts, es[i].kind);
    DueIsThere(cfg, es, i, w);
    SentIsWritten(StateOf(cfg, ScanObject(ts)).sink.writes, es[i].kind, w);
  }

  // ---------------------------------------------------------------------------------------------
  // What is counted
  // ---------------------------------------------------------------------------------------------

  /** How many of vs decode to a row with a time outside the window. */
  function OutsideOf(cfg: Config, vs: seq<Value>, kind: Kind): nat {
    if vs == [] then 0
    else
      var n := |vs| - 1;
      var e := cfg.decode(kind, vs[n]);
      OutsideOf(cfg, vs[..n], kind) + if e.Some? && !AllWithin(cfg, e.value) then 1 else 0
  }

  /** How many of vs decode to a sample inside the window, but older than the cutoff. */
  function PastOf(cfg: Config, vs: seq<Value>): nat {
    if vs == [] then 0
    else
      var n := |vs| - 1;
      var e := cfg.decode(Samples, vs[n]);
      PastOf(cfg, vs[..n]) + if e.Some? && AllWithin(cfg, e.value) && !Retained(cfg, e.value) then 1 else 0
  }

  lemma WithinIff(cfg: Config, e: Entry)
    ensures InWindow(cfg, e.times) <==> AllWithin(cfg, e)
  {
    assert forall k :: 0 <= k < |e.times| ==> e.times[k] in e.times;
  }

  lemma {:induction false} OutsideIsSkipped(cfg: Config, vs: seq<Value>, kind: Kind)
    requires Timed(kind)
    ensures OutsideOf(cfg, vs, kind) == |Rows(cfg, vs, kind, SkipTime)|
  {
    if vs != [] {
      var n := |vs| - 1;
      OutsideIsSkipped(cfg, vs[..n], kind);
      if cfg.decode(kind, vs[n]).Some? {
        WithinIff(cfg, cfg.decode(kind, vs[n]).value);
      }
    }
  }

  lemma {:induction false} PastIsOld(cfg: Config, vs: seq<Value>)
    requires WellTyped(cfg)
    ensures PastOf(cfg, vs) == |Rows(cfg, vs, Samples, SkipOld)|
  {
    if vs != [] {
      var n := |vs| - 1;
      PastIsOld(cfg, vs[..n]);
      var e := cfg.decode(Samples, vs[n]);
      if e.Some? {
        WithinIff(cfg, e.value);
        assert Typed(Samples, e.value);
      }
    }
  }

  /** Until a run fails, it has counted the drives, charges and samples outside the window, and apart from them the
    * samples past the cutoff. */
  lemma CountsAreRight(cfg: Config, es: seq<Event>)
    requires WellTyped(cfg) && After(cfg, es).failure.None?
    ensures After(cfg, es).gate.skipped ==
            OutsideOf(cfg, ValuesIn(es, Drives), Drives) + OutsideOf(cfg, ValuesIn(es, Charges), Charges)
            + OutsideOf(cfg, ValuesIn(es, Samples), Samples)
    ensures After(cfg, es).gate.past == PastOf(cfg, ValuesIn(es, Samples))
  {
    CountersTrackRows(cfg, es);
    OutsideIsSkipped(cfg, ValuesIn(es, Drives), Drives);
    OutsideIsSkipped(cfg, ValuesIn(es, Charges), Charges);
    OutsideIsSkipped(cfg, ValuesIn(es, Samples), Samples);
    PastIsOld(cfg, ValuesIn(es, Samples));
  }
}
