/** What a restore writes, counts and refuses, as functions of the rows in its file. */
module RestoreLaws {
  import opened Options
  import opened Account
  import opened Json
  import opened Bundle
  import opened Restore

  function Flat(batches: seq<seq<Entry>>): seq<Entry> {
    if batches == [] then [] else var n := |batches| - 1; Flat(batches[..n]) + batches[n]
  }

  /** The samples taken so far, flushed or waiting. */
  function Gathered(s: Sink): seq<Entry> { Flat(s.batches) + s.batch }

  /** The rows sent to a table, and those waiting for it. */
  function Due(s: Sink, kind: Kind): seq<Write> {
    SentTo(s.writes, kind) + if kind.Samples? then PutsFor(s.batch) else []
  }

  predicate Kept(cfg: Config, kind: Kind) { Timed(kind) || cfg.database }

  predicate BatchesFit(s: Sink) {
    && s.Ok() && |s.batch| < BATCH
    && (forall e :: e in s.batch ==> TableOf(e.key) == Samples)
    && (forall b :: b in s.batches ==> 0 < |b| <= BATCH)
  }

  // ---------------------------------------------------------------------------------------------
  // One step
  // ---------------------------------------------------------------------------------------------

  lemma SentAfterFlush(ws: seq<Write>, vs: seq<Write>, es: seq<Entry>, kind: Kind)
    requires (forall w :: w in vs ==> w.Vehicle?) && forall e :: e in es ==> TableOf(e.key) == Samples
    ensures SentTo(ws + vs + PutsFor(es), kind) == SentTo(ws, kind) + if kind.Samples? then PutsFor(es) else []
  {
    NoneSent(vs, kind);
    PutsSent(es, Samples, kind);
    SentToAppend(ws, vs, kind);
    SentToAppend(ws + vs, PutsFor(es), kind);
  }

  lemma FlushDue(cfg: Config, s: Sink, kind: Kind)
    requires (forall e :: e in s.batch ==> TableOf(e.key) == Samples) && Flush(cfg, s).Ok()
    ensures Due(Flush(cfg, s), kind) == Due(s, kind)
  {
    if s.batch != [] {
      SentAfterFlush(s.writes, Resolve(s.batch).0, s.batch, kind);
      assert PutsFor([]) == [];
    }
  }

  lemma FlushFits(cfg: Config, s: Sink)
    requires |s.batch| <= BATCH && (forall b :: b in s.batches ==> 0 < |b| <= BATCH) && Flush(cfg, s).Ok()
    ensures BatchesFit(Flush(cfg, s)) && Flush(cfg, s).batch == [] && Gathered(Flush(cfg, s)) == Gathered(s)
  {
  }

  lemma StoreSampleDue(cfg: Config, s: Sink, e: Entry, kind: Kind)
    requires BatchesFit(s) && TableOf(e.key) == Samples && Store(cfg, s, Samples, e).Ok()
    ensures Due(Store(cfg, s, Samples, e), kind) == Due(s, kind) + Sent(PutOf(e), kind)
  {
    var s' := s.(batch := s.batch + [e]);
    PutsSnoc(s.batch, e);
    assert Due(s', kind) == Due(s, kind) + Sent(PutOf(e), kind);
    if |s'.batch| == BATCH {
      FlushDue(cfg, s', kind);
    }
  }

  lemma StoreOtherDue(cfg: Config, s: Sink, to: Kind, e: Entry, kind: Kind)
    requires TableOf(e.key) == to && !to.Samples? && Store(cfg, s, to, e).Ok()
    ensures Due(Store(cfg, s, to, e), kind) == Due(s, kind) + if Kept(cfg, to) then Sent(PutOf(e), kind) else []
  {
    if Timed(to) {
      SentSession(s.writes, e.vehicle, PutOf(e), kind);
    }
  }

  lemma StoreDue(cfg: Config, s: Sink, to: Kind, e: Entry, kind: Kind)
    requires BatchesFit(s) && TableOf(e.key) == to && Store(cfg, s, to, e).Ok()
    ensures Due(Store(cfg, s, to, e), kind) == Due(s, kind) + if to == kind && Kept(cfg, kind) then [PutOf(e)] else []
  {
    if to.Samples? {
      StoreSampleDue(cfg, s, e, kind);
    } else {
      StoreOtherDue(cfg, s, to, e, kind);
    }
  }

  lemma StoreFits(cfg: Config, s: Sink, to: Kind, e: Entry)
    requires BatchesFit(s) && TableOf(e.key) == to && Store(cfg, s, to, e).Ok()
    ensures BatchesFit(Store(cfg, s, to, e))
    ensures Gathered(Store(cfg, s, to, e)) == Gathered(s) + if to.Samples? then [e] else []
  {
    if to.Samples? {
      var s' := s.(batch := s.batch + [e]);
      assert Gathered(s') == Gathered(s) + [e];
      if |s'.batch| == BATCH {
        FlushFits(cfg, s');
      }
    }
  }

  /** What one event adds to a table. */
  function Gain(cfg: Config, ev: Event, kind: Kind): seq<Write> {
    if Admits(cfg, ev) && ev.kind == kind && Kept(cfg, kind) then [PutOf(EntryOf(cfg, ev))] else []
  }

  lemma StepDue(cfg: Config, st: State, ev: Event, kind: Kind)
    requires WellTyped(cfg) && BatchesFit(st.sink) && Fine(cfg, st, ev)
    ensures Due(Step(cfg, st, ev).sink, kind) == Due(st.sink, kind) + Gain(cfg, ev, kind)
  {
    StepSink(cfg, st, ev);
    if Admits(cfg, ev) {
      TypedTable(ev.kind, EntryOf(cfg, ev));
      StoreDue(cfg, st.sink, ev.kind, EntryOf(cfg, ev), kind);
    } else if ev.Finished? && ev.kind.Samples? {
      FlushDue(cfg, st.sink, kind);
    }
  }

  lemma StepFits(cfg: Config, st: State, ev: Event)
    requires WellTyped(cfg) && BatchesFit(st.sink) && Fine(cfg, st, ev)
    ensures BatchesFit(Step(cfg, st, ev).sink)
    ensures Gathered(Step(cfg, st, ev).sink) == Gathered(st.sink) + RowOf(cfg, ev, Samples, Admit)
  {
    StepSink(cfg, st, ev);
    if Admits(cfg, ev) {
      TypedTable(ev.kind, EntryOf(cfg, ev));
      StoreFits(cfg, st.sink, ev.kind, EntryOf(cfg, ev));
    } else if ev.Finished? && ev.kind.Samples? {
      FlushFits(cfg, st.sink);
    }
  }

  // ---------------------------------------------------------------------------------------------
  // What is written
  // ---------------------------------------------------------------------------------------------

  /** The admitted rows as the table gets them. */
  function Wanted(cfg: Config, es: seq<Event>, kind: Kind): seq<Write> {
    if Kept(cfg, kind) then PutsFor(RowsIn(cfg, es, kind, Admit)) else []
  }

  lemma WantedSnoc(cfg: Config, es: seq<Event>, ev: Event, kind: Kind)
    ensures Wanted(cfg, es + [ev], kind) == Wanted(cfg, es, kind) + Gain(cfg, ev, kind)
  {
    RowsInSnoc(cfg, es, ev, kind, Admit);
    var rows, row := RowsIn(cfg, es, kind, Admit), RowOf(cfg, ev, kind, Admit);
    if row == [] {
      assert rows + row == rows;
    } else {
      PutsSnoc(rows, row[0]);
    }
  }

  /** As long as nothing failed, the batches hold exactly the admitted samples, in file order. */
  lemma {:induction false} BatchesTrackSamples(cfg: Config, es: seq<Event>)
    requires WellTyped(cfg) && After(cfg, es).failure.None?
    ensures BatchesFit(After(cfg, es).sink) && Gathered(After(cfg, es).sink) == RowsIn(cfg, es, Samples, Admit)
  {
    if es != [] {
      var n := |es| - 1;
      BatchesTrackSamples(cfg, es[..n]);
      StepFits(cfg, After(cfg, es[..n]), es[n]);
      assert es == es[..n] + [es[n]];
      RowsInSnoc(cfg, es[..n], es[n], Samples, Admit);
    }
  }

  lemma AfterSnoc(cfg: Config, init: seq<Event>, ev: Event)
    ensures After(cfg, init + [ev]) == Step(cfg, After(cfg, init), ev)
    ensures After(cfg, init + [ev]).failure.None? ==> Fine(cfg, After(cfg, init), ev)
  {
    assert (init + [ev])[..|init|] == init;
  }

  /** One event more keeps a property of event lists. */
  ghost predicate Rung(good: iset<seq<Event>>, ok: iset<seq<Event>>, init: seq<Event>, ev: Event) {
    init + [ev] in good ==> init in good && (init in ok ==> init + [ev] in ok)
  }

  /** Then every good list has it. */
  lemma {:induction false} Ladder(good: iset<seq<Event>>, ok: iset<seq<Event>>, es: seq<Event>)
    requires [] in ok && (forall init, ev :: Rung(good, ok, init, ev)) && es in good
    ensures es in ok
  {
    if es != [] {
      var n := |es| - 1;
      assert es == es[..n] + [es[n]] && Rung(good, ok, es[..n], es[n]);
      Ladder(good, ok, es[..n]);
    }
  }

  ghost predicate DueAsWanted(cfg: Config, st: State, es: seq<Event>, kind: Kind) {
    Due(st.sink, kind) == Wanted(cfg, es, kind)
  }

  lemma DueStep(cfg: Config, init: seq<Event>, ev: Event, st: State, kind: Kind)
    requires WellTyped(cfg) && BatchesFit(st.sink) && Fine(cfg, st, ev) && DueAsWanted(cfg, st, init, kind)
    ensures DueAsWanted(cfg, Step(cfg, st, ev), init + [ev], kind)
  {
    StepDue(cfg, st, ev, kind);
    WantedSnoc(cfg, init, ev, kind);
  }

  lemma DueRung(cfg: Config, init: seq<Event>, ev: Event, kind: Kind)
    requires WellTyped(cfg) && After(cfg, init + [ev]).failure.None?
    ensures After(cfg, init).failure.None?
    ensures DueAsWanted(cfg, After(cfg, init), init, kind) ==>
            DueAsWanted(cfg, After(cfg, init + [ev]), init + [ev], kind)
  {
    AfterSnoc(cfg, init, ev);
    if DueAsWanted(cfg, After(cfg, init), init, kind) {
      BatchesTrackSamples(cfg, init);
      DueStep(cfg, init, ev, After(cfg, init), kind);
    }
  }

  /** As long as nothing failed, every table got exactly its admitted rows, in file order, except the
    * samples that still wait in the batch. */
  lemma WritesTrackRows(cfg: Config, es: seq<Event>, kind: Kind)
    requires WellTyped(cfg) && After(cfg, es).failure.None?
    ensures Due(After(cfg, es).sink, kind) == Wanted(cfg, es, kind)
  {
    var good := iset fs | After(cfg, fs).failure.None?;
    var ok := iset fs | DueAsWanted(cfg, After(cfg, fs), fs, kind);
    forall init, ev ensures Rung(good, ok, init, ev) {
      if init + [ev] in good {
        DueRung(cfg, init, ev, kind);
      }
    }
    Ladder(good, ok, es);
  }

  // ---------------------------------------------------------------------------------------------
  // Where the batches end
  // ---------------------------------------------------------------------------------------------

  /** The admitted samples of a file in batches: those complete, and the one still open. */
  datatype Batches = Batches(full: seq<seq<Entry>>, open: seq<Entry>)

  function Closed(b: Batches): Batches {
    if b.open == [] then b else Batches(b.full + [b.open], [])
  }

  /** A batch is complete with 2000 samples, or at the end of an array. */
  function Next(cfg: Config, b: Batches, ev: Event): Batches {
    if Admits(cfg, ev) && ev.kind.Samples? then
      var b' := b.(open := b.open + [EntryOf(cfg, ev)]);
      if |b'.open| == 2000 then Closed(b') else b'
    else if ev.Finished? && ev.kind.Samples? then Closed(b)
    else b
  }

  function BatchesIn(cfg: Config, es: seq<Event>): Batches {
    if es == [] then Batches([], []) else var n := |es| - 1; Next(cfg, BatchesIn(cfg, es[..n]), es[n])
  }

  lemma BatchesSnoc(cfg: Config, es: seq<Event>, ev: Event)
    ensures BatchesIn(cfg, es + [ev]) == Next(cfg, BatchesIn(cfg, es), ev)
  {
    assert (es + [ev])[..|es|] == es;
  }

  /** No batch of more than 120 months. */
  ghost predicate Narrow(cfg: Config, batches: seq<seq<Entry>>) {
    forall b :: b in batches ==> |MonthsOf(cfg, b)| <= 120
  }

  predicate Mirrors(s: Sink, b: Batches) { s.batches == b.full && s.batch == b.open }

  lemma FlushMirrors(cfg: Config, s: Sink, b: Batches)
    requires Mirrors(s, b) && s.Ok() && Flush(cfg, s).Ok() && Narrow(cfg, s.batches)
    ensures Mirrors(Flush(cfg, s), Closed(b)) && Narrow(cfg, Flush(cfg, s).batches)
  {
  }

  lemma StepMirrors(cfg: Config, st: State, ev: Event, b: Batches)
    requires Fine(cfg, st, ev) && st.sink.Ok() && Mirrors(st.sink, b) && Narrow(cfg, st.sink.batches)
    ensures Mirrors(Step(cfg, st, ev).sink, Next(cfg, b, ev)) && Narrow(cfg, Step(cfg, st, ev).sink.batches)
    ensures Step(cfg, st, ev).sink.Ok()
  {
    StepSink(cfg, st, ev);
    if Admits(cfg, ev) && ev.kind.Samples? {
      var batch := st.sink.batch + [EntryOf(cfg, ev)];
      if |batch| == BATCH {
        FlushMirrors(cfg, st.sink.(batch := batch), b.(open := batch));
      }
    } else if ev.Finished? && ev.kind.Samples? {
      FlushMirrors(cfg, st.sink, b);
    }
  }

  /** As long as nothing failed, the batches inserted are those, none of them with too many months. */
  lemma {:induction false} BatchesAsCut(cfg: Config, es: seq<Event>)
    requires After(cfg, es).failure.None?
    ensures Mirrors(After(cfg, es).sink, BatchesIn(cfg, es)) && After(cfg, es).sink.Ok()
    ensures Narrow(cfg, BatchesIn(cfg, es).full)
  {
    if es != [] {
      var n := |es| - 1;
      BatchesAsCut(cfg, es[..n]);
      StepMirrors(cfg, After(cfg, es[..n]), es[n], BatchesIn(cfg, es[..n]));
    }
  }
}
