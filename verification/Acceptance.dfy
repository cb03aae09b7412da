/** Which files a restore accepts, and what becomes of every row of an accepted one. */
module Acceptance {
  import opened Options
  import opened Seqs
  import opened Sets
  import opened Account
  import opened Json
  import opened Bundle
  import opened Restore
  import opened RestoreLaws

  // ---------------------------------------------------------------------------------------------
  // A complete file leaves no batch behind
  // ---------------------------------------------------------------------------------------------

  /** Some samples came after the last end of a samples array. */
  predicate Open(es: seq<Event>) {
    if es == [] then false
    else
      var n := |es| - 1;
      match es[n]
      case Row(kind, _) => kind.Samples? || Open(es[..n])
      case Finished(kind) => !kind.Samples? && Open(es[..n])
      case Key(_) => Open(es[..n])
  }

  lemma {:induction false} ClosedFields(a: seq<Event>, ts: Stream, first: bool)
    requires !Open(a) && ScanFields(ts, first).complete
    ensures !Open(a + ScanFields(ts, first).events)
    decreases Length(ts), 0
  {
    if ts.Tok? && ts.head == BraceClose {
      assert a + [] == a;
    } else {
      var name := ReadName(ts, first).value;
      ClosedValue(a + [Key(name.0)], KindOf(name.0), name.1);
      Regroup(a, [Key(name.0)], ScanValue(KindOf(name.0), name.1).events);
    }
  }

  lemma {:induction false} ClosedValue(a: seq<Event>, kind: Option<Kind>, ts: Stream)
    requires !Open(a) && ScanValue(kind, ts).complete
    ensures !Open(a + ScanValue(kind, ts).events)
    decreases Length(ts), 1
  {
    if kind.None? {
      ClosedFields(a, Read(ts).value.1, false);
    } else if ts.head == NullTok {
      ClosedFields(a + [Finished(kind.value)], ts.tail, false);
      Regroup(a, [Finished(kind.value)], ScanFields(ts.tail, false).events);
    } else {
      ClosedRows(a, kind.value, ts.tail, true);
    }
  }

  lemma {:induction false} ClosedRows(a: seq<Event>, kind: Kind, ts: Stream, first: bool)
    requires (kind.Samples? || !Open(a)) && ScanRows(kind, ts, first).complete
    ensures !Open(a + ScanRows(kind, ts, first).events)
    decreases Length(ts), 0
  {
    if ts.Tok? && ts.head == BracketClose {
      ClosedFields(a + [Finished(kind)], ts.tail, false);
      Regroup(a, [Finished(kind)], ScanFields(ts.tail, false).events);
    } else {
      var v := Read(Skip(ts, first).value).value;
      ClosedRows(a + [Row(kind, v.0)], kind, v.1, false);
      Regroup(a, [Row(kind, v.0)], ScanRows(kind, v.1, false).events);
    }
  }

  lemma {:induction false} BatchOnlyWhenOpen(cfg: Config, es: seq<Event>)
    requires WellTyped(cfg) && After(cfg, es).failure.None? && !Open(es)
    ensures After(cfg, es).sink.batch == []
  {
    if es != [] {
      var n := |es| - 1;
      assert es == es[..n] + [es[n]];
      if !Open(es[..n]) {
        BatchOnlyWhenOpen(cfg, es[..n]);
      }
      BatchesTrackSamples(cfg, es[..n]);
      StepSink(cfg, After(cfg, es[..n]), es[n]);
    }
  }

  lemma NothingWaits(cfg: Config, ts: Stream)
    requires WellTyped(cfg) && ScanObject(ts).complete && StateOf(cfg, ScanObject(ts)).failure.None?
    ensures StateOf(cfg, ScanObject(ts)).sink.batch == []
  {
    ClosedFields([], ts.tail, true);
    assert [] + ScanFields(ts.tail, true).events == ScanObject(ts).events;
    BatchOnlyWhenOpen(cfg, ScanObject(ts).events);
  }

  // ---------------------------------------------------------------------------------------------
  // The vehicle gate
  // ---------------------------------------------------------------------------------------------

  /** A row of this kind that reaches the gate names the vehicle. */
  predicate Refers(cfg: Config, es: seq<Event>, kind: Kind, id: string) {
    exists e :: e in RowsIn(cfg, es, kind, Admit) && e.vehicle == id
  }

  /** The file refers to a vehicle that is not on the account. */
  predicate Unknown(cfg: Config, es: seq<Event>, id: string) {
    id !in cfg.owned &&
    (Refers(cfg, es, Drives, id) || Refers(cfg, es, Charges, id) || Refers(cfg, es, Samples, id)
        || Refers(cfg, es, Milestones, id))
  }

  function Ids(cfg: Config, es: seq<Event>, kind: Kind): set<string> {
    set e | e in RowsIn(cfg, es, kind, Admit) :: e.vehicle
  }

  /** The vehicles a file refers to that are not on the account: those of its drives, charges and samples
    * inside the window and of its milestones. No order matters. */
  function NewIds(cfg: Config, es: seq<Event>): (ids: set<string>)
    ensures forall id :: id in ids <==> Unknown(cfg, es, id)
  {
    Ids(cfg, es, Drives) + Ids(cfg, es, Charges) + Ids(cfg, es, Samples) + Ids(cfg, es, Milestones) - cfg.owned
  }

  predicate RefersNow(cfg: Config, ev: Event, kind: Kind, id: string) {
    Admits(cfg, ev) && ev.kind == kind && EntryOf(cfg, ev).vehicle == id
  }

  lemma RefersSnoc(cfg: Config, es: seq<Event>, ev: Event, kind: Kind, id: string)
    ensures Refers(cfg, es + [ev], kind, id) <==> Refers(cfg, es, kind, id) || RefersNow(cfg, ev, kind, id)
  {
    RowsInSnoc(cfg, es, ev, kind, Admit);
    var rows, row := RowsIn(cfg, es, kind, Admit), RowOf(cfg, ev, kind, Admit);
    if RefersNow(cfg, ev, kind, id) {
      assert EntryOf(cfg, ev) in rows + row;
    }
    if e :| e in rows && e.vehicle == id {
      assert e in rows + row;
    }
  }

  predicate UnknownNow(cfg: Config, ev: Event, id: string) {
    Admits(cfg, ev) && Gated(ev.kind) && EntryOf(cfg, ev).vehicle == id && id !in cfg.owned
  }

  lemma UnknownSnoc(cfg: Config, es: seq<Event>, ev: Event, id: string)
    ensures Unknown(cfg, es + [ev], id) <==> Unknown(cfg, es, id) || UnknownNow(cfg, ev, id)
  {
    RefersSnoc(cfg, es, ev, Drives, id);
    RefersSnoc(cfg, es, ev, Charges, id);
    RefersSnoc(cfg, es, ev, Samples, id);
    RefersSnoc(cfg, es, ev, Milestones, id);
  }

  lemma {:induction false} GateTracksId(cfg: Config, es: seq<Event>, id: string)
    requires After(cfg, es).failure.None?
    ensures id in After(cfg, es).gate.added <==> Unknown(cfg, es, id)
  {
    if es != [] {
      var n := |es| - 1;
      GateTracksId(cfg, es[..n], id);
      UnknownSnoc(cfg, es[..n], es[n], id);
      assert es == es[..n] + [es[n]];
    }
  }

  lemma {:induction false} GateHolds(cfg: Config, es: seq<Event>)
    requires After(cfg, es).failure.None?
    ensures |After(cfg, es).gate.added| <= MAX_NEW_VEHICLES
  {
    if es != [] {
      var n := |es| - 1;
      GateHolds(cfg, es[..n]);
      StepGate(cfg, After(cfg, es[..n]), es[n]);
    }
  }

  /** The gate has let in exactly the new vehicles so far. */
  lemma GateTracksIds(cfg: Config, es: seq<Event>)
    requires After(cfg, es).failure.None?
    ensures After(cfg, es).gate.added == NewIds(cfg, es) && |NewIds(cfg, es)| <= MAX_NEW_VEHICLES
  {
    forall id ensures id in After(cfg, es).gate.added <==> id in NewIds(cfg, es) {
      GateTracksId(cfg, es, id);
    }
    GateHolds(cfg, es);
    assert After(cfg, es).gate.added == NewIds(cfg, es);
  }

  // ---------------------------------------------------------------------------------------------
  // Rows without a vehicle, rows that do not decode
  // ---------------------------------------------------------------------------------------------

  predicate Named(rows: seq<Entry>) { forall e :: e in rows ==> e.vehicle != "" }

  lemma {:induction false} ResolvesWhenNamed(es: seq<Entry>)
    ensures (forall w :: w in Resolve(es).0 ==> w.id != "") && (Resolve(es).1 <==> Named(es))
  {
    if es != [] {
      var n := |es| - 1;
      ResolvesWhenNamed(es[..n]);
      assert es == es[..n] + [es[n]];
      assert Named(es) <==> Named(es[..n]) && es[n].vehicle != "";
    }
  }

  predicate NamedSessions(cfg: Config, es: seq<Event>) {
    Named(RowsIn(cfg, es, Drives, Admit)) && Named(RowsIn(cfg, es, Charges, Admit))
  }

  predicate NamedSession(cfg: Config, ev: Event) {
    Named(RowOf(cfg, ev, Drives, Admit)) && Named(RowOf(cfg, ev, Charges, Admit))
  }

  lemma NamedSnoc(cfg: Config, es: seq<Event>, ev: Event)
    ensures NamedSessions(cfg, es + [ev]) <==> NamedSessions(cfg, es) && NamedSession(cfg, ev)
  {
    RowsInSnoc(cfg, es, ev, Drives, Admit);
    RowsInSnoc(cfg, es, ev, Charges, Admit);
  }

  predicate DecodableRow(cfg: Config, ev: Event) { ev.Row? ==> cfg.decode(ev.kind, ev.value).Some? }

  lemma FlushNames(cfg: Config, s: Sink)
    requires s.Ok() && Named(Flat(s.batches)) && Flush(cfg, s).Ok()
    ensures Named(Flat(Flush(cfg, s).batches))
  {
    ResolvesWhenNamed(s.batch);
  }

  lemma StepNames(cfg: Config, st: State, ev: Event)
    requires Fine(cfg, st, ev) && st.sink.Ok() && Named(Flat(st.sink.batches))
    ensures DecodableRow(cfg, ev) && NamedSession(cfg, ev) && Named(Flat(Step(cfg, st, ev).sink.batches))
  {
    StepSink(cfg, st, ev);
    StepGate(cfg, st, ev);
    if Admits(cfg, ev) {
      if ev.kind.Samples? && |st.sink.batch| + 1 == BATCH {
        FlushNames(cfg, st.sink.(batch := st.sink.batch + [EntryOf(cfg, ev)]));
      }
    } else if ev.Finished? && ev.kind.Samples? {
      FlushNames(cfg, st.sink);
    }
  }

  lemma {:induction false} SuccessMeansSound(cfg: Config, es: seq<Event>)
    requires WellTyped(cfg) && After(cfg, es).failure.None?
    ensures Decodable(cfg, es) && NamedSessions(cfg, es) && Named(Flat(After(cfg, es).sink.batches))
  {
    if es != [] {
      var n := |es| - 1;
      SuccessMeansSound(cfg, es[..n]);
      BatchesTrackSamples(cfg, es[..n]);
      StepNames(cfg, After(cfg, es[..n]), es[n]);
      assert es == es[..n] + [es[n]];
      NamedSnoc(cfg, es[..n], es[n]);
    }
  }

  // ---------------------------------------------------------------------------------------------
  // Acceptance, exactly
  // ---------------------------------------------------------------------------------------------

  /** Every element decodes, no session or sample inside the window lacks a vehicle, at most five vehicles are
    * new, and no batch of samples spans more than 120 months. */
  ghost predicate Sound(cfg: Config, es: seq<Event>) {
    && Decodable(cfg, es) && NamedSessions(cfg, es) && Named(RowsIn(cfg, es, Samples, Admit))
    && |NewIds(cfg, es)| <= 5 && Narrow(cfg, BatchesIn(cfg, es).full)
  }

  ghost predicate SoundEvent(cfg: Config, ev: Event) {
    DecodableRow(cfg, ev) && NamedSession(cfg, ev) && Named(RowOf(cfg, ev, Samples, Admit))
  }

  lemma NarrowShrinks(cfg: Config, es: seq<Event>, ev: Event)
    requires Narrow(cfg, BatchesIn(cfg, es + [ev]).full)
    ensures Narrow(cfg, BatchesIn(cfg, es).full)
  {
    BatchesSnoc(cfg, es, ev);
  }

  lemma NewIdsGrow(cfg: Config, es: seq<Event>, ev: Event)
    ensures |NewIds(cfg, es)| <= |NewIds(cfg, es + [ev])|
  {
    forall id | id in NewIds(cfg, es) ensures id in NewIds(cfg, es + [ev]) {
      UnknownSnoc(cfg, es, ev, id);
    }
    SubsetNoLarger(NewIds(cfg, es), NewIds(cfg, es + [ev]));
  }

  lemma DecodableShrinks(cfg: Config, es: seq<Event>, ev: Event)
    requires Decodable(cfg, es + [ev])
    ensures Decodable(cfg, es) && DecodableRow(cfg, ev)
  {
    forall kind, v | v in ValuesIn(es, kind) ensures cfg.decode(kind, v).Some? {
      ValuesSnoc(es, ev, kind);
      assert v in ValuesIn(es + [ev], kind);
    }
    if ev.Row? {
      ValuesSnoc(es, ev, ev.kind);
      assert ev.value in ValuesIn(es + [ev], ev.kind);
    }
  }

  lemma SoundShrinks(cfg: Config, es: seq<Event>, ev: Event)
    requires Sound(cfg, es + [ev])
    ensures Sound(cfg, es) && SoundEvent(cfg, ev)
  {
    NamedSnoc(cfg, es, ev);
    RowsInSnoc(cfg, es, ev, Samples, Admit);
    NewIdsGrow(cfg, es, ev);
    DecodableShrinks(cfg, es, ev);
    NarrowShrinks(cfg, es, ev);
  }

  lemma StoreSucceeds(cfg: Config, s: Sink, to: Kind, e: Entry)
    requires s.Ok() && Named(s.batch) && (Timed(to) ==> e.vehicle != "")
    requires to.Samples? && |s.batch| + 1 == BATCH ==> FewMonths(cfg, s.batch + [e])
    ensures Store(cfg, s, to, e).Ok() && Named(Store(cfg, s, to, e).batch)
  {
    if to.Samples? {
      ResolvesWhenNamed(s.batch + [e]);
    }
  }

  predicate Ready(st: State) { st.failure.None? && st.sink.Ok() && Named(st.sink.batch) }

  /** What the batches in a sink become. */
  function NextOf(cfg: Config, s: Sink, ev: Event): seq<seq<Entry>> { Next(cfg, Batches(s.batches, s.batch), ev).full }

  lemma StepSucceeds(cfg: Config, st: State, ev: Event)
    requires Ready(st) && SoundEvent(cfg, ev) && Narrow(cfg, NextOf(cfg, st.sink, ev))
    requires Admits(cfg, ev) ==> |Adding(cfg, st.gate.added, ev.kind, EntryOf(cfg, ev).vehicle)| <= MAX_NEW_VEHICLES
    ensures Ready(Step(cfg, st, ev))
  {
    if Admits(cfg, ev) {
      assert RowOf(cfg, ev, ev.kind, Admit) == [EntryOf(cfg, ev)];
      var e := EntryOf(cfg, ev);
      if ev.kind.Samples? && |st.sink.batch| + 1 == BATCH {
        assert NextOf(cfg, st.sink, ev) == st.sink.batches + [st.sink.batch + [e]];
      }
      StoreSucceeds(cfg, st.sink, ev.kind, e);
    } else if ev.Finished? {
      ResolvesWhenNamed(st.sink.batch);
      if ev.kind.Samples? && st.sink.batch != [] {
        assert NextOf(cfg, st.sink, ev) == st.sink.batches + [st.sink.batch];
      }
    }
  }

  lemma GateLetsIn(cfg: Config, es: seq<Event>, ev: Event)
    requires After(cfg, es).failure.None? && Admits(cfg, ev) && |NewIds(cfg, es + [ev])| <= MAX_NEW_VEHICLES
    ensures |Adding(cfg, After(cfg, es).gate.added, ev.kind, EntryOf(cfg, ev).vehicle)| <= MAX_NEW_VEHICLES
  {
    var added := Adding(cfg, After(cfg, es).gate.added, ev.kind, EntryOf(cfg, ev).vehicle);
    forall id | id in added ensures id in NewIds(cfg, es + [ev]) {
      GateTracksId(cfg, es, id);
      UnknownSnoc(cfg, es, ev, id);
    }
    SubsetNoLarger(added, NewIds(cfg, es + [ev]));
  }

  lemma SoundStep(cfg: Config, init: seq<Event>, ev: Event, st: State)
    requires st == After(cfg, init) && Ready(st) && SoundEvent(cfg, ev)
             && |NewIds(cfg, init + [ev])| <= MAX_NEW_VEHICLES && Narrow(cfg, BatchesIn(cfg, init + [ev]).full)
    ensures Ready(Step(cfg, st, ev))
  {
    if Admits(cfg, ev) {
      GateLetsIn(cfg, init, ev);
    }
    BatchesAsCut(cfg, init);
    BatchesSnoc(cfg, init, ev);
    StepSucceeds(cfg, st, ev);
  }

  lemma SoundRung(cfg: Config, init: seq<Event>, ev: Event)
    requires Sound(cfg, init + [ev])
    ensures Sound(cfg, init) && (Ready(After(cfg, init)) ==> Ready(After(cfg, init + [ev])))
  {
    SoundShrinks(cfg, init, ev);
    if Ready(After(cfg, init)) {
      SoundStep(cfg, init, ev, After(cfg, init));
    }
  }

  lemma SoundMeansSuccess(cfg: Config, es: seq<Event>)
    requires Sound(cfg, es)
    ensures Ready(After(cfg, es))
  {
    var good := iset fs | Sound(cfg, fs);
    var ok := iset fs | Ready(After(cfg, fs));
    forall init, ev ensures Rung(good, ok, init, ev) {
      if init + [ev] in good {
        SoundRung(cfg, init, ev);
      }
    }
    Ladder(good, ok, es);
  }

  predicate IsMain(ev: Event) {
    ev.Key? && (ev.name == "drives" || ev.name == "charges" || ev.name == "samples")
  }

  predicate SawMain(es: seq<Event>) { exists i :: 0 <= i < |es| && IsMain(es[i]) }

  lemma {:induction false} SawTracksKeys(cfg: Config, es: seq<Event>)
    requires After(cfg, es).failure.None?
    ensures After(cfg, es).saw <==> SawMain(es)
  {
    if es != [] {
      var n := |es| - 1;
      SawTracksKeys(cfg, es[..n]);
      assert forall i :: 0 <= i < n ==> es[..n][i] == es[i];
    }
  }

  /** What a run that took a whole file without failing says of it. */
  lemma FinishedIsSound(cfg: Config, ts: Stream)
    requires WellTyped(cfg) && ScanObject(ts).complete && StateOf(cfg, ScanObject(ts)).failure.None?
    ensures Sound(cfg, ScanObject(ts).events)
  {
    var es := ScanObject(ts).events;
    NothingWaits(cfg, ts);
    SuccessMeansSound(cfg, es);
    BatchesTrackSamples(cfg, es);
    assert Flat(After(cfg, es).sink.batches) + [] == Flat(After(cfg, es).sink.batches);
    GateTracksIds(cfg, es);
    BatchesAsCut(cfg, es);
  }

  /** Exactly which files a restore accepts. */
  lemma AcceptedIffSound(cfg: Config, ts: Stream)
    requires WellTyped(cfg)
    ensures Accepted(cfg, ScanObject(ts)) <==>
            ScanObject(ts).complete && SawMain(ScanObject(ts).events) && Sound(cfg, ScanObject(ts).events)
  {
    var es := ScanObject(ts).events;
    if Accepted(cfg, ScanObject(ts)) {
      FinishedIsSound(cfg, ts);
      SawTracksKeys(cfg, es);
    } else if Sound(cfg, es) {
      SoundMeansSuccess(cfg, es);
      SawTracksKeys(cfg, es);
    }
  }

  // ---------------------------------------------------------------------------------------------
  // Refusal, and why
  // ---------------------------------------------------------------------------------------------

  /** What the failure reported says of the rows so far. */
  ghost predicate Because(cfg: Config, es: seq<Event>, f: Failure) {
    match f
    case BadFile => !Decodable(cfg, es)
    case TooManyVehicles => |NewIds(cfg, es)| > 5
    case NamelessVehicle => !NamedSessions(cfg, es) || !Named(RowsIn(cfg, es, Samples, Admit))
    case TooManyMonths => !Narrow(cfg, BatchesIn(cfg, es).full)
    case NotBackup => false
  }

  /** A batch that cannot be flushed. */
  lemma FlushFails(cfg: Config, s: Sink)
    requires s.Ok() && !Flush(cfg, s).Ok()
    ensures match Flush(cfg, s).error.value
            case TooManyMonths => s.batch != [] && |MonthsOf(cfg, s.batch)| > 120
            case NamelessVehicle => !Named(s.batch)
            case _ => false
  {
    ResolvesWhenNamed(s.batch);
  }

  /** So the batch that is to be flushed after an event is one of those cut, and its rows are admitted samples. */
  lemma FlushFailsBecause(cfg: Config, init: seq<Event>, ev: Event, s: Sink)
    requires WellTyped(cfg) && After(cfg, init).failure.None? && s.Ok() && !Flush(cfg, s).Ok()
    requires BatchesIn(cfg, init + [ev]).full == BatchesIn(cfg, init).full + [s.batch]
    requires s.batch == After(cfg, init).sink.batch + RowOf(cfg, ev, Samples, Admit)
    ensures Because(cfg, init + [ev], Flush(cfg, s).error.value)
  {
    FlushFails(cfg, s);
    if !Named(s.batch) {
      var e :| e in s.batch && e.vehicle == "";
      BatchesTrackSamples(cfg, init);
      RowsInSnoc(cfg, init, ev, Samples, Admit);
      assert e in RowsIn(cfg, init + [ev], Samples, Admit);
    } else {
      assert s.batch in BatchesIn(cfg, init + [ev]).full;
    }
  }

  lemma SampleFailsBecause(cfg: Config, init: seq<Event>, ev: Event)
    requires WellTyped(cfg) && After(cfg, init).failure.None? && Admits(cfg, ev) && ev.kind.Samples?
    requires !Store(cfg, After(cfg, init).sink, Samples, EntryOf(cfg, ev)).Ok()
    ensures Because(cfg, init + [ev], Store(cfg, After(cfg, init).sink, Samples, EntryOf(cfg, ev)).error.value)
  {
    var s := After(cfg, init).sink;
    BatchesAsCut(cfg, init);
    BatchesSnoc(cfg, init, ev);
    FlushFailsBecause(cfg, init, ev, s.(batch := s.batch + [EntryOf(cfg, ev)]));
  }

  lemma EnterFailsBecause(cfg: Config, init: seq<Event>, ev: Event)
    requires WellTyped(cfg) && After(cfg, init).failure.None? && Admits(cfg, ev)
    requires Enter(cfg, After(cfg, init), ev.kind, EntryOf(cfg, ev)).failure.Some?
    ensures Because(cfg, init + [ev], Enter(cfg, After(cfg, init), ev.kind, EntryOf(cfg, ev)).failure.value)
  {
    var st, e := After(cfg, init), EntryOf(cfg, ev);
    BatchesAsCut(cfg, init);
    if |Adding(cfg, st.gate.added, ev.kind, e.vehicle)| > MAX_NEW_VEHICLES {
      if |NewIds(cfg, init + [ev])| <= 5 {
        GateLetsIn(cfg, init, ev);
      }
    } else if ev.kind.Samples? {
      SampleFailsBecause(cfg, init, ev);
    } else {
      NamedSnoc(cfg, init, ev);
      assert RowOf(cfg, ev, ev.kind, Admit) == [e] && e in [e];
    }
  }

  lemma StepFailsBecause(cfg: Config, init: seq<Event>, ev: Event)
    requires WellTyped(cfg) && After(cfg, init).failure.None? && Step(cfg, After(cfg, init), ev).failure.Some?
    ensures Because(cfg, init + [ev], Step(cfg, After(cfg, init), ev).failure.value)
  {
    BatchesAsCut(cfg, init);
    if Admits(cfg, ev) {
      EnterFailsBecause(cfg, init, ev);
    } else if ev.Row? {
      ValuesSnoc(init, ev, ev.kind);
      assert ev.value in ValuesIn(init + [ev], ev.kind);
    } else {
      BatchesSnoc(cfg, init, ev);
      var s := After(cfg, init).sink;
      assert s.batch + [] == s.batch;
      FlushFailsBecause(cfg, init, ev, s);
    }
  }

  lemma {:induction false} FirstFailure(cfg: Config, es: seq<Event>) returns (k: nat)
    requires After(cfg, es).failure.Some?
    ensures k < |es| && After(cfg, es[..k]).failure.None?
    ensures Step(cfg, After(cfg, es[..k]), es[k]).failure == After(cfg, es).failure
  {
    var n := |es| - 1;
    if After(cfg, es[..n]).failure.Some? {
      k := FirstFailure(cfg, es[..n]);
      assert es[..n][..k] == es[..k];
    } else {
      k := n;
    }
  }

  /** A run that fails does so at an event that gives it a reason, the first to do so, and reports that reason. */
  lemma FailsBecause(cfg: Config, es: seq<Event>) returns (k: nat)
    requires WellTyped(cfg) && After(cfg, es).failure.Some?
    ensures k < |es| && After(cfg, es[..k]).failure.None? && Because(cfg, es[..k + 1], After(cfg, es).failure.value)
  {
    k := FirstFailure(cfg, es);
    StepFailsBecause(cfg, es[..k], es[k]);
    assert es[..k + 1] == es[..k] + [es[k]];
  }

  /** The answer for a file that is not accepted. A file that ends too early, or holds no main array, is reported as
    * such only when nothing else is wrong with what it holds. */
  lemma RefusedBecause(cfg: Config, ts: Stream)
    requires WellTyped(cfg) && !Accepted(cfg, ScanObject(ts))
    ensures var scan := ScanObject(ts);
            var f := Result(StateOf(cfg, scan), scan.complete).value;
            || (f == BadFile && !scan.complete && StateOf(cfg, scan).failure.None?)
            || (f == NotBackup && scan.complete && !SawMain(scan.events) && Sound(cfg, scan.events))
            || exists k: nat :: k <= |scan.events| && Because(cfg, scan.events[..k], f)
  {
    var scan := ScanObject(ts);
    var es := scan.events;
    if After(cfg, es).failure.Some? {
      var k := FailsBecause(cfg, es);
      assert Because(cfg, es[..k + 1], After(cfg, es).failure.value);
    } else if scan.complete {
      SawTracksKeys(cfg, es);
      FinishedIsSound(cfg, ts);
    }
  }

  /** Every time the gate lets through falls into one of the months. */
  ghost predicate WindowIn(cfg: Config, months: set<int>) {
    forall t :: cfg.from <= t <= cfg.to ==> cfg.monthOf(t) in months
  }

  predicate RowInMonths(cfg: Config, months: set<int>, e: Entry) { e.times != [] ==> cfg.monthOf(e.times[0]) in months }

  predicate RowsInMonths(cfg: Config, months: set<int>, es: seq<Entry>) {
    forall e :: e in es ==> RowInMonths(cfg, months, e)
  }

  ghost predicate BatchesInMonths(cfg: Config, months: set<int>, b: Batches) {
    RowsInMonths(cfg, months, b.open) && forall f :: f in b.full ==> RowsInMonths(cfg, months, f)
  }

  lemma AdmittedInMonths(cfg: Config, months: set<int>, ev: Event)
    requires WindowIn(cfg, months) && Admits(cfg, ev) && ev.kind.Samples?
    ensures RowInMonths(cfg, months, EntryOf(cfg, ev))
  {
    var times := EntryOf(cfg, ev).times;
    assert InWindow(cfg, times);
    if times != [] {
      assert times[0] in times;
      assert cfg.from <= times[0] <= cfg.to;
    }
  }

  lemma MonthsStep(cfg: Config, months: set<int>, b: Batches, ev: Event)
    requires WindowIn(cfg, months) && BatchesInMonths(cfg, months, b)
    ensures BatchesInMonths(cfg, months, Next(cfg, b, ev))
  {
    if Admits(cfg, ev) && ev.kind.Samples? {
      AdmittedInMonths(cfg, months, ev);
      assert RowsInMonths(cfg, months, b.open + [EntryOf(cfg, ev)]);
    }
  }

  lemma {:induction false} BatchesStayInMonths(cfg: Config, months: set<int>, es: seq<Event>)
    requires WindowIn(cfg, months)
    ensures BatchesInMonths(cfg, months, BatchesIn(cfg, es))
  {
    if es != [] {
      var n := |es| - 1;
      BatchesStayInMonths(cfg, months, es[..n]);
      MonthsStep(cfg, months, BatchesIn(cfg, es[..n]), es[n]);
    }
  }

  /** As long as the window holds at most 120 months, no batch spans more. */
  lemma ShortWindowIsNarrow(cfg: Config, months: set<int>, es: seq<Event>)
    requires WindowIn(cfg, months) && |months| <= 120
    ensures Narrow(cfg, BatchesIn(cfg, es).full)
  {
    BatchesStayInMonths(cfg, months, es);
    forall b | b in BatchesIn(cfg, es).full ensures |MonthsOf(cfg, b)| <= 120 {
      assert RowsInMonths(cfg, months, b);
      assert MonthsOf(cfg, b) <= months by {
        assert forall e :: e in b && e.times != [] ==> RowInMonths(cfg, months, e);
      }
      SubsetNoLarger(MonthsOf(cfg, b), months);
    }
  }

  // ---------------------------------------------------------------------------------------------
  // Accounting
  // ---------------------------------------------------------------------------------------------

  function Counted(cfg: Config, es: seq<Event>, kind: Kind, verdict: Verdict): nat { |RowsIn(cfg, es, kind, verdict)| }

  function OutOfWindow(cfg: Config, es: seq<Event>): nat {
    Counted(cfg, es, Drives, SkipTime) + Counted(cfg, es, Charges, SkipTime) + Counted(cfg, es, Samples, SkipTime)
  }

  /** What one event adds to a count. */
  function CountOf(cfg: Config, ev: Event, kind: Kind, verdict: Verdict): nat { |RowOf(cfg, ev, kind, verdict)| }

  lemma CountedSnoc(cfg: Config, es: seq<Event>, ev: Event, kind: Kind, verdict: Verdict)
    ensures Counted(cfg, es + [ev], kind, verdict) == Counted(cfg, es, kind, verdict) + CountOf(cfg, ev, kind, verdict)
  {
    RowsInSnoc(cfg, es, ev, kind, verdict);
  }

  function OutNow(cfg: Config, ev: Event): nat {
    CountOf(cfg, ev, Drives, SkipTime) + CountOf(cfg, ev, Charges, SkipTime) + CountOf(cfg, ev, Samples, SkipTime)
  }

  lemma OutOfWindowSnoc(cfg: Config, es: seq<Event>, ev: Event)
    ensures OutOfWindow(cfg, es + [ev]) == OutOfWindow(cfg, es) + OutNow(cfg, ev)
  {
    CountedSnoc(cfg, es, ev, Drives, SkipTime);
    CountedSnoc(cfg, es, ev, Charges, SkipTime);
    CountedSnoc(cfg, es, ev, Samples, SkipTime);
  }

  /** The counters after any step, failing or not. */
  lemma StepCounts(cfg: Config, st: State, ev: Event)
    requires st.failure.None?
    ensures Step(cfg, st, ev).gate.skipped == st.gate.skipped + OutNow(cfg, ev)
    ensures Step(cfg, st, ev).gate.past == st.gate.past + CountOf(cfg, ev, Samples, SkipOld)
  {
  }

  ghost predicate CountersMatch(cfg: Config, st: State, es: seq<Event>) {
    st.gate.skipped == OutOfWindow(cfg, es) && st.gate.past == Counted(cfg, es, Samples, SkipOld)
  }

  lemma CountersStep(cfg: Config, init: seq<Event>, ev: Event)
    requires After(cfg, init).failure.None? && CountersMatch(cfg, After(cfg, init), init)
    ensures CountersMatch(cfg, After(cfg, init + [ev]), init + [ev])
  {
    AfterSnoc(cfg, init, ev);
    StepCounts(cfg, After(cfg, init), ev);
    OutOfWindowSnoc(cfg, init, ev);
    CountedSnoc(cfg, init, ev, Samples, SkipOld);
  }

  lemma CountersTrackRows(cfg: Config, es: seq<Event>)
    requires After(cfg, es).failure.None?
    ensures CountersMatch(cfg, After(cfg, es), es)
  {
    var good := iset fs | After(cfg, fs).failure.None?;
    var ok := iset fs | CountersMatch(cfg, After(cfg, fs), fs);
    forall init, ev ensures Rung(good, ok, init, ev) {
      AfterSnoc(cfg, init, ev);
      if init in good && init in ok {
        CountersStep(cfg, init, ev);
      }
    }
    Ladder(good, ok, es);
  }

  lemma {:induction false} OneVerdictEach(cfg: Config, vs: seq<Value>, kind: Kind)
    requires forall v :: v in vs ==> cfg.decode(kind, v).Some?
    ensures |Rows(cfg, vs, kind, Admit)| + |Rows(cfg, vs, kind, SkipTime)| + |Rows(cfg, vs, kind, SkipOld)| == |vs|
  {
    if vs != [] {
      var n := |vs| - 1;
      assert vs[n] in vs;
      OneVerdictEach(cfg, vs[..n], kind);
    }
  }

  /** The events a run takes: all, or those up to the one it fails on. */
  function Ran(cfg: Config, es: seq<Event>): seq<Event> {
    if es == [] then []
    else
      var n := |es| - 1;
      if After(cfg, es[..n]).failure.Some? then Ran(cfg, es[..n]) else es
  }

  /** The state is that after the events taken. */
  lemma {:induction false} FailsAtItsLast(cfg: Config, es: seq<Event>)
    ensures Ran(cfg, es) <= es && After(cfg, es) == After(cfg, Ran(cfg, es))
    ensures After(cfg, es).failure.None? ==> Ran(cfg, es) == es
  {
    if es != [] {
      FailsAtItsLast(cfg, es[..|es| - 1]);
    }
  }

  /** A sample that does not decode, or whose vehicle is one too many. */
  predicate Stops(st: State, ev: Event) {
    (st.failure == Some(BadFile) || st.failure == Some(TooManyVehicles)) && ev.Row? && ev.kind.Samples?
  }

  predicate StoppedBySample(st: State, ran: seq<Event>) { ran != [] && Stops(st, ran[|ran| - 1]) }

  predicate StoreError(error: Option<Failure>) { error == Some(NamelessVehicle) || error == Some(TooManyMonths) }

  lemma StoreFails(cfg: Config, s: Sink, to: Kind, e: Entry)
    requires s.Ok() && !Store(cfg, s, to, e).Ok()
    ensures var r := Store(cfg, s, to, e);
            StoreError(r.error) && r.batches == s.batches && r.batch == s.batch + if to.Samples? then [e] else []
  {
  }

  /** A flush that fails leaves the sample in the batch. */
  lemma FailedStepSamples(cfg: Config, st: State, ev: Event)
    requires WellTyped(cfg) && st.failure.None? && BatchesFit(st.sink) && !Fine(cfg, st, ev)
    ensures var s := Step(cfg, st, ev);
            && s.sink.batches == st.sink.batches
            && s.sink.batch == st.sink.batch + (if Stops(s, ev) then [] else RowOf(cfg, ev, Samples, Admit))
  {
    if Admits(cfg, ev) {
      assert RowOf(cfg, ev, Samples, Admit) == if ev.kind.Samples? then [EntryOf(cfg, ev)] else [];
      if |Adding(cfg, st.gate.added, ev.kind, EntryOf(cfg, ev).vehicle)| <= MAX_NEW_VEHICLES {
        StoreFails(cfg, st.sink, ev.kind, EntryOf(cfg, ev));
      }
    } else {
      assert RowOf(cfg, ev, Samples, Admit) == [];
    }
  }

  /** Effect of any step on the samples: written ones never change but by a flush that works. */
  lemma StepSamples(cfg: Config, st: State, ev: Event)
    requires WellTyped(cfg) && st.failure.None? && BatchesFit(st.sink)
    ensures var s := Step(cfg, st, ev);
            && Gathered(s.sink) == Gathered(st.sink) + (if Stops(s, ev) then [] else RowOf(cfg, ev, Samples, Admit))
            && (forall b :: b in s.sink.batches ==> 0 < |b| <= BATCH)
  {
    if Fine(cfg, st, ev) {
      StepFits(cfg, st, ev);
    } else {
      FailedStepSamples(cfg, st, ev);
    }
  }

  lemma NotTakenIffStopped(cfg: Config, st: State, ev: Event)
    requires st.failure.None? && ev.Row? && ev.kind.Samples?
    ensures var s, n := Step(cfg, st, ev), CountOf(cfg, ev, Samples, SkipTime) + CountOf(cfg, ev, Samples, SkipOld);
            (if Stops(s, ev) then 0 else CountOf(cfg, ev, Samples, Admit)) + n == if Stops(s, ev) then 0 else 1
  {
  }

  /** The table of samples got exactly the batches. */
  ghost predicate Written(s: Sink) { SentTo(s.writes, Samples) == PutsFor(Flat(s.batches)) }

  lemma {:induction false} PutsAppend(a: seq<Entry>, b: seq<Entry>)
    ensures PutsFor(a + b) == PutsFor(a) + PutsFor(b)
  {
    if b == [] {
      assert a + b == a;
    } else {
      var n := |b| - 1;
      var init, e := b[..n], b[n];
      PutsAppend(a, init);
      PutsSnoc(a + init, e);
      assert a + b == a + init + [e] && b == init + [e];
      PutsSnoc(init, e);
      Regroup(PutsFor(a), PutsFor(init), [PutOf(e)]);
    }
  }

  lemma WrittenSoFar(cfg: Config, es: seq<Event>)
    requires WellTyped(cfg) && After(cfg, es).failure.None?
    ensures Written(After(cfg, es).sink)
  {
    var s := After(cfg, es).sink;
    BatchesTrackSamples(cfg, es);
    WritesTrackRows(cfg, es, Samples);
    PutsAppend(Flat(s.batches), s.batch);
    SameFront(SentTo(s.writes, Samples), PutsFor(Flat(s.batches)), PutsFor(s.batch));
  }

  lemma VehiclesWritten(s: Sink, ws: seq<Write>, batch: seq<Entry>)
    requires Written(s) && forall w :: w in ws ==> w.Vehicle?
    ensures Written(s.(batch := batch, writes := s.writes + ws))
  {
    NoneSent(ws, Samples);
    SentToAppend(s.writes, ws, Samples);
    assert SentTo(s.writes, Samples) + [] == SentTo(s.writes, Samples);
  }

  lemma BatchWritten(s: Sink, ws: seq<Write>)
    requires Written(s) && (forall w :: w in ws ==> w.Vehicle?)
             && forall e :: e in s.batch ==> TableOf(e.key) == Samples
    ensures Written(Sink([], s.batches + [s.batch], s.writes + ws + PutsFor(s.batch), s.error))
  {
    SentAfterFlush(s.writes, ws, s.batch, Samples);
    PutsAppend(Flat(s.batches), s.batch);
  }

  lemma FlushWritten(cfg: Config, s: Sink)
    requires Written(s) && forall e :: e in s.batch ==> TableOf(e.key) == Samples
    ensures Written(Flush(cfg, s))
  {
    VehiclesWritten(s, Resolve(s.batch).0, s.batch);
    BatchWritten(s, Resolve(s.batch).0);
  }

  lemma StoreWritten(cfg: Config, s: Sink, to: Kind, e: Entry)
    requires BatchesFit(s) && Written(s) && TableOf(e.key) == to
    ensures Written(Store(cfg, s, to, e))
  {
    if to.Samples? {
      var s' := s.(batch := s.batch + [e]);
      if |s'.batch| == BATCH {
        FlushWritten(cfg, s');
      }
    } else {
      SentSession(s.writes, e.vehicle, PutOf(e), Samples);
      assert Sent(PutOf(e), Samples) == [];
    }
  }

  lemma StepWritten(cfg: Config, st: State, ev: Event)
    requires WellTyped(cfg) && st.failure.None? && BatchesFit(st.sink) && Written(st.sink)
    ensures Written(Step(cfg, st, ev).sink)
  {
    if Admits(cfg, ev) {
      TypedTable(ev.kind, EntryOf(cfg, ev));
      StoreWritten(cfg, st.sink, ev.kind, EntryOf(cfg, ev));
    } else {
      FlushWritten(cfg, st.sink);
    }
  }

  /** Each sample taken is written, or waits in the batch, or is counted, except the one the run stopped at;
    * written and waiting ones are the admitted ones in file order. */
  ghost predicate SamplesAccounted(cfg: Config, st: State, ran: seq<Event>) {
    && |ValuesIn(ran, Samples)| == |Flat(st.sink.batches)| + |st.sink.batch| +
       Counted(cfg, ran, Samples, SkipTime) + st.gate.past + (if StoppedBySample(st, ran) then 1 else 0)
    && st.gate.skipped == OutOfWindow(cfg, ran)
    && Gathered(st.sink) <= RowsIn(cfg, ran, Samples, Admit) && Written(st.sink)
  }

  lemma VerdictsSoFar(cfg: Config, es: seq<Event>)
    requires WellTyped(cfg) && After(cfg, es).failure.None?
    ensures |ValuesIn(es, Samples)| ==
            |RowsIn(cfg, es, Samples, Admit)| + Counted(cfg, es, Samples, SkipTime) + Counted(cfg, es, Samples, SkipOld)
  {
    SuccessMeansSound(cfg, es);
    OneVerdictEach(cfg, ValuesIn(es, Samples), Samples);
  }

  lemma AccountedStep(cfg: Config, init: seq<Event>, ev: Event)
    requires WellTyped(cfg) && After(cfg, init).failure.None?
    ensures SamplesAccounted(cfg, After(cfg, init + [ev]), init + [ev])
  {
    var st, es := After(cfg, init), init + [ev];
    AfterSnoc(cfg, init, ev);
    BatchesTrackSamples(cfg, init);
    CountersTrackRows(cfg, init);
    VerdictsSoFar(cfg, init);
    WrittenSoFar(cfg, init);
    StepSamples(cfg, st, ev);
    StepWritten(cfg, st, ev);
    CountersStep(cfg, init, ev);
    ValuesSnoc(init, ev, Samples);
    CountedSnoc(cfg, init, ev, Samples, SkipTime);
    CountedSnoc(cfg, init, ev, Samples, SkipOld);
    RowsInSnoc(cfg, init, ev, Samples, Admit);
    if ev.Row? && ev.kind.Samples? {
      NotTakenIffStopped(cfg, st, ev);
    }
    assert es[|es| - 1] == ev;
  }

  ghost predicate RunAccounted(cfg: Config, es: seq<Event>) { SamplesAccounted(cfg, After(cfg, es), Ran(cfg, es)) }

  lemma AccountedRung(cfg: Config, init: seq<Event>, ev: Event)
    requires WellTyped(cfg) && RunAccounted(cfg, init)
    ensures RunAccounted(cfg, init + [ev])
  {
    AfterSnoc(cfg, init, ev);
    assert (init + [ev])[..|init|] == init;
    if After(cfg, init).failure.None? {
      AccountedStep(cfg, init, ev);
    }
  }

  lemma NothingTakenYet(cfg: Config)
    ensures RunAccounted(cfg, [])
  {
  }

  /** So it is for every run on every file, failed or not. */
  lemma SamplesAccountedAnyway(cfg: Config, es: seq<Event>)
    requires WellTyped(cfg)
    ensures SamplesAccounted(cfg, After(cfg, es), Ran(cfg, es))
    ensures Ran(cfg, es) <= es && After(cfg, es) == After(cfg, Ran(cfg, es))
    ensures After(cfg, es).failure.None? ==> Ran(cfg, es) == es
  {
    FailsAtItsLast(cfg, es);
    var all := iset fs: seq<Event> | |fs| >= 0;
    var ok := iset fs | RunAccounted(cfg, fs);
    NothingTakenYet(cfg);
    forall init, ev ensures Rung(all, ok, init, ev) {
      if init in ok {
        AccountedRung(cfg, init, ev);
      }
    }
    Ladder(all, ok, es);
  }

  /** Every sample of an accepted file was written, or counted as out of window, or counted as past
    * retention; the written ones went out in file order, in non-empty batches of at most 2000. */
  lemma EverySampleAccounted(cfg: Config, ts: Stream)
    requires WellTyped(cfg) && Accepted(cfg, ScanObject(ts))
    ensures var st, es := StateOf(cfg, ScanObject(ts)), ScanObject(ts).events;
            && st.sink.batches == BatchesIn(cfg, es).full && Flat(st.sink.batches) == RowsIn(cfg, es, Samples, Admit)
            && (forall b :: b in st.sink.batches ==> 0 < |b| <= 2000)
            && SentTo(st.sink.writes, Samples) == PutsFor(Flat(st.sink.batches))
            && |ValuesIn(es, Samples)| == |Flat(st.sink.batches)| + Counted(cfg, es, Samples, SkipTime) + st.gate.past
            && st.gate.skipped == OutOfWindow(cfg, es)
  {
    var st, es := StateOf(cfg, ScanObject(ts)), ScanObject(ts).events;
    NothingWaits(cfg, ts);
    BatchesTrackSamples(cfg, es);
    BatchesAsCut(cfg, es);
    assert Gathered(st.sink) == Flat(st.sink.batches);
    WritesTrackRows(cfg, es, Samples);
    CountersTrackRows(cfg, es);
    SuccessMeansSound(cfg, es);
    OneVerdictEach(cfg, ValuesIn(es, Samples), Samples);
  }

  /** Every table gets exactly the file's admitted rows of its kind, in file order. */
  lemma EveryTableGetsItsRows(cfg: Config, ts: Stream, kind: Kind)
    requires WellTyped(cfg) && Accepted(cfg, ScanObject(ts))
    ensures SentTo(StateOf(cfg, ScanObject(ts)).sink.writes, kind) ==
            if Kept(cfg, kind) then PutsFor(RowsIn(cfg, ScanObject(ts).events, kind, Admit)) else []
  {
    NothingWaits(cfg, ts);
    WritesTrackRows(cfg, ScanObject(ts).events, kind);
    assert SentTo(StateOf(cfg, ScanObject(ts)).sink.writes, kind) + [] ==
           SentTo(StateOf(cfg, ScanObject(ts)).sink.writes, kind);
  }
}
