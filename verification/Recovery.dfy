/** A backup restored, a file cut off, a restore run again. */
module Recovery {
  import opened Options
  import opened Sets
  import opened Account
  import opened Convergence
  import opened Json
  import opened Bundle
  import opened Restore
  import opened RestoreLaws
  import opened Acceptance

  // ---------------------------------------------------------------------------------------------
  // Round trip
  // ---------------------------------------------------------------------------------------------

  function Elements(items: Items): seq<Value> {
    match items
    case NoItems => []
    case Item(v, tail) => [v] + Elements(tail)
  }

  lemma {:induction false} ElementsOfItems(vs: seq<Value>)
    ensures Elements(ItemsOf(vs)) == vs
  {
    if vs != [] {
      ElementsOfItems(vs[1..]);
    }
  }

  /** The elements an object holds under the key of a kind, in the order of its fields. */
  function Column(fields: Fields, kind: Kind): seq<Value> {
    match fields
    case NoFields => []
    case Field(name, v, rest) =>
      (if KindOf(name) == Some(kind) && v.Array? then Elements(v.items) else []) + Column(rest, kind)
  }

  lemma {:induction false} ValuesAppend(es: seq<Event>, more: seq<Event>, kind: Kind)
    ensures ValuesIn(es + more, kind) == ValuesIn(es, kind) + ValuesIn(more, kind)
  {
    if more == [] {
      assert es + more == es;
    } else {
      var n := |more| - 1;
      var init, ev := more[..n], more[n];
      ValuesAppend(es, init, kind);
      ValuesSnoc(es + init, ev, kind);
      ValuesSnoc(init, ev, kind);
      assert es + more == es + init + [ev] && more == init + [ev];
    }
  }

  lemma {:induction false} ValuesOfRows(to: Kind, items: Items, kind: Kind)
    ensures ValuesIn(RowEvents(to, items), kind) == if to == kind then Elements(items) else []
    decreases items
  {
    if items.Item? {
      var ev := Row(to, items.head);
      ValuesOfRows(to, items.tail, kind);
      ValuesAppend([ev], RowEvents(to, items.tail), kind);
    }
  }

  lemma ValuesOfValue(to: Option<Kind>, v: Value, kind: Kind)
    ensures ValuesIn(ValueEvents(to, v), kind) == if to == Some(kind) && v.Array? then Elements(v.items) else []
  {
    if to.Some? {
      var rows := if v.Array? then RowEvents(to.value, v.items) else [];
      if v.Array? {
        ValuesOfRows(to.value, v.items, kind);
      }
      ValuesSnoc(rows, Finished(to.value), kind);
    }
  }

  lemma {:induction false} ValuesOfFields(fields: Fields, kind: Kind)
    ensures ValuesIn(EventsOf(fields), kind) == Column(fields, kind)
    decreases fields
  {
    match fields
    case NoFields =>
    case Field(name, v, rest) =>
      var here := ValueEvents(KindOf(name), v);
      ValuesOfFields(rest, kind);
      ValuesOfValue(KindOf(name), v, kind);
      ValuesAppend(here, EventsOf(rest), kind);
      ValuesAppend([Key(name)], here + EventsOf(rest), kind);
  }

  /** The rows a backup holds for each table. */
  function RowsOf(b: Backup, kind: Kind): seq<Value> {
    match kind
    case Drives => b.drives
    case Charges => b.charges
    case Samples => b.samples
    case SavedTrips => if b.extras.NoDatabase? then [] else b.extras.trips
    case Recaps => if b.extras.NoDatabase? then [] else b.extras.recaps
    case Analyses => if b.extras.NoDatabase? then [] else b.extras.analyses
    case Milestones => if b.extras.NoDatabase? then [] else b.extras.milestones
  }

  lemma ColumnOfArray(name: string, to: Kind, vs: seq<Value>, rest: Fields, kind: Kind)
    requires KindOf(name) == Some(to)
    ensures Column(Field(name, ArrayOf(vs), rest), kind) == (if to == kind then vs else []) + Column(rest, kind)
    ensures ArraysWhereDue(Field(name, ArrayOf(vs), rest)) == ArraysWhereDue(rest)
  {
    ElementsOfItems(vs);
  }

  lemma ColumnOfOther(name: string, v: Value, rest: Fields, kind: Kind)
    requires KindOf(name).None?
    ensures Column(Field(name, v, rest), kind) == Column(rest, kind)
    ensures ArraysWhereDue(Field(name, v, rest)) == ArraysWhereDue(rest)
  {
  }

  lemma ColumnOfSamples(b: Backup, kind: Kind)
    ensures Column(SampleFields(b), kind) == if kind.Samples? then b.samples else []
    ensures ArraysWhereDue(SampleFields(b))
  {
    var reduced := if b.reduced == [] then NoFields else Field("samples_reduced_months", ArrayOf(b.reduced), NoFields);
    ColumnOfArray("samples", Samples, b.samples, reduced, kind);
    if b.reduced != [] {
      ColumnOfOther("samples_reduced_months", ArrayOf(b.reduced), NoFields, kind);
    }
  }

  lemma ColumnOfExtras(x: Extras, rest: Fields, kind: Kind)
    requires ArraysWhereDue(rest) && Column(rest, kind) == if kind.Samples? then Column(rest, Samples) else []
    ensures ArraysWhereDue(WithExtras(x, rest))
    ensures Column(WithExtras(x, rest), kind) ==
            match kind
            case Samples => Column(rest, Samples)
            case SavedTrips => if x.NoDatabase? then [] else x.trips
            case Recaps => if x.NoDatabase? then [] else x.recaps
            case Analyses => if x.NoDatabase? then [] else x.analyses
            case Milestones => if x.NoDatabase? then [] else x.milestones
            case _ => []
  {
    match x
    case NoDatabase =>
    case Extras(trips, recaps, analyses, milestones) =>
      var last := Field("milestones", ArrayOf(milestones), rest);
      var third := Field("drive_analyses", ArrayOf(analyses), last);
      var second := Field("drive_recaps", ArrayOf(recaps), third);
      ColumnOfArray("milestones", Milestones, milestones, rest, kind);
      ColumnOfArray("drive_analyses", Analyses, analyses, last, kind);
      ColumnOfArray("drive_recaps", Recaps, recaps, third, kind);
      ColumnOfArray("saved_trips", SavedTrips, trips, second, kind);
  }

  lemma ColumnOfRows(b: Backup, kind: Kind)
    ensures Column(RowFields(b), kind) == RowsOf(b, kind) && ArraysWhereDue(RowFields(b))
  {
    var extras := WithExtras(b.extras, SampleFields(b));
    ColumnOfSamples(b, kind);
    ColumnOfSamples(b, Samples);
    ColumnOfExtras(b.extras, SampleFields(b), kind);
    ColumnOfArray("charges", Charges, b.charges, extras, kind);
    ColumnOfArray("drives", Drives, b.drives, Field("charges", ArrayOf(b.charges), extras), kind);
  }

  lemma ColumnOfBackup(b: Backup, kind: Kind)
    ensures Column(Contents(b), kind) == RowsOf(b, kind) && ArraysWhereDue(Contents(b))
  {
    ColumnOfRows(b, kind);
    var omitted := Field("derived_omitted", b.omitted, RowFields(b));
    var profiles := Field("vehicle_profiles", b.profiles, omitted);
    var settings := Field("user_settings", b.settings, profiles);
    var created := Field("created_at", b.createdAt, settings);
    ColumnOfOther("derived_omitted", b.omitted, RowFields(b), kind);
    ColumnOfOther("vehicle_profiles", b.profiles, omitted, kind);
    ColumnOfOther("user_settings", b.settings, profiles, kind);
    ColumnOfOther("created_at", b.createdAt, settings, kind);
    ColumnOfOther("version", b.version, created, kind);
  }

  predicate HasField(fields: Fields, name: string) {
    match fields
    case NoFields => false
    case Field(n, _, rest) => n == name || HasField(rest, name)
  }

  lemma HasDrives(b: Backup)
    ensures HasField(Contents(b), "drives")
  {
    var omitted := Field("derived_omitted", b.omitted, RowFields(b));
    var settings := Field("user_settings", b.settings, Field("vehicle_profiles", b.profiles, omitted));
    assert HasField(RowFields(b), "drives");
    assert HasField(omitted, "drives");
    assert HasField(settings, "drives");
  }

  lemma {:induction false} KeyInEvents(fields: Fields, name: string)
    requires HasField(fields, name)
    ensures Key(name) in EventsOf(fields)
    decreases fields
  {
    if fields.name != name {
      KeyInEvents(fields.rest, name);
    }
  }

  /** The file scans to the end, and under each key holds the rows written for it. */
  lemma BackupScans(b: Backup, kind: Kind)
    ensures var scan := ScanObject(Print(Object(Contents(b)), End));
            scan.complete && SawMain(scan.events) && ValuesIn(scan.events, kind) == RowsOf(b, kind)
  {
    ColumnOfBackup(b, kind);
    ScanPrintedFields(Contents(b), true, End);
    ValuesOfFields(Contents(b), kind);
    HasDrives(b);
    KeyInEvents(Contents(b), "drives");
  }

  /** A row that decodes, lies in the window, and names a vehicle where one is due: one of the account or one of ids. */
  predicate RowGood(cfg: Config, ids: set<string>, kind: Kind, v: Value) {
    cfg.decode(kind, v).Some? &&
    var e := cfg.decode(kind, v).value;
    Judge(cfg, kind, e) == Admit && (Timed(kind) ==> e.vehicle != "") && (Gated(kind) ==> e.vehicle in cfg.owned + ids)
  }

  /** Every row is good, and no 2000 samples in turn span more than 120 months. */
  ghost predicate Restorable(cfg: Config, ids: set<string>, b: Backup) {
    && |ids| <= MAX_NEW_VEHICLES && (forall kind, v :: v in RowsOf(b, kind) ==> RowGood(cfg, ids, kind, v))
    && Narrow(cfg, BatchesIn(cfg, EventsOf(Contents(b))).full)
  }

  /** ws puts exactly the rows vs, in order. */
  predicate PutsEach(cfg: Config, ws: seq<Write>, vs: seq<Value>, kind: Kind) {
    && |ws| == |vs|
    && forall i :: 0 <= i < |vs| ==> cfg.decode(kind, vs[i]).Some? && ws[i] == PutOf(cfg.decode(kind, vs[i]).value)
  }

  lemma {:induction false} GoodRowsArePut(cfg: Config, ids: set<string>, vs: seq<Value>, kind: Kind)
    requires forall v :: v in vs ==> RowGood(cfg, ids, kind, v)
    ensures PutsEach(cfg, PutsFor(Rows(cfg, vs, kind, Admit)), vs, kind)
  {
    if vs != [] {
      var n := |vs| - 1;
      var init := vs[..n];
      assert vs[n] in vs && forall v :: v in init ==> v in vs;
      GoodRowsArePut(cfg, ids, init, kind);
      assert vs == init + [vs[n]];
    }
  }

  lemma {:induction false} GoodRowsAreNamed(cfg: Config, ids: set<string>, vs: seq<Value>, kind: Kind)
    requires forall v :: v in vs ==> RowGood(cfg, ids, kind, v)
    ensures forall e :: e in Rows(cfg, vs, kind, Admit) ==>
              (Timed(kind) ==> e.vehicle != "") && (Gated(kind) ==> e.vehicle in cfg.owned + ids)
  {
    if vs != [] {
      var n := |vs| - 1;
      var init := vs[..n];
      assert vs[n] in vs && forall v :: v in init ==> v in vs;
      GoodRowsAreNamed(cfg, ids, init, kind);
      assert RowGood(cfg, ids, kind, vs[n]);
    }
  }

  /** A file all of whose rows are good is sound. */
  lemma GoodRowsAreSound(cfg: Config, ids: set<string>, es: seq<Event>)
    requires |ids| <= MAX_NEW_VEHICLES && forall kind, v :: v in ValuesIn(es, kind) ==> RowGood(cfg, ids, kind, v)
    requires Narrow(cfg, BatchesIn(cfg, es).full)
    ensures Sound(cfg, es)
  {
    forall kind
      ensures forall e :: e in RowsIn(cfg, es, kind, Admit) ==>
                (Timed(kind) ==> e.vehicle != "") && (Gated(kind) ==> e.vehicle in cfg.owned + ids)
    {
      GoodRowsAreNamed(cfg, ids, ValuesIn(es, kind), kind);
    }
    forall kind, v | v in ValuesIn(es, kind) ensures cfg.decode(kind, v).Some? {
      assert RowGood(cfg, ids, kind, v);
    }
    forall id | Unknown(cfg, es, id) ensures id in ids {
    }
    SubsetNoLarger(NewIds(cfg, es), ids);
  }

  lemma BackupSound(cfg: Config, ids: set<string>, b: Backup)
    requires Restorable(cfg, ids, b)
    ensures Sound(cfg, ScanObject(Print(Object(Contents(b)), End)).events)
  {
    var es := ScanObject(Print(Object(Contents(b)), End)).events;
    forall kind, v | v in ValuesIn(es, kind) ensures RowGood(cfg, ids, kind, v) {
      BackupScans(b, kind);
    }
    ColumnOfBackup(b, Samples);
    ScanPrintedFields(Contents(b), true, End);
    GoodRowsAreSound(cfg, ids, es);
  }

  /** Backup, then restore: the file is accepted and every table is sent exactly the rows that were written, in
    * order. */
  lemma BackupIsSent(cfg: Config, ids: set<string>, b: Backup, kind: Kind)
    requires WellTyped(cfg) && Restorable(cfg, ids, b)
    ensures var scan := ScanObject(Print(Object(Contents(b)), End));
            && Accepted(cfg, scan)
            && (Kept(cfg, kind) ==> PutsEach(cfg, SentTo(StateOf(cfg, scan).sink.writes, kind), RowsOf(b, kind), kind))
  {
    var text := Print(Object(Contents(b)), End);
    BackupScans(b, kind);
    BackupSound(cfg, ids, b);
    AcceptedIffSound(cfg, text);
    EveryTableGetsItsRows(cfg, text, kind);
    GoodRowsArePut(cfg, ids, RowsOf(b, kind), kind);
  }

  // ---------------------------------------------------------------------------------------------
  // A file cut off
  // ---------------------------------------------------------------------------------------------

  lemma StepGrows(cfg: Config, st: State, ev: Event)
    ensures st.sink.writes <= Step(cfg, st, ev).sink.writes
    ensures st.failure.Some? ==> Step(cfg, st, ev).failure.Some?
  {
  }

  lemma {:induction false} RunGrows(cfg: Config, es: seq<Event>, m: nat)
    requires m <= |es|
    ensures After(cfg, es[..m]).sink.writes <= After(cfg, es).sink.writes
    ensures After(cfg, es).failure.None? ==> After(cfg, es[..m]).failure.None?
  {
    var n := |es| - 1;
    if m == |es| {
      assert es[..m] == es;
    } else {
      assert es[..n][..m] == es[..m];
      RunGrows(cfg, es[..n], m);
      StepGrows(cfg, After(cfg, es[..n]), es[n]);
    }
  }

  /** Restoring a cut-off file of an acceptable one writes a prefix of what the whole file writes; unless
    * only the end after the closing brace is gone, it is reported as a bad file. */
  lemma CutFileRestoresPrefix(cfg: Config, p: Stream, ts: Stream)
    requires CutOf(p, ts) && Accepted(cfg, ScanObject(ts))
    ensures StateOf(cfg, ScanObject(p)).sink.writes <= StateOf(cfg, ScanObject(ts)).sink.writes
    ensures if ScanObject(p).complete then Accepted(cfg, ScanObject(p))
            else Result(StateOf(cfg, ScanObject(p)), false) == Some(BadFile)
  {
    CutFileScansToPrefix(p, ts);
    var es, m := ScanObject(ts).events, |ScanObject(p).events|;
    assert ScanObject(p).events == es[..m];
    RunGrows(cfg, es, m);
  }

  // ---------------------------------------------------------------------------------------------
  // Running it again
  // ---------------------------------------------------------------------------------------------

  /** A later run: the account has at least the vehicles it had, and the clock judges every row alike. */
  ghost predicate Later(cfg: Config, cfg': Config, es: seq<Event>) {
    && cfg'.decode == cfg.decode && cfg'.monthOf == cfg.monthOf && cfg'.database == cfg.database
    && cfg.owned <= cfg'.owned && forall i :: 0 <= i < |es| ==> JudgedAlike(cfg, cfg', es[i])
  }

  predicate JudgedAlike(cfg: Config, cfg': Config, ev: Event) {
    ev.Row? && cfg.decode(ev.kind, ev.value).Some? ==>
      var e := cfg.decode(ev.kind, ev.value).value; Judge(cfg', ev.kind, e) == Judge(cfg, ev.kind, e)
  }

  /** The later run is no further along than the first: same statements, no more vehicles let in. */
  predicate Matches(st: State, st': State) {
    st'.sink == st.sink && st'.saw == st.saw && st'.failure == st.failure && st'.gate.added <= st.gate.added
  }

  lemma StepAgain(cfg: Config, cfg': Config, st: State, st': State, ev: Event)
    requires cfg'.decode == cfg.decode && cfg'.monthOf == cfg.monthOf && cfg'.database == cfg.database
    requires cfg.owned <= cfg'.owned && JudgedAlike(cfg, cfg', ev)
    requires Fine(cfg, st, ev) && Matches(st, st')
    ensures Matches(Step(cfg, st, ev), Step(cfg', st', ev))
  {
    if Admits(cfg, ev) {
      var id := EntryOf(cfg, ev).vehicle;
      var added, added' := Adding(cfg, st.gate.added, ev.kind, id), Adding(cfg', st'.gate.added, ev.kind, id);
      assert added' <= added;
      SubsetNoLarger(added', added);
      assert Store(cfg', st'.sink, ev.kind, EntryOf(cfg, ev)) == Store(cfg, st.sink, ev.kind, EntryOf(cfg, ev));
    }
  }

  lemma {:induction false} RunAgain(cfg: Config, cfg': Config, es: seq<Event>)
    requires Later(cfg, cfg', es) && After(cfg, es).failure.None?
    ensures Matches(After(cfg, es), After(cfg', es))
  {
    if es != [] {
      var n := |es| - 1;
      RunGrows(cfg, es, n);
      assert Later(cfg, cfg', es[..n]);
      RunAgain(cfg, cfg', es[..n]);
      StepAgain(cfg, cfg', After(cfg, es[..n]), After(cfg', es[..n]), es[n]);
    }
  }

  predicate FitsTables(s: Sink) {
    (forall w :: w in s.writes ==> WriteOk(w)) && forall e :: e in s.batch ==> Fits(e.key, e.cell)
  }

  lemma {:induction false} PutsFit(es: seq<Entry>)
    requires forall e :: e in es ==> Fits(e.key, e.cell)
    ensures forall w :: w in PutsFor(es) ==> WriteOk(w)
  {
    if es != [] {
      var n := |es| - 1;
      assert es[n] in es && forall e :: e in es[..n] ==> e in es;
      PutsFit(es[..n]);
    }
  }

  lemma FlushFitsTables(cfg: Config, s: Sink)
    requires FitsTables(s)
    ensures FitsTables(Flush(cfg, s))
  {
    PutsFit(s.batch);
  }

  lemma StoreFitsTables(cfg: Config, s: Sink, to: Kind, e: Entry)
    requires FitsTables(s) && Fits(e.key, e.cell)
    ensures FitsTables(Store(cfg, s, to, e))
  {
    FlushFitsTables(cfg, s.(batch := s.batch + [e]));
  }

  /** Every statement a fine run sends fits its table. */
  lemma {:induction false} WritesFit(cfg: Config, es: seq<Event>)
    requires WellTyped(cfg) && After(cfg, es).failure.None?
    ensures FitsTables(After(cfg, es).sink)
  {
    if es != [] {
      var n := |es| - 1;
      WritesFit(cfg, es[..n]);
      var st := After(cfg, es[..n]);
      BatchesTrackSamples(cfg, es[..n]);
      StepSink(cfg, st, es[n]);
      if Admits(cfg, es[n]) {
        assert Typed(es[n].kind, EntryOf(cfg, es[n]));
        StoreFitsTables(cfg, st.sink, es[n].kind, EntryOf(cfg, es[n]));
      } else {
        FlushFitsTables(cfg, st.sink);
      }
    }
  }

  lemma FittingWrites(cfg: Config, ts: Stream)
    requires WellTyped(cfg) && Accepted(cfg, ScanObject(ts))
    ensures WritesOk(StateOf(cfg, ScanObject(ts)).sink.writes)
  {
    WritesFit(cfg, ScanObject(ts).events);
  }

  /** An acceptable file, a restore cut off after any statement, and the restore run again on what is now
    * the account: the second run is accepted, and it ends exactly where one full run would have, if and
    * only if the cut was stable. (The requirements on the writes themselves always hold: FittingWrites.) */
  lemma RestoreAfterInterruption(t: Tables, cfg: Config, ts: Stream, n: nat, to': int, sampleFrom': Option<int>)
    requires WellTyped(cfg) && cfg.owned == t.vehicles && Valid(t) && Accepted(cfg, ScanObject(ts))
    requires var ws := StateOf(cfg, ScanObject(ts)).sink.writes;
             n <= |ws| && WritesOk(ws) && WritesOk(ws[..n]) &&
             Later(cfg, cfg.(owned := Run(t, ws[..n]).vehicles, to := to', sampleFrom := sampleFrom'),
                 ScanObject(ts).events)
    ensures var ws := StateOf(cfg, ScanObject(ts)).sink.writes;
            var u := Run(t, ws[..n]);
            var again := cfg.(owned := u.vehicles, to := to', sampleFrom := sampleFrom');
            && Accepted(again, ScanObject(ts)) && StateOf(again, ScanObject(ts)).sink.writes == ws
            && (Run(u, ws) == Run(t, ws) <==> Stable(t, ws, n))
  {
    var ws := StateOf(cfg, ScanObject(ts)).sink.writes;
    VehiclesAfter(t, ws[..n]);
    RunAgain(cfg, cfg.(owned := Run(t, ws[..n]).vehicles, to := to', sampleFrom := sampleFrom'), ScanObject(ts).events);
    ConvergesIffStable(t, ws, n);
    assert Converges(t, ws, n) <==> Run(Run(t, ws[..n]), ws) == Run(t, ws);
  }
}
