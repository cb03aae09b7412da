/** What an account holds after a restore: row by row, for any accepted file and for a backup. */
module AccountRecovery {
  import opened Options
  import opened Seqs
  import opened Sets
  import opened Account
  import opened Convergence
  import opened Json
  import opened Bundle
  import opened Restore
  import opened RestoreLaws
  import opened Acceptance
  import opened Recovery

  // ---------------------------------------------------------------------------------------------
  // Rows at one key
  // ---------------------------------------------------------------------------------------------

  ghost predicate Fitting(es: seq<Entry>) { forall e :: e in es ==> Fits(e.key, e.cell) }

  /** What the rows es say of key k, in order. */
  ghost function CellsOf(es: seq<Entry>, k: Key): (cs: seq<Cell>)
    requires Fitting(es)
    ensures forall c :: c in cs ==> Fits(k, c)
  {
    if es == [] then []
    else
      var n := |es| - 1;
      assert es[n] in es && forall e :: e in es[..n] ==> e in es;
      CellsOf(es[..n], k) + if es[n].key == k then [es[n].cell] else []
  }

  lemma CellsSnoc(es: seq<Entry>, e: Entry, k: Key)
    requires Fitting(es) && Fits(e.key, e.cell)
    ensures Fitting(es + [e]) && CellsOf(es + [e], k) == CellsOf(es, k) + if e.key == k then [e.cell] else []
  {
    assert (es + [e])[..|es|] == es;
  }

  lemma {:induction false} RowsFit(cfg: Config, vs: seq<Value>, kind: Kind, verdict: Verdict)
    requires WellTyped(cfg)
    ensures forall e :: e in Rows(cfg, vs, kind, verdict) ==> Typed(kind, e)
  {
    if vs != [] {
      RowsFit(cfg, vs[..|vs| - 1], kind, verdict);
    }
  }

  lemma {:induction false} PutsOfEntries(es: seq<Entry>, k: Key)
    requires Fitting(es)
    ensures WritesOk(PutsFor(es)) && PutsAt(PutsFor(es), k) == CellsOf(es, k)
  {
    if es != [] {
      var n := |es| - 1;
      var init, e := es[..n], es[n];
      assert es == init + [e] && e in es && forall x :: x in init ==> x in es;
      PutsOfEntries(init, k);
      PutsSnoc(init, e);
      PutsAtSnoc(PutsFor(init), PutOf(e), k);
    }
  }

  ghost predicate PutsBySent(ws: seq<Write>, k: Key)
    requires WritesOk(ws)
  {
    WritesOk(SentTo(ws, TableOf(k))) && PutsAt(SentTo(ws, TableOf(k)), k) == PutsAt(ws, k)
  }

  lemma PutsAtSentSnoc(ws: seq<Write>, w: Write, k: Key)
    requires WritesOk(ws) && WriteOk(w) && PutsBySent(ws, k)
    ensures WritesOk(ws + [w]) && PutsBySent(ws + [w], k)
  {
    var sent := SentTo(ws, TableOf(k));
    PutsAtSnoc(ws, w, k);
    assert (ws + [w])[..|ws|] == ws;
    if Sent(w, TableOf(k)) == [] {
      assert sent + [] == sent;
    } else {
      PutsAtSnoc(sent, w, k);
    }
  }

  /** Only the writes to its own table put anything at a key. */
  lemma {:induction false} PutsAtSent(ws: seq<Write>, k: Key)
    requires WritesOk(ws)
    ensures PutsBySent(ws, k)
  {
    if ws != [] {
      var n := |ws| - 1;
      var init, w := ws[..n], ws[n];
      assert ws == init + [w] && w in ws && forall v :: v in init ==> v in ws;
      PutsAtSent(init, k);
      PutsAtSentSnoc(init, w, k);
    }
  }

  lemma PutsAtOfFile(cfg: Config, ts: Stream, k: Key)
    requires WellTyped(cfg) && Accepted(cfg, ScanObject(ts))
    ensures WritesOk(StateOf(cfg, ScanObject(ts)).sink.writes)
    ensures var rows := RowsIn(cfg, ScanObject(ts).events, TableOf(k), Admit);
            && Fitting(rows)
            && PutsAt(StateOf(cfg, ScanObject(ts)).sink.writes, k) ==
               if Kept(cfg, TableOf(k)) then CellsOf(rows, k) else []
  {
    FittingWrites(cfg, ts);
    EveryTableGetsItsRows(cfg, ts, TableOf(k));
    PutsAtSent(StateOf(cfg, ScanObject(ts)).sink.writes, k);
    RowsFit(cfg, ValuesIn(ScanObject(ts).events, TableOf(k)), TableOf(k), Admit);
    PutsOfEntries(RowsIn(cfg, ScanObject(ts).events, TableOf(k), Admit), k);
  }

  /** After any accepted file, each row but a milestone is what was there with the file's admitted rows of its
    * key written over it, in file order. */
  lemma AccountAfterRestore(t: Tables, cfg: Config, ts: Stream, k: Key)
    requires WellTyped(cfg) && Accepted(cfg, ScanObject(ts)) && Valid(t) && !k.MilestoneKey?
    ensures WritesOk(StateOf(cfg, ScanObject(ts)).sink.writes)
    ensures var rows := RowsIn(cfg, ScanObject(ts).events, TableOf(k), Admit);
            && Fitting(rows)
            && Get(Run(t, StateOf(cfg, ScanObject(ts)).sink.writes), k) ==
               Fold(k, Get(t, k), if Kept(cfg, TableOf(k)) then CellsOf(rows, k) else [])
  {
    PutsAtOfFile(cfg, ts, k);
    CellAfter(t, StateOf(cfg, ScanObject(ts)).sink.writes, k);
  }

  // ---------------------------------------------------------------------------------------------
  // A second run under another clock
  // ---------------------------------------------------------------------------------------------

  /** A row of key k that both runs judge alike. */
  predicate AlikeAt(cfg: Config, cfg': Config, v: Value, k: Key) {
    var e := cfg.decode(TableOf(k), v);
    e.Some? && e.value.key == k ==> Judge(cfg', TableOf(k), e.value) == Judge(cfg, TableOf(k), e.value)
  }

  lemma {:induction false} SameCells(cfg: Config, cfg': Config, vs: seq<Value>, k: Key)
    requires WellTyped(cfg) && WellTyped(cfg') && cfg'.decode == cfg.decode
    requires forall v :: v in vs ==> AlikeAt(cfg, cfg', v, k)
    ensures var rows, rows' := Rows(cfg, vs, TableOf(k), Admit), Rows(cfg', vs, TableOf(k), Admit);
            Fitting(rows) && Fitting(rows') && CellsOf(rows, k) == CellsOf(rows', k)
  {
    RowsFit(cfg, vs, TableOf(k), Admit);
    RowsFit(cfg', vs, TableOf(k), Admit);
    if vs != [] {
      var n := |vs| - 1;
      var init, v := vs[..n], vs[n];
      assert vs == init + [v] && v in vs && forall x :: x in init ==> x in vs;
      SameCells(cfg, cfg', init, k);
      OneMoreCell(cfg, init, v, k);
      OneMoreCell(cfg', init, v, k);
    }
  }

  predicate PutsNow(cfg: Config, v: Value, k: Key) {
    var e := cfg.decode(TableOf(k), v);
    e.Some? && Judge(cfg, TableOf(k), e.value) == Admit && e.value.key == k
  }

  lemma OneMoreCell(cfg: Config, init: seq<Value>, v: Value, k: Key)
    requires WellTyped(cfg)
    ensures var rows, more := Rows(cfg, init, TableOf(k), Admit), Rows(cfg, init + [v], TableOf(k), Admit);
            && Fitting(rows) && Fitting(more)
            && CellsOf(more, k) == CellsOf(rows, k) +
               if PutsNow(cfg, v, k) then [cfg.decode(TableOf(k), v).value.cell] else []
  {
    RowsFit(cfg, init, TableOf(k), Admit);
    RowsFit(cfg, init + [v], TableOf(k), Admit);
    RowsSnoc(cfg, init, v, TableOf(k), Admit);
    var rows, e := Rows(cfg, init, TableOf(k), Admit), cfg.decode(TableOf(k), v);
    if e.Some? && Judge(cfg, TableOf(k), e.value) == Admit {
      assert Typed(TableOf(k), e.value);
      CellsSnoc(rows, e.value, k);
    } else {
      assert rows + [] == rows;
    }
  }

  /** A cut-off restore and a later full one whose clock may judge other rows otherwise: a row that both judge
    * alike ends as after one full run, a charge if and only if its price and network replay. */
  lemma RowAfterInterruption(t: Tables, cfg: Config, cfg': Config, ts: Stream, n: nat, k: Key)
    requires WellTyped(cfg) && WellTyped(cfg') && cfg'.decode == cfg.decode && cfg'.database == cfg.database
    requires Accepted(cfg, ScanObject(ts)) && Accepted(cfg', ScanObject(ts)) && Valid(t) && !k.MilestoneKey?
    requires forall v :: v in ValuesIn(ScanObject(ts).events, TableOf(k)) ==> AlikeAt(cfg, cfg', v, k)
    requires n <= |StateOf(cfg, ScanObject(ts)).sink.writes|
    ensures var ws, ws' := StateOf(cfg, ScanObject(ts)).sink.writes, StateOf(cfg', ScanObject(ts)).sink.writes;
            && WritesOk(ws) && WritesOk(ws') && WritesOk(ws[..n])
            && (Get(Run(Run(t, ws[..n]), ws'), k) == Get(Run(t, ws), k) <==>
                (k.ChargeKey? ==> PricesReplay(t, ws, n, k)))
  {
    var ws, ws' := StateOf(cfg, ScanObject(ts)).sink.writes, StateOf(cfg', ScanObject(ts)).sink.writes;
    PutsAtOfFile(cfg, ts, k);
    PutsAtOfFile(cfg', ts, k);
    SameCells(cfg, cfg', ValuesIn(ScanObject(ts).events, TableOf(k)), k);
    if k.ChargeKey? {
      ChargeConvergesIff(t, ws, n, k);
    } else {
      OtherRowsConverge(t, ws, n, k);
    }
    CellAfter(Run(t, ws[..n]), ws, k);
    CellAfter(Run(t, ws[..n]), ws', k);
  }

  // ---------------------------------------------------------------------------------------------
  // Milestones: the vehicle must be there first
  // ---------------------------------------------------------------------------------------------

  lemma {:induction false} MilestonesAppend(vehicles: set<string>, ws: seq<Write>, vs: seq<Write>, k: Key)
    requires WritesOk(ws) && WritesOk(vs) && k.MilestoneKey? && forall w :: w in vs && w.Put? ==> !w.key.MilestoneKey?
    ensures WritesOk(ws + vs) && MilestonesAt(vehicles, ws + vs, k) == MilestonesAt(vehicles, ws, k)
  {
    if vs == [] {
      assert ws + vs == ws;
    } else {
      var n := |vs| - 1;
      var init, w := vs[..n], vs[n];
      assert vs == init + [w] && w in vs && forall v :: v in init ==> v in vs;
      MilestonesAppend(vehicles, ws, init, k);
      MilestonesSnoc(vehicles, ws + init, w, k);
      assert ws + vs == ws + init + [w];
    }
  }

  lemma {:induction false} NoMilestonesPut(vehicles: set<string>, ws: seq<Write>, k: Key)
    requires WritesOk(ws) && PutsAt(ws, k) == []
    ensures MilestonesAt(vehicles, ws, k) == []
  {
    if ws != [] {
      var n := |ws| - 1;
      assert ws[n] in ws && forall w :: w in ws[..n] ==> w in ws;
      NoMilestonesPut(vehicles, ws[..n], k);
    }
  }

  predicate NoRows(es: seq<Event>, kind: Kind) { forall i :: 0 <= i < |es| ==> !(es[i].Row? && es[i].kind == kind) }

  lemma {:induction false} NoRowsWithoutValues(es: seq<Event>, kind: Kind)
    requires ValuesIn(es, kind) == []
    ensures NoRows(es, kind)
  {
    if es != [] {
      NoRowsWithoutValues(es[..|es| - 1], kind);
    }
  }

  /** Effect of a fine step that takes no milestone: what it adds puts none. */
  lemma StepAdds(cfg: Config, st: State, ev: Event) returns (added: seq<Write>)
    requires WellTyped(cfg) && BatchesFit(st.sink) && Fine(cfg, st, ev) && !(ev.Row? && ev.kind.Milestones?)
    ensures Step(cfg, st, ev).sink.writes == st.sink.writes + added
    ensures forall w :: w in added && w.Put? ==> !w.key.MilestoneKey?
  {
    StepSink(cfg, st, ev);
    if Admits(cfg, ev) {
      TypedTable(ev.kind, EntryOf(cfg, ev));
      added := StoreAdds(cfg, st.sink, ev.kind, EntryOf(cfg, ev));
    } else if ev.Finished? && ev.kind.Samples? {
      added := FlushAdds(cfg, st.sink);
    } else {
      added := [];
    }
  }

  lemma {:induction false} PutsOfSamples(es: seq<Entry>)
    requires forall e :: e in es ==> TableOf(e.key) == Samples
    ensures forall w :: w in PutsFor(es) ==> w.Put? && !w.key.MilestoneKey?
  {
    if es != [] {
      var n := |es| - 1;
      assert es[n] in es && forall e :: e in es[..n] ==> e in es;
      PutsOfSamples(es[..n]);
    }
  }

  lemma FlushAdds(cfg: Config, s: Sink) returns (added: seq<Write>)
    requires forall e :: e in s.batch ==> TableOf(e.key) == Samples
    ensures Flush(cfg, s).writes == s.writes + added && forall w :: w in added && w.Put? ==> !w.key.MilestoneKey?
  {
    if s.batch == [] || !FewMonths(cfg, s.batch) {
      added := [];
    } else {
      PutsOfSamples(s.batch);
      added := Resolve(s.batch).0 + if Resolve(s.batch).1 then PutsFor(s.batch) else [];
    }
  }

  lemma StoreAdds(cfg: Config, s: Sink, to: Kind, e: Entry) returns (added: seq<Write>)
    requires BatchesFit(s) && TableOf(e.key) == to && !to.Milestones?
    ensures Store(cfg, s, to, e).writes == s.writes + added && forall w :: w in added && w.Put? ==> !w.key.MilestoneKey?
  {
    if to.Samples? {
      var s' := s.(batch := s.batch + [e]);
      added := [];
      if |s'.batch| == BATCH {
        added := FlushAdds(cfg, s');
      }
    } else {
      added := if Timed(to) then (if e.vehicle == "" then [] else [Vehicle(e.vehicle), PutOf(e)])
               else if cfg.database then [PutOf(e)] else [];
    }
  }

  /** The milestones a run has stored at k. */
  ghost function StoredAt(cfg: Config, vehicles: set<string>, es: seq<Event>, k: Key): seq<Cell>
    requires WellTyped(cfg) && After(cfg, es).failure.None?
  {
    WritesFit(cfg, es);
    MilestonesAt(vehicles, After(cfg, es).sink.writes, k)
  }

  lemma OtherEventStoresNone(cfg: Config, vehicles: set<string>, init: seq<Event>, ev: Event, k: Key)
    requires WellTyped(cfg) && After(cfg, init + [ev]).failure.None? && k.MilestoneKey?
             && !(ev.Row? && ev.kind.Milestones?)
    ensures After(cfg, init).failure.None?
    ensures StoredAt(cfg, vehicles, init + [ev], k) == StoredAt(cfg, vehicles, init, k)
  {
    AfterSnoc(cfg, init, ev);
    BatchesTrackSamples(cfg, init);
    WritesFit(cfg, init);
    WritesFit(cfg, init + [ev]);
    var added := StepAdds(cfg, After(cfg, init), ev);
    assert forall w :: w in added ==> w in After(cfg, init + [ev]).sink.writes;
    MilestonesAppend(vehicles, After(cfg, init).sink.writes, added, k);
  }

  lemma {:induction false} OtherEventsStoreNone(cfg: Config, vehicles: set<string>, front: seq<Event>, es: seq<Event>,
      k: Key)
    requires WellTyped(cfg) && After(cfg, front + es).failure.None? && k.MilestoneKey? && NoRows(es, Milestones)
    ensures After(cfg, front).failure.None?
    ensures StoredAt(cfg, vehicles, front + es, k) == StoredAt(cfg, vehicles, front, k)
  {
    if es == [] {
      assert front + es == front;
    } else {
      var n := |es| - 1;
      var init, ev := es[..n], es[n];
      assert front + es == front + init + [ev];
      OtherEventStoresNone(cfg, vehicles, front + init, ev, k);
      OtherEventsStoreNone(cfg, vehicles, front, init, k);
    }
  }

  /** Some drive or charge of the file, inside the window, belongs to vehicle id. */
  ghost predicate InSession(cfg: Config, es: seq<Event>, id: string) {
    Refers(cfg, es, Drives, id) || Refers(cfg, es, Charges, id)
  }

  lemma InSessionSnoc(cfg: Config, es: seq<Event>, ev: Event, id: string)
    ensures InSession(cfg, es + [ev], id) <==>
            InSession(cfg, es, id) || RefersNow(cfg, ev, Drives, id) || RefersNow(cfg, ev, Charges, id)
  {
    RefersSnoc(cfg, es, ev, Drives, id);
    RefersSnoc(cfg, es, ev, Charges, id);
  }

  lemma StepCreates(cfg: Config, st: State, ev: Event, id: string)
    requires Fine(cfg, st, ev) && st.sink.Ok() && st.sink.batch == [] && !(ev.Row? && ev.kind.Samples?)
    ensures Step(cfg, st, ev).sink.batch == []
    ensures Vehicle(id) in Step(cfg, st, ev).sink.writes <==>
            Vehicle(id) in st.sink.writes || RefersNow(cfg, ev, Drives, id) || RefersNow(cfg, ev, Charges, id)
  {
    StepSink(cfg, st, ev);
  }

  /** Before any sample, the vehicles created are those of the drives and charges so far. */
  lemma {:induction false} SessionsCreate(cfg: Config, es: seq<Event>, id: string)
    requires WellTyped(cfg) && After(cfg, es).failure.None? && NoRows(es, Samples)
    ensures After(cfg, es).sink.batch == []
    ensures id in Created(After(cfg, es).sink.writes) <==> InSession(cfg, es, id)
  {
    if es != [] {
      var n := |es| - 1;
      var init, ev := es[..n], es[n];
      assert es == init + [ev];
      AfterSnoc(cfg, init, ev);
      SessionsCreate(cfg, init, id);
      BatchesTrackSamples(cfg, init);
      StepCreates(cfg, After(cfg, init), ev, id);
      InSessionSnoc(cfg, init, ev, id);
      CreatedIff(After(cfg, init).sink.writes, id);
      CreatedIff(After(cfg, es).sink.writes, id);
    }
  }

  lemma CreatedIff(ws: seq<Write>, id: string)
    ensures id in Created(ws) <==> Vehicle(id) in ws
  {
  }

  lemma StepMilestone(cfg: Config, st: State, ev: Event)
    requires cfg.database && Fine(cfg, st, ev) && ev.Row? && ev.kind.Milestones?
    ensures Admits(cfg, ev) && Step(cfg, st, ev).sink.writes == st.sink.writes + [PutOf(EntryOf(cfg, ev))]
  {
  }

  lemma MilestoneEventStores(cfg: Config, vehicles: set<string>, init: seq<Event>, ev: Event, k: Key)
    requires WellTyped(cfg) && cfg.database && After(cfg, init + [ev]).failure.None? && k.MilestoneKey?
    requires ev.Row? && ev.kind.Milestones?
    ensures After(cfg, init).failure.None? && Admits(cfg, ev)
    ensures StoredAt(cfg, vehicles, init + [ev], k) == StoredAt(cfg, vehicles, init, k) +
            if EntryOf(cfg, ev).key == k && k.vehicle in vehicles + Created(After(cfg, init).sink.writes)
            then [EntryOf(cfg, ev).cell] else []
  {
    AfterSnoc(cfg, init, ev);
    StepMilestone(cfg, After(cfg, init), ev);
    WritesFit(cfg, init);
    var e := EntryOf(cfg, ev);
    assert Typed(Milestones, e);
    MilestonesSnoc(vehicles, After(cfg, init).sink.writes, PutOf(e), k);
  }

  lemma {:induction false} NoValuesWithoutRows(es: seq<Event>, kind: Kind)
    requires NoRows(es, kind)
    ensures ValuesIn(es, kind) == []
  {
    if es != [] {
      var init := es[..|es| - 1];
      assert forall i :: 0 <= i < |init| ==> init[i] == es[i];
      NoValuesWithoutRows(init, kind);
    }
  }

  lemma QuietEvents(front: seq<Event>, es: seq<Event>, kind: Kind)
    requires NoRows(es, kind)
    ensures ValuesIn(front + es, kind) == ValuesIn(front, kind)
  {
    ValuesAppend(front, es, kind);
    NoValuesWithoutRows(es, kind);
  }

  lemma QuietSessions(cfg: Config, front: seq<Event>, es: seq<Event>, id: string)
    requires NoRows(es, Drives) && NoRows(es, Charges)
    ensures InSession(cfg, front + es, id) <==> InSession(cfg, front, id)
  {
    QuietEvents(front, es, Drives);
    QuietEvents(front, es, Charges);
  }

  ghost function MilestoneCells(cfg: Config, es: seq<Event>, k: Key): seq<Cell>
    requires WellTyped(cfg)
  {
    RowsFit(cfg, ValuesIn(es, Milestones), Milestones, Admit);
    CellsOf(RowsIn(cfg, es, Milestones, Admit), k)
  }

  lemma MilestoneCellsSnoc(cfg: Config, es: seq<Event>, ev: Event, k: Key)
    requires WellTyped(cfg) && (ev.Row? && ev.kind.Milestones? ==> Admits(cfg, ev))
    ensures MilestoneCells(cfg, es + [ev], k) == MilestoneCells(cfg, es, k) +
            if ev.Row? && ev.kind.Milestones? && EntryOf(cfg, ev).key == k then [EntryOf(cfg, ev).cell] else []
  {
    RowsInSnoc(cfg, es, ev, Milestones, Admit);
    RowsFit(cfg, ValuesIn(es, Milestones), Milestones, Admit);
    var rows := RowsIn(cfg, es, Milestones, Admit);
    if ev.Row? && ev.kind.Milestones? {
      CellsSnoc(rows, EntryOf(cfg, ev), k);
    } else {
      assert rows + [] == rows;
    }
  }

  /** Milestones that follow all drives and charges and precede all samples: stored exactly when their vehicle
    * is on the account or in a drive or charge. */
  lemma {:induction false} MilestonesAfterSessions(cfg: Config, vehicles: set<string>, front: seq<Event>,
      es: seq<Event>, k: Key)
    requires WellTyped(cfg) && cfg.database && After(cfg, front + es).failure.None? && k.MilestoneKey?
    requires NoRows(front, Samples) && NoRows(front, Milestones)
    requires NoRows(es, Samples) && NoRows(es, Drives) && NoRows(es, Charges)
    ensures StoredAt(cfg, vehicles, front + es, k) ==
            if k.vehicle in vehicles || InSession(cfg, front, k.vehicle) then MilestoneCells(cfg, front + es, k) else []
  {
    if es == [] {
      assert front + es == front && [] + front == front;
      OtherEventsStoreNone(cfg, vehicles, [], front, k);
      QuietEvents([], front, Milestones);
    } else {
      var n := |es| - 1;
      var init, ev := es[..n], es[n];
      var so := front + init;
      assert front + es == so + [ev];
      AfterSnoc(cfg, so, ev);
      MilestonesAfterSessions(cfg, vehicles, front, init, k);
      if ev.Row? && ev.kind.Milestones? {
        MilestoneEventStores(cfg, vehicles, so, ev, k);
        SessionsCreate(cfg, so, k.vehicle);
        QuietSessions(cfg, front, init, k.vehicle);
      } else {
        OtherEventStoresNone(cfg, vehicles, so, ev, k);
      }
      MilestoneCellsSnoc(cfg, so, ev, k);
    }
  }

  // ---------------------------------------------------------------------------------------------
  // The vehicles of an accepted file
  // ---------------------------------------------------------------------------------------------

  predicate Names(es: seq<Entry>, id: string) { exists e :: e in es && e.vehicle == id }

  lemma NamesAppend(es: seq<Entry>, more: seq<Entry>, id: string)
    ensures Names(es + more, id) <==> Names(es, id) || Names(more, id)
  {
  }

  lemma {:induction false} ResolveNames(es: seq<Entry>, id: string)
    requires Resolve(es).1
    ensures Vehicle(id) in Resolve(es).0 <==> Names(es, id)
  {
    if es != [] {
      var n := |es| - 1;
      var init, e := es[..n], es[n];
      assert es == init + [e];
      ResolveNames(init, id);
      NamesAppend(init, [e], id);
      assert Names([e], id) <==> e.vehicle == id by {
        assert e in [e];
      }
    }
  }

  lemma {:induction false} PutsCreateNone(es: seq<Entry>, id: string)
    ensures Vehicle(id) !in PutsFor(es)
  {
    if es != [] {
      PutsCreateNone(es[..|es| - 1], id);
    }
  }

  /** A vehicle is created exactly when a session or a written sample named it. */
  ghost predicate CreatedSoFar(cfg: Config, s: Sink, es: seq<Event>, id: string) {
    Vehicle(id) in s.writes <==> InSession(cfg, es, id) || Names(Flat(s.batches), id)
  }

  lemma FlushCreates(cfg: Config, s: Sink, es: seq<Event>, id: string)
    requires CreatedSoFar(cfg, s, es, id) && s.Ok() && Flush(cfg, s).Ok()
    ensures CreatedSoFar(cfg, Flush(cfg, s), es, id)
  {
    if s.batch != [] {
      ResolveNames(s.batch, id);
      PutsCreateNone(s.batch, id);
      NamesAppend(Flat(s.batches), s.batch, id);
    }
  }

  lemma SampleEventCreates(cfg: Config, st: State, init: seq<Event>, ev: Event, id: string)
    requires Fine(cfg, st, ev) && st.sink.Ok() && (ev.Row? || ev.Finished?) && ev.kind.Samples?
             && CreatedSoFar(cfg, st.sink, init, id)
    ensures CreatedSoFar(cfg, Step(cfg, st, ev).sink, init, id)
  {
    StepSink(cfg, st, ev);
    if Admits(cfg, ev) {
      var s := st.sink.(batch := st.sink.batch + [EntryOf(cfg, ev)]);
      if |s.batch| == BATCH {
        FlushCreates(cfg, s, init, id);
      }
    } else if ev.Finished? {
      FlushCreates(cfg, st.sink, init, id);
    }
  }

  lemma OtherEventCreates(cfg: Config, st: State, init: seq<Event>, ev: Event, id: string)
    requires Fine(cfg, st, ev) && st.sink.Ok() && (ev.Key? || !ev.kind.Samples?) && CreatedSoFar(cfg, st.sink, init, id)
    ensures CreatedSoFar(cfg, Step(cfg, st, ev).sink, init + [ev], id)
  {
    StepSink(cfg, st, ev);
    InSessionSnoc(cfg, init, ev, id);
  }

  lemma CreatesRung(cfg: Config, init: seq<Event>, ev: Event, id: string)
    requires WellTyped(cfg) && After(cfg, init + [ev]).failure.None?
    ensures After(cfg, init).failure.None?
    ensures CreatedSoFar(cfg, After(cfg, init).sink, init, id) ==>
            CreatedSoFar(cfg, After(cfg, init + [ev]).sink, init + [ev], id)
  {
    AfterSnoc(cfg, init, ev);
    BatchesTrackSamples(cfg, init);
    if CreatedSoFar(cfg, After(cfg, init).sink, init, id) {
      if ev.Key? || !ev.kind.Samples? {
        OtherEventCreates(cfg, After(cfg, init), init, ev, id);
      } else {
        SampleEventCreates(cfg, After(cfg, init), init, ev, id);
        InSessionSnoc(cfg, init, ev, id);
      }
    }
  }

  lemma CreatedTracksRows(cfg: Config, es: seq<Event>, id: string)
    requires WellTyped(cfg) && After(cfg, es).failure.None?
    ensures CreatedSoFar(cfg, After(cfg, es).sink, es, id)
  {
    var good := iset fs | After(cfg, fs).failure.None?;
    var ok := iset fs | CreatedSoFar(cfg, After(cfg, fs).sink, fs, id);
    assert !InSession(cfg, [], id) && After(cfg, []).sink == START.sink;
    forall init, ev ensures Rung(good, ok, init, ev) {
      if init + [ev] in good {
        CreatesRung(cfg, init, ev, id);
      }
    }
    Ladder(good, ok, es);
  }

  /** After any accepted file the vehicles are those of the account and those that a drive, a charge or a
    * sample of the file, inside the window, belongs to; milestones create none. */
  lemma VehiclesAfterRestore(t: Tables, cfg: Config, ts: Stream, id: string)
    requires WellTyped(cfg) && Accepted(cfg, ScanObject(ts)) && Valid(t)
    ensures WritesOk(StateOf(cfg, ScanObject(ts)).sink.writes)
    ensures id in Run(t, StateOf(cfg, ScanObject(ts)).sink.writes).vehicles <==>
            id in t.vehicles || InSession(cfg, ScanObject(ts).events, id)
                || Refers(cfg, ScanObject(ts).events, Samples, id)
  {
    var es, s := ScanObject(ts).events, StateOf(cfg, ScanObject(ts)).sink;
    FittingWrites(cfg, ts);
    VehiclesAfter(t, s.writes);
    CreatedIff(s.writes, id);
    CreatedTracksRows(cfg, es, id);
    NothingWaits(cfg, ts);
    BatchesTrackSamples(cfg, es);
    assert Flat(s.batches) + [] == Flat(s.batches);
  }

  // ---------------------------------------------------------------------------------------------
  // A backup restored
  // ---------------------------------------------------------------------------------------------

  /** The rows a backup holds for a table, decoded. */
  function Decoded(cfg: Config, vs: seq<Value>, kind: Kind): (es: seq<Entry>)
    requires forall v :: v in vs ==> cfg.decode(kind, v).Some?
    ensures |es| == |vs| && forall i :: 0 <= i < |vs| ==> Some(es[i]) == cfg.decode(kind, vs[i])
  {
    seq(|vs|, i requires 0 <= i < |vs| => cfg.decode(kind, vs[i]).value)
  }

  lemma DecodedSnoc(cfg: Config, vs: seq<Value>, v: Value, kind: Kind)
    requires (forall x :: x in vs ==> cfg.decode(kind, x).Some?) && cfg.decode(kind, v).Some?
    ensures Decoded(cfg, vs + [v], kind) == Decoded(cfg, vs, kind) + [cfg.decode(kind, v).value]
  {
  }

  lemma {:induction false} GoodRowsAreAdmitted(cfg: Config, ids: set<string>, vs: seq<Value>, kind: Kind)
    requires forall v :: v in vs ==> RowGood(cfg, ids, kind, v)
    ensures (forall v :: v in vs ==> cfg.decode(kind, v).Some?) && Rows(cfg, vs, kind, Admit) == Decoded(cfg, vs, kind)
  {
    if vs != [] {
      var n := |vs| - 1;
      var init, v := vs[..n], vs[n];
      assert vs == init + [v] && v in vs && RowGood(cfg, ids, kind, v) && forall x :: x in init ==> x in vs;
      GoodRowsAreAdmitted(cfg, ids, init, kind);
      RowsSnoc(cfg, init, v, kind, Admit);
      DecodedSnoc(cfg, init, v, kind);
    }
  }

  ghost predicate Readable(cfg: Config, b: Backup) {
    forall kind, v :: v in RowsOf(b, kind) ==> cfg.decode(kind, v).Some?
  }

  /** The rows of a backup, decoded, all fit their table. */
  ghost function EntriesOf(cfg: Config, b: Backup, kind: Kind): (es: seq<Entry>)
    requires WellTyped(cfg) && Readable(cfg, b)
    ensures Fitting(es) && |es| == |RowsOf(b, kind)|
    ensures forall e :: e in es ==> Typed(kind, e)
  {
    var es := Decoded(cfg, RowsOf(b, kind), kind);
    assert forall i :: 0 <= i < |es| ==> Typed(kind, es[i]);
    es
  }

  /** A vehicle that a drive or a charge of the backup belongs to. */
  ghost predicate Travelled(cfg: Config, b: Backup, id: string)
    requires WellTyped(cfg) && Readable(cfg, b)
  {
    (exists e :: e in EntriesOf(cfg, b, Drives) && e.vehicle == id)
        || exists e :: e in EntriesOf(cfg, b, Charges) && e.vehicle == id
  }

  /** Whether a row at k reaches its table: the account needs a database for all but the three main tables,
    * and a milestone needs its vehicle, which only the drives and charges written before it create. */
  ghost predicate Reaches(vehicles: set<string>, cfg: Config, b: Backup, k: Key)
    requires WellTyped(cfg) && Readable(cfg, b)
  {
    Kept(cfg, TableOf(k)) && (k.MilestoneKey? ==> k.vehicle in vehicles || Travelled(cfg, b, k.vehicle))
  }

  function FileOf(b: Backup): Scan { ScanObject(Print(Object(Contents(b)), End)) }

  /** The rest of an object from some field on. */
  predicate Ends(fields: Fields, rest: Fields) { fields == rest || (fields.Field? && Ends(fields.rest, rest)) }

  lemma {:induction false} EventsEnd(fields: Fields, rest: Fields) returns (front: seq<Event>)
    requires Ends(fields, rest)
    ensures EventsOf(fields) == front + EventsOf(rest)
    decreases fields
  {
    if fields == rest {
      front := [];
    } else {
      var tail := EventsEnd(fields.rest, rest);
      front := [Key(fields.name)] + (ValueEvents(KindOf(fields.name), fields.value) + tail);
    }
  }

  lemma BackupEnds(b: Backup)
    requires b.extras.Extras?
    ensures Ends(Contents(b), Field("milestones", ArrayOf(b.extras.milestones), SampleFields(b)))
  {
    var rest := Field("milestones", ArrayOf(b.extras.milestones), SampleFields(b));
    var third := Field("drive_analyses", ArrayOf(b.extras.analyses), rest);
    assert Ends(rest, rest) && Ends(third, rest);
    assert Ends(WithExtras(b.extras, SampleFields(b)), rest);
    assert Ends(RowFields(b), rest);
    var omitted := Field("derived_omitted", b.omitted, RowFields(b));
    var settings := Field("user_settings", b.settings, Field("vehicle_profiles", b.profiles, omitted));
    assert Ends(settings, rest);
  }

  lemma BackupEvents(b: Backup)
    ensures FileOf(b).events == EventsOf(Contents(b))
  {
    ColumnOfBackup(b, Drives);
    ScanPrintedFields(Contents(b), true, End);
  }

  /** A backup's file, cut around its milestones. */
  lemma BackupParts(b: Backup) returns (front: seq<Event>, middle: seq<Event>, back: seq<Event>)
    requires b.extras.Extras?
    ensures FileOf(b).events == EventsOf(Contents(b)) == front + middle + back
    ensures middle == [Key("milestones")] + ValueEvents(Some(Milestones), ArrayOf(b.extras.milestones))
    ensures back == EventsOf(SampleFields(b))
  {
    var v := ArrayOf(b.extras.milestones);
    BackupEnds(b);
    BackupEvents(b);
    front := EventsEnd(Contents(b), Field("milestones", v, SampleFields(b)));
    middle, back := [Key("milestones")] + ValueEvents(Some(Milestones), v), EventsOf(SampleFields(b));
    assert front + ([Key("milestones")] + (ValueEvents(Some(Milestones), v) + back)) == front + middle + back;
  }

  lemma MiddleValues(vs: seq<Value>, kind: Kind)
    ensures ValuesIn([Key("milestones")] + ValueEvents(Some(Milestones), ArrayOf(vs)), kind) ==
            if kind.Milestones? then vs else []
  {
    ValuesOfValue(Some(Milestones), ArrayOf(vs), kind);
    ElementsOfItems(vs);
    ValuesAppend([Key("milestones")], ValueEvents(Some(Milestones), ArrayOf(vs)), kind);
  }

  lemma BackValues(b: Backup, kind: Kind)
    ensures ValuesIn(EventsOf(SampleFields(b)), kind) == if kind.Samples? then b.samples else []
  {
    ColumnOfSamples(b, kind);
    ValuesOfFields(SampleFields(b), kind);
  }

  lemma PartValues(b: Backup, front: seq<Event>, middle: seq<Event>, back: seq<Event>, kind: Kind)
    requires b.extras.Extras? && EventsOf(Contents(b)) == front + middle + back
    requires middle == [Key("milestones")] + ValueEvents(Some(Milestones), ArrayOf(b.extras.milestones))
    requires back == EventsOf(SampleFields(b)) && kind in {Drives, Charges, Samples, Milestones}
    ensures ValuesIn(middle, kind) == if kind.Milestones? then b.extras.milestones else []
    ensures ValuesIn(back, kind) == if kind.Samples? then b.samples else []
    ensures ValuesIn(front, kind) == if kind.Drives? then b.drives else if kind.Charges? then b.charges else []
  {
    MiddleValues(b.extras.milestones, kind);
    BackValues(b, kind);
    ColumnOfBackup(b, kind);
    ValuesOfFields(Contents(b), kind);
    ValuesAppend(front + middle, back, kind);
    ValuesAppend(front, middle, kind);
    FrontLeft(ValuesIn(front, kind), ValuesIn(middle, kind), ValuesIn(back, kind), RowsOf(b, kind));
  }

  /** All drives and charges come before the milestones, all samples after. */
  lemma PartRows(b: Backup, front: seq<Event>, middle: seq<Event>, back: seq<Event>)
    requires b.extras.Extras? && EventsOf(Contents(b)) == front + middle + back
    requires middle == [Key("milestones")] + ValueEvents(Some(Milestones), ArrayOf(b.extras.milestones))
    requires back == EventsOf(SampleFields(b))
    ensures NoRows(front, Samples) && NoRows(front, Milestones) && NoRows(back, Milestones)
    ensures NoRows(middle, Samples) && NoRows(middle, Drives) && NoRows(middle, Charges)
  {
    PartValues(b, front, middle, back, Drives);
    PartValues(b, front, middle, back, Charges);
    PartValues(b, front, middle, back, Samples);
    PartValues(b, front, middle, back, Milestones);
    NoRowsWithoutValues(front, Samples);
    NoRowsWithoutValues(front, Milestones);
    NoRowsWithoutValues(back, Milestones);
    NoRowsWithoutValues(middle, Samples);
    NoRowsWithoutValues(middle, Drives);
    NoRowsWithoutValues(middle, Charges);
  }

  lemma BackupIsReadable(cfg: Config, ids: set<string>, b: Backup)
    requires Restorable(cfg, ids, b)
    ensures Readable(cfg, b)
  {
    forall kind, v | v in RowsOf(b, kind) ensures cfg.decode(kind, v).Some? {
      assert RowGood(cfg, ids, kind, v);
    }
  }

  lemma RowsEnter(cfg: Config, ids: set<string>, b: Backup, kind: Kind)
    requires WellTyped(cfg) && Restorable(cfg, ids, b)
    ensures Readable(cfg, b) && Rows(cfg, RowsOf(b, kind), kind, Admit) == EntriesOf(cfg, b, kind)
  {
    BackupIsReadable(cfg, ids, b);
    GoodRowsAreAdmitted(cfg, ids, RowsOf(b, kind), kind);
  }

  /** What the restore of a backup puts at k. */
  lemma BackupPuts(cfg: Config, ids: set<string>, b: Backup, k: Key)
    requires WellTyped(cfg) && Restorable(cfg, ids, b)
    ensures Accepted(cfg, FileOf(b)) && Readable(cfg, b) && WritesOk(StateOf(cfg, FileOf(b)).sink.writes)
    ensures PutsAt(StateOf(cfg, FileOf(b)).sink.writes, k) ==
            if Kept(cfg, TableOf(k)) then CellsOf(EntriesOf(cfg, b, TableOf(k)), k) else []
  {
    BackupIsSent(cfg, ids, b, TableOf(k));
    PutsAtOfFile(cfg, Print(Object(Contents(b)), End), k);
    BackupScans(b, TableOf(k));
    RowsEnter(cfg, ids, b, TableOf(k));
  }

  lemma FrontSessions(cfg: Config, ids: set<string>, b: Backup, front: seq<Event>, id: string)
    requires WellTyped(cfg) && Restorable(cfg, ids, b)
    requires ValuesIn(front, Drives) == b.drives && ValuesIn(front, Charges) == b.charges
    ensures Readable(cfg, b) && (InSession(cfg, front, id) <==> Travelled(cfg, b, id))
  {
    RowsEnter(cfg, ids, b, Drives);
    RowsEnter(cfg, ids, b, Charges);
  }

  lemma PartsStore(vehicles: set<string>, cfg: Config, front: seq<Event>, middle: seq<Event>, back: seq<Event>, k: Key)
    requires WellTyped(cfg) && cfg.database && After(cfg, front + middle + back).failure.None? && k.MilestoneKey?
    requires NoRows(front, Samples) && NoRows(front, Milestones) && NoRows(back, Milestones)
    requires NoRows(middle, Samples) && NoRows(middle, Drives) && NoRows(middle, Charges)
    ensures StoredAt(cfg, vehicles, front + middle + back, k) ==
            if k.vehicle in vehicles || InSession(cfg, front, k.vehicle)
            then MilestoneCells(cfg, front + middle, k) else []
  {
    OtherEventsStoreNone(cfg, vehicles, front + middle, back, k);
    MilestonesAfterSessions(cfg, vehicles, front, middle, k);
  }

  lemma MiddleCells(cfg: Config, ids: set<string>, b: Backup, front: seq<Event>, middle: seq<Event>, k: Key)
    requires WellTyped(cfg) && Restorable(cfg, ids, b) && b.extras.Extras?
    requires ValuesIn(front, Milestones) == [] && ValuesIn(middle, Milestones) == b.extras.milestones
    ensures Readable(cfg, b) && MilestoneCells(cfg, front + middle, k) == CellsOf(EntriesOf(cfg, b, Milestones), k)
  {
    ValuesAppend(front, middle, Milestones);
    assert [] + b.extras.milestones == RowsOf(b, Milestones);
    RowsEnter(cfg, ids, b, Milestones);
  }

  lemma PartMilestones(vehicles: set<string>, cfg: Config, ids: set<string>, b: Backup, k: Key)
    requires WellTyped(cfg) && Restorable(cfg, ids, b) && cfg.database && b.extras.Extras? && k.MilestoneKey?
    ensures After(cfg, FileOf(b).events).failure.None? && Readable(cfg, b)
    ensures StoredAt(cfg, vehicles, FileOf(b).events, k) ==
            if Reaches(vehicles, cfg, b, k) then CellsOf(EntriesOf(cfg, b, Milestones), k) else []
  {
    BackupIsSent(cfg, ids, b, Milestones);
    var front, middle, back := BackupParts(b);
    PartRows(b, front, middle, back);
    PartsStore(vehicles, cfg, front, middle, back, k);
    PartValues(b, front, middle, back, Drives);
    PartValues(b, front, middle, back, Charges);
    PartValues(b, front, middle, back, Milestones);
    FrontSessions(cfg, ids, b, front, k.vehicle);
    MiddleCells(cfg, ids, b, front, middle, k);
  }

  /** What the restore of a backup stores of milestones at k. */
  ghost predicate StoresWhereReached(vehicles: set<string>, cfg: Config, b: Backup, k: Key)
    requires Readable(cfg, b) && WellTyped(cfg) && WritesOk(StateOf(cfg, FileOf(b)).sink.writes)
  {
    MilestonesAt(vehicles, StateOf(cfg, FileOf(b)).sink.writes, k) ==
    if Reaches(vehicles, cfg, b, k) then CellsOf(EntriesOf(cfg, b, Milestones), k) else []
  }

  lemma WithMilestones(vehicles: set<string>, cfg: Config, ids: set<string>, b: Backup, k: Key)
    requires WellTyped(cfg) && Restorable(cfg, ids, b) && k.MilestoneKey? && cfg.database && b.extras.Extras?
    ensures Readable(cfg, b) && WritesOk(StateOf(cfg, FileOf(b)).sink.writes) && StoresWhereReached(vehicles, cfg, b, k)
  {
    PartMilestones(vehicles, cfg, ids, b, k);
    WritesFit(cfg, FileOf(b).events);
  }

  lemma NoMilestoneCells(cfg: Config, b: Backup, k: Key)
    requires WellTyped(cfg) && Readable(cfg, b) && k.MilestoneKey? && !(cfg.database && b.extras.Extras?)
    ensures Kept(cfg, Milestones) ==> CellsOf(EntriesOf(cfg, b, Milestones), k) == []
  {
    if cfg.database {
      assert |RowsOf(b, Milestones)| == 0;
      assert EntriesOf(cfg, b, Milestones) == [];
    }
  }

  lemma WithoutMilestones(vehicles: set<string>, cfg: Config, ids: set<string>, b: Backup, k: Key)
    requires WellTyped(cfg) && Restorable(cfg, ids, b) && k.MilestoneKey? && !(cfg.database && b.extras.Extras?)
    ensures Readable(cfg, b) && WritesOk(StateOf(cfg, FileOf(b)).sink.writes) && StoresWhereReached(vehicles, cfg, b, k)
  {
    BackupPuts(cfg, ids, b, k);
    NoMilestoneCells(cfg, b, k);
    NoMilestonesPut(vehicles, StateOf(cfg, FileOf(b)).sink.writes, k);
  }

  lemma BackupMilestones(vehicles: set<string>, cfg: Config, ids: set<string>, b: Backup, k: Key)
    requires WellTyped(cfg) && Restorable(cfg, ids, b) && k.MilestoneKey?
    ensures Readable(cfg, b) && WritesOk(StateOf(cfg, FileOf(b)).sink.writes) && StoresWhereReached(vehicles, cfg, b, k)
  {
    if cfg.database && b.extras.Extras? {
      WithMilestones(vehicles, cfg, ids, b, k);
    } else {
      WithoutMilestones(vehicles, cfg, ids, b, k);
    }
  }

  lemma FoldMilestones(k: Key, was: Option<Cell>, cs: seq<Cell>)
    requires k.MilestoneKey? && (forall c :: c in cs ==> Fits(k, c)) && (was.Some? ==> Fits(k, was.value))
    ensures Fold(k, was, cs) == if cs == [] then was else Some(cs[|cs| - 1])
  {
  }

  /** Backup, then restore into any account: the file is accepted, and afterwards every row is what was there
    * with the backup's rows of its key written over it; a milestone whose vehicle is neither on the account
    * nor in a drive or charge of the backup is left as it was. */
  lemma RestoreRecoversBackup(t: Tables, cfg: Config, ids: set<string>, b: Backup, k: Key)
    requires WellTyped(cfg) && Restorable(cfg, ids, b) && Valid(t)
    ensures Accepted(cfg, FileOf(b)) && Readable(cfg, b) && WritesOk(StateOf(cfg, FileOf(b)).sink.writes)
    ensures Get(Run(t, StateOf(cfg, FileOf(b)).sink.writes), k) ==
            Fold(k, Get(t, k), if Reaches(t.vehicles, cfg, b, k) then CellsOf(EntriesOf(cfg, b, TableOf(k)), k) else [])
  {
    var ws := StateOf(cfg, FileOf(b)).sink.writes;
    BackupPuts(cfg, ids, b, k);
    if k.MilestoneKey? {
      BackupMilestones(t.vehicles, cfg, ids, b, k);
      MilestoneAfter(t, ws, k);
      FoldMilestones(k, Get(t, k), MilestonesAt(t.vehicles, ws, k));
    } else {
      CellAfter(t, ws, k);
    }
  }

  // ---------------------------------------------------------------------------------------------
  // Restored into a new account
  // ---------------------------------------------------------------------------------------------

  const EMPTY := Tables({}, map[])

  /** b is a backup of t: each of its rows, once. */
  ghost predicate BacksUp(cfg: Config, b: Backup, t: Tables)
    requires WellTyped(cfg) && Readable(cfg, b)
  {
    forall k :: CellsOf(EntriesOf(cfg, b, TableOf(k)), k) == if k in t.rows then [t.rows[k]] else []
  }

  /** The row as a first insert stores it. */
  function Inserted(c: Cell): Cell {
    if c.ChargeCell? then ChargeCell(c.charge.(place := StoredPlace(c.charge))) else c
  }

  lemma FirstInsert(k: Key, cs: seq<Cell>)
    requires |cs| <= 1 && forall c :: c in cs ==> Fits(k, c)
    ensures Fold(k, None, cs) == if cs == [] then None else Some(Inserted(cs[0]))
  {
    if cs != [] {
      assert cs[..0] == [] && cs[0] in cs;
    }
  }

  /** In a new account, exactly the rows that reach their table. */
  lemma FreshRestore(t: Tables, cfg: Config, ids: set<string>, b: Backup, k: Key)
    requires WellTyped(cfg) && Restorable(cfg, ids, b) && Readable(cfg, b) && BacksUp(cfg, b, t)
    ensures WritesOk(StateOf(cfg, FileOf(b)).sink.writes)
    ensures Get(Run(EMPTY, StateOf(cfg, FileOf(b)).sink.writes), k) ==
            if k in t.rows && Reaches({}, cfg, b, k) then Some(Inserted(t.rows[k])) else None
  {
    RestoreRecoversBackup(EMPTY, cfg, ids, b, k);
    FirstInsert(k, CellsOf(EntriesOf(cfg, b, TableOf(k)), k));
    FirstInsert(k, []);
  }

  lemma InsertedSame(k: Key, c: Cell)
    requires Fits(k, c)
    ensures Inserted(c) == c <==> (k.ChargeKey? ==> c.charge.place == StoredPlace(c.charge))
  {
  }

  lemma SameRows(rows: map<Key, Cell>, others: map<Key, Cell>)
    ensures rows == others <==> forall k :: Get(Tables({}, rows), k) == Get(Tables({}, others), k)
  {
    if forall k :: Get(Tables({}, rows), k) == Get(Tables({}, others), k) {
      SameTables(Tables({}, rows), Tables({}, others));
    }
  }

  /** Rows inserted anew where they were reached: all the same as before, when? */
  lemma SameWhenInserted(t: Tables, u: Tables, reached: iset<Key>)
    requires Valid(t)
    requires forall k :: Get(u, k) == if k in t.rows && k in reached then Some(Inserted(t.rows[k])) else None
    ensures u.rows == t.rows <==>
            forall k :: k in t.rows ==>
                k in reached && (k.ChargeKey? ==> t.rows[k].charge.place == StoredPlace(t.rows[k].charge))
  {
    SameRows(u.rows, t.rows);
    forall k | k in t.rows
      ensures Get(u, k) == Some(t.rows[k]) <==>
              k in reached && (k.ChargeKey? ==> t.rows[k].charge.place == StoredPlace(t.rows[k].charge))
    {
      InsertedSame(k, t.rows[k]);
    }
  }

  /** The account backed up comes back row for row if and only if the database is there for the extra rows,
    * each charge shows the place its user gave, and each milestone's vehicle has a drive or a charge. */
  lemma FreshRestoreIsExactIff(t: Tables, cfg: Config, ids: set<string>, b: Backup)
    requires WellTyped(cfg) && Restorable(cfg, ids, b) && Readable(cfg, b) && BacksUp(cfg, b, t) && Valid(t)
    ensures WritesOk(StateOf(cfg, FileOf(b)).sink.writes)
    ensures Run(EMPTY, StateOf(cfg, FileOf(b)).sink.writes).rows == t.rows <==>
            forall k :: k in t.rows ==>
                Reaches({}, cfg, b, k) && (k.ChargeKey? ==> t.rows[k].charge.place == StoredPlace(t.rows[k].charge))
  {
    FreshRestore(t, cfg, ids, b, DriveKey("", ""));
    var u := Run(EMPTY, StateOf(cfg, FileOf(b)).sink.writes);
    var reached := iset k | Reaches({}, cfg, b, k);
    forall k ensures Get(u, k) == if k in t.rows && k in reached then Some(Inserted(t.rows[k])) else None {
      FreshRestore(t, cfg, ids, b, k);
    }
    SameWhenInserted(t, u, reached);
  }
}
