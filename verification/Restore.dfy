/** What a restore does with the rows of a file, one event at a time.
  *
  * A file is the list of events its scan reports. `Step` gives the effect of one event, `After` that
  * of a list; the state keeps the statements sent to the database in order.
  */
module Restore {
  import opened Account
  import opened Json
  import opened Bundle
  import opened Options
  import opened Seqs

  const BATCH := 2000
  const MAX_NEW_VEHICLES := 5
  const MAX_BATCH_MONTHS := 120

  /** One decoded row: its vehicle ("" when the table has none), its times, and what it writes. */
  datatype Entry = Entry(vehicle: string, times: seq<int>, key: Key, cell: Cell)

  predicate Typed(kind: Kind, e: Entry) {
    && Fits(e.key, e.cell)
    && match kind
       case Drives => e.key.DriveKey? && e.key.vehicle == e.vehicle && |e.times| == 2
       case Charges => e.key.ChargeKey? && e.key.vehicle == e.vehicle && |e.times| == 2
       case Samples => e.key.SampleKey? && e.key.vehicle == e.vehicle && e.times == [e.key.at]
       case Milestones => e.key.MilestoneKey? && e.key.vehicle == e.vehicle && e.times == []
       case SavedTrips => e.key.ExtraKey? && e.key.table == TripTable && e.times == []
       case Recaps => e.key.ExtraKey? && e.key.table == RecapTable && e.times == []
       case Analyses => e.key.ExtraKey? && e.key.table == AnalysisTable && e.times == []
  }

  /** decode turns a JSON value into a row, or fails. monthOf: the calendar month of a time. owned: the Rivian ids
    * listed when the restore starts. */
  datatype Config = Config(decode: (Kind, Value) -> Option<Entry>, from: int, to: int,
                           sampleFrom: Option<int>, monthOf: int -> int, owned: set<string>, database: bool)

  /** Each array decodes to rows of its own table. */
  ghost predicate WellTyped(cfg: Config) {
    forall kind, v :: cfg.decode(kind, v).Some? ==> Typed(kind, cfg.decode(kind, v).value)
  }

  predicate InWindow(cfg: Config, times: seq<int>) { forall t :: t in times ==> cfg.from <= t <= cfg.to }

  datatype Verdict = Admit | SkipTime | SkipOld

  predicate Timed(kind: Kind) { kind.Drives? || kind.Charges? || kind.Samples? }

  predicate Gated(kind: Kind) { Timed(kind) || kind.Milestones? }

  function Judge(cfg: Config, kind: Kind, e: Entry): Verdict {
    if Timed(kind) && !InWindow(cfg, e.times) then SkipTime
    else if kind.Samples? && cfg.sampleFrom.Some? && e.times != [] && e.times[0] < cfg.sampleFrom.value then SkipOld
    else Admit
  }

  datatype Failure = BadFile | TooManyVehicles | NamelessVehicle | TooManyMonths | NotBackup

  /** What the gate remembers: the new vehicles let in, and the rows it left out. */
  datatype Passed = Passed(added: set<string>, skipped: nat, past: nat)

  /** What was sent to the database: the statements in order, the sample batches inserted and the one
    * being filled; an error once a row without a vehicle or a batch of too many months stopped it. */
  datatype Sink = Sink(batch: seq<Entry>, batches: seq<seq<Entry>>, writes: seq<Write>, error: Option<Failure>) {

    predicate Ok() { error.None? }
  }

  datatype State = State(gate: Passed, sink: Sink, saw: bool, failure: Option<Failure>)

  const START := State(Passed({}, 0, 0), Sink([], [], [], None), false, None)

  function PutOf(e: Entry): Write { Put(e.key, e.cell) }

  function PutsFor(es: seq<Entry>): seq<Write> {
    if es == [] then [] else var n := |es| - 1; PutsFor(es[..n]) + [PutOf(es[n])]
  }

  lemma PutsSnoc(es: seq<Entry>, e: Entry)
    ensures PutsFor(es + [e]) == PutsFor(es) + [PutOf(e)]
  {
    assert (es + [e])[..|es|] == es;
  }

  /** The vehicles a batch creates, each once, in order, up to the first row without a vehicle. */
  function Resolve(es: seq<Entry>): (r: (seq<Write>, bool))
    ensures forall w :: w in r.0 ==> w.Vehicle?
  {
    if es == [] then ([], true)
    else
      var n := |es| - 1;
      var (ws, ok) := Resolve(es[..n]);
      if !ok || Vehicle(es[n].vehicle) in ws then (ws, ok)
      else if es[n].vehicle == "" then (ws, false)
      else (ws + [Vehicle(es[n].vehicle)], true)
  }

  function MonthsOf(cfg: Config, es: seq<Entry>): set<int> {
    set e | e in es && e.times != [] :: cfg.monthOf(e.times[0])
  }

  predicate FewMonths(cfg: Config, es: seq<Entry>) { |MonthsOf(cfg, es)| <= MAX_BATCH_MONTHS }

  function Flush(cfg: Config, s: Sink): Sink {
    if s.batch == [] then s
    else if !FewMonths(cfg, s.batch) then s.(error := Some(TooManyMonths))
    else
      var (ws, ok) := Resolve(s.batch);
      if ok then Sink([], s.batches + [s.batch], s.writes + ws + PutsFor(s.batch), s.error)
      else s.(writes := s.writes + ws, error := Some(NamelessVehicle))
  }

  /** An admitted row goes to its store; a full batch of samples is flushed. */
  function Store(cfg: Config, s: Sink, kind: Kind, e: Entry): Sink {
    if kind.Samples? then
      var s' := s.(batch := s.batch + [e]);
      if |s'.batch| == BATCH then Flush(cfg, s') else s'
    else if Timed(kind) then
      if e.vehicle == "" then s.(error := Some(NamelessVehicle))
      else s.(writes := s.writes + [Vehicle(e.vehicle), PutOf(e)])
    else if cfg.database then s.(writes := s.writes + [PutOf(e)])
    else s
  }

  /** The new vehicles let in once a row's vehicle is. */
  function Adding(cfg: Config, added: set<string>, kind: Kind, id: string): set<string> {
    if Gated(kind) && id !in cfg.owned then added + {id} else added
  }

  function Stored(st: State, s: Sink): State {
    st.(sink := s, failure := if s.Ok() then st.failure else s.error)
  }

  function Enter(cfg: Config, st: State, kind: Kind, e: Entry): State {
    var added := Adding(cfg, st.gate.added, kind, e.vehicle);
    if |added| > MAX_NEW_VEHICLES then st.(failure := Some(TooManyVehicles))
    else Stored(st.(gate := st.gate.(added := added)), Store(cfg, st.sink, kind, e))
  }

  function Take(cfg: Config, st: State, kind: Kind, v: Value): State {
    var e := cfg.decode(kind, v);
    if e.None? then st.(failure := Some(BadFile))
    else
      match Judge(cfg, kind, e.value)
      case SkipTime => st.(gate := st.gate.(skipped := st.gate.skipped + 1))
      case SkipOld => st.(gate := st.gate.(past := st.gate.past + 1))
      case Admit => Enter(cfg, st, kind, e.value)
  }

  predicate MainKey(name: string) { name == "drives" || name == "charges" || name == "samples" }

  function Step(cfg: Config, st: State, ev: Event): State {
    if st.failure.Some? then st
    else
      match ev
      case Key(name) => st.(saw := st.saw || MainKey(name))
      case Row(kind, v) => Take(cfg, st, kind, v)
      case Finished(kind) => if kind.Samples? then Stored(st, Flush(cfg, st.sink)) else st
  }

  function After(cfg: Config, es: seq<Event>): State {
    if es == [] then START else var n := |es| - 1; Step(cfg, After(cfg, es[..n]), es[n])
  }

  /** A step that takes a row and does not fail. */
  predicate Fine(cfg: Config, st: State, ev: Event) { st.failure.None? && Step(cfg, st, ev).failure.None? }

  predicate Admits(cfg: Config, ev: Event) {
    ev.Row? && cfg.decode(ev.kind, ev.value).Some? && Judge(cfg, ev.kind, cfg.decode(ev.kind, ev.value).value) == Admit
  }

  function EntryOf(cfg: Config, ev: Event): Entry
    requires Admits(cfg, ev)
  {
    cfg.decode(ev.kind, ev.value).value
  }

  /** Effect of a fine step on the database side. */
  lemma StepSink(cfg: Config, st: State, ev: Event)
    requires Fine(cfg, st, ev) && st.sink.Ok()
    ensures Step(cfg, st, ev).sink ==
            (if Admits(cfg, ev) then Store(cfg, st.sink, ev.kind, EntryOf(cfg, ev))
             else if ev.Finished? && ev.kind.Samples? then Flush(cfg, st.sink) else st.sink)
    ensures Step(cfg, st, ev).sink.Ok()
  {
  }

  /** Effect of a fine step on the gate. */
  lemma StepGate(cfg: Config, st: State, ev: Event)
    requires Fine(cfg, st, ev)
    ensures Admits(cfg, ev) ==>
            Step(cfg, st, ev).gate == st.gate.(added := Adding(cfg, st.gate.added, ev.kind, EntryOf(cfg, ev).vehicle))
                                && |Step(cfg, st, ev).gate.added| <= MAX_NEW_VEHICLES
    ensures !Admits(cfg, ev) ==> Step(cfg, st, ev).gate.added == st.gate.added
    ensures ev.Row? ==> cfg.decode(ev.kind, ev.value).Some?
  {
  }

  /** How the run ends, given how its file's scan ended. */
  function Result(st: State, complete: bool): Option<Failure> {
    if st.failure.Some? then st.failure
    else if !complete then Some(BadFile)
    else if !st.saw then Some(NotBackup)
    else None
  }

  function StateOf(cfg: Config, scan: Scan): State { After(cfg, scan.events) }

  predicate Accepted(cfg: Config, scan: Scan) { Result(StateOf(cfg, scan), scan.complete).None? }

  // ---------------------------------------------------------------------------------------------
  // The rows of a file, table by table
  // ---------------------------------------------------------------------------------------------

  /** The elements found under the key of a kind, in file order. */
  function ValuesIn(es: seq<Event>, kind: Kind): seq<Value> {
    if es == [] then []
    else
      var n := |es| - 1;
      ValuesIn(es[..n], kind) + if es[n].Row? && es[n].kind == kind then [es[n].value] else []
  }

  lemma ValuesSnoc(es: seq<Event>, ev: Event, kind: Kind)
    ensures ValuesIn(es + [ev], kind) == ValuesIn(es, kind) + if ev.Row? && ev.kind == kind then [ev.value] else []
  {
    assert (es + [ev])[..|es|] == es;
  }

  /** The decodable rows among them that get the given verdict. */
  function Rows(cfg: Config, vs: seq<Value>, kind: Kind, verdict: Verdict): seq<Entry> {
    if vs == [] then []
    else
      var n := |vs| - 1;
      var e := cfg.decode(kind, vs[n]);
      Rows(cfg, vs[..n], kind, verdict) + if e.Some? && Judge(cfg, kind, e.value) == verdict then [e.value] else []
  }

  lemma RowsSnoc(cfg: Config, vs: seq<Value>, v: Value, kind: Kind, verdict: Verdict)
    ensures Rows(cfg, vs + [v], kind, verdict) == Rows(cfg, vs, kind, verdict) +
            var e := cfg.decode(kind, v); if e.Some? && Judge(cfg, kind, e.value) == verdict then [e.value] else []
  {
    assert (vs + [v])[..|vs|] == vs;
  }

  function RowsIn(cfg: Config, es: seq<Event>, kind: Kind, verdict: Verdict): seq<Entry> {
    Rows(cfg, ValuesIn(es, kind), kind, verdict)
  }

  /** The rows of one event. */
  function RowOf(cfg: Config, ev: Event, kind: Kind, verdict: Verdict): seq<Entry> {
    if ev.Row? && ev.kind == kind then
      var e := cfg.decode(kind, ev.value); if e.Some? && Judge(cfg, kind, e.value) == verdict then [e.value] else []
    else []
  }

  lemma RowsInSnoc(cfg: Config, es: seq<Event>, ev: Event, kind: Kind, verdict: Verdict)
    ensures RowsIn(cfg, es + [ev], kind, verdict) == RowsIn(cfg, es, kind, verdict) + RowOf(cfg, ev, kind, verdict)
  {
    ValuesSnoc(es, ev, kind);
    assert ValuesIn(es, kind) + [] == ValuesIn(es, kind);
    if ev.Row? && ev.kind == kind {
      RowsSnoc(cfg, ValuesIn(es, kind), ev.value, kind, verdict);
    }
  }

  ghost predicate Decodable(cfg: Config, es: seq<Event>) {
    forall kind, v :: v in ValuesIn(es, kind) ==> cfg.decode(kind, v).Some?
  }

  /** The table a write goes to. */
  function TableOf(k: Key): Kind {
    match k
    case DriveKey(_, _) => Drives
    case ChargeKey(_, _) => Charges
    case SampleKey(_, _) => Samples
    case MilestoneKey(_, _) => Milestones
    case ExtraKey(table, _) =>
      if table == TripTable then SavedTrips else if table == RecapTable then Recaps else Analyses
  }

  lemma TypedTable(kind: Kind, e: Entry)
    requires Typed(kind, e)
    ensures TableOf(e.key) == kind
  {
  }

  function Sent(w: Write, kind: Kind): seq<Write> { if w.Put? && TableOf(w.key) == kind then [w] else [] }

  /** The rows sent to one table, in order. */
  function SentTo(ws: seq<Write>, kind: Kind): seq<Write> {
    if ws == [] then [] else var n := |ws| - 1; SentTo(ws[..n], kind) + Sent(ws[n], kind)
  }

  lemma SentSnoc(ws: seq<Write>, w: Write, kind: Kind)
    ensures SentTo(ws + [w], kind) == SentTo(ws, kind) + Sent(w, kind)
  {
    assert (ws + [w])[..|ws|] == ws;
  }

  lemma SentSession(ws: seq<Write>, id: string, w: Write, kind: Kind)
    ensures SentTo(ws + [Vehicle(id), w], kind) == SentTo(ws, kind) + Sent(w, kind)
  {
    assert ws + [Vehicle(id), w] == ws + [Vehicle(id)] + [w];
    SentSnoc(ws, Vehicle(id), kind);
    SentSnoc(ws + [Vehicle(id)], w, kind);
    assert SentTo(ws, kind) + [] == SentTo(ws, kind);
  }

  lemma {:induction false} SentToAppend(ws: seq<Write>, vs: seq<Write>, kind: Kind)
    ensures SentTo(ws + vs, kind) == SentTo(ws, kind) + SentTo(vs, kind)
  {
    if vs == [] {
      assert ws + vs == ws;
    } else {
      var n := |vs| - 1;
      var init, w := vs[..n], vs[n];
      SentToAppend(ws, init, kind);
      assert ws + vs == ws + init + [w] && vs == init + [w];
      SentSnoc(ws + init, w, kind);
      SentSnoc(init, w, kind);
      Regroup(SentTo(ws, kind), SentTo(init, kind), Sent(w, kind));
    }
  }

  lemma {:induction false} NoneSent(ws: seq<Write>, kind: Kind)
    requires forall w :: w in ws ==> w.Vehicle?
    ensures SentTo(ws, kind) == []
  {
    if ws != [] {
      var n := |ws| - 1;
      assert ws[n] in ws && forall w :: w in ws[..n] ==> w in ws;
      NoneSent(ws[..n], kind);
    }
  }

  /** Rows of one table are sent to it, and to no other. */
  predicate SentOnlyTo(es: seq<Entry>, to: Kind, kind: Kind) {
    SentTo(PutsFor(es), kind) == if kind == to then PutsFor(es) else []
  }

  lemma SentOnlyToSnoc(es: seq<Entry>, e: Entry, to: Kind, kind: Kind)
    requires TableOf(e.key) == to && SentOnlyTo(es, to, kind)
    ensures SentOnlyTo(es + [e], to, kind)
  {
    PutsSnoc(es, e);
    SentSnoc(PutsFor(es), PutOf(e), kind);
  }

  lemma {:induction false} PutsSent(es: seq<Entry>, to: Kind, kind: Kind)
    requires forall e :: e in es ==> TableOf(e.key) == to
    ensures SentOnlyTo(es, to, kind)
  {
    if es != [] {
      var n := |es| - 1;
      var init, e := es[..n], es[n];
      assert es == init + [e] && e in es && forall x :: x in init ==> x in es;
      PutsSent(init, to, kind);
      SentOnlyToSnoc(init, e, to, kind);
    }
  }
}
