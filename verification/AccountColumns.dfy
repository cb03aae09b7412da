/** What the rows of an account hold after a restore, column by column, in terms of the rows written. */
module AccountColumns {
  import opened Options
  import opened Account
  import opened Json
  import opened Bundle
  import opened Restore
  import opened RestoreLaws
  import opened RestoreFacts
  import opened Acceptance
  import opened Recovery
  import opened AccountRecovery

  /** The value that the last of the rows with one gives, else the old one. */
  function LastGiven<T, U>(rows: seq<T>, column: T -> Option<U>, before: Option<U>): Option<U> {
    if rows == [] then before
    else
      var n := |rows| - 1;
      if column(rows[n]).Some? then column(rows[n]) else LastGiven(rows[..n], column, before)
  }

  lemma LastGivenSnoc<T, U>(rows: seq<T>, row: T, column: T -> Option<U>, before: Option<U>)
    ensures LastGiven(rows + [row], column, before) ==
            if column(row).Some? then column(row) else LastGiven(rows, column, before)
  {
    assert (rows + [row])[..|rows|] == rows;
  }

  function Given<T, U>(row: Option<T>, column: T -> Option<U>): Option<U> {
    if row.None? then None else column(row.value)
  }

  /** A column that keeps its value until a row gives another. */
  predicate Sticky<T, U(==)>(was: Option<T>, rows: seq<T>, now: Option<T>, column: T -> Option<U>) {
    Given(now, column) == LastGiven(rows, column, Given(was, column))
  }

  lemma StickySnoc<T, U>(was: Option<T>, rows: seq<T>, now: Option<T>, column: T -> Option<U>, row: T, next: T)
    requires Sticky(was, rows, now, column)
    requires column(next) == if column(row).Some? then column(row) else Given(now, column)
    ensures Sticky(was, rows + [row], Some(next), column)
  {
    LastGivenSnoc(rows, row, column, Given(was, column));
  }

  // ---------------------------------------------------------------------------------------------
  // Drives
  // ---------------------------------------------------------------------------------------------

  /** The location flag of the last live row, else of the row there was, else of the first one. */
  predicate FlagOfLastLive(was: Option<Drive>, ds: seq<Drive>, now: Drive)
    requires ds != []
  {
    Some(now.locationUnavailable) ==
    LastGiven(ds, (d: Drive) => if d.live then Some(d.locationUnavailable) else None,
              Some(if was.None? then ds[0].locationUnavailable else was.value.locationUnavailable))
  }

  /** A drive's row after the rows ds were written over what was there: basics and source of the last one; polyline,
    * trailer and its correction of the last one that has them; and the location flag of the last live one. */
  predicate DriveColumns(was: Option<Drive>, ds: seq<Drive>, now: Option<Drive>) {
    if ds == [] then now == was
    else
      && now.Some? && now.value.basics == ds[|ds| - 1].basics && now.value.live == ds[|ds| - 1].live
      && Sticky(was, ds, now, (d: Drive) => d.polyline) && Sticky(was, ds, now, (d: Drive) => d.trailer)
      && Sticky(was, ds, now, (d: Drive) => d.trailerOverride) && FlagOfLastLive(was, ds, now.value)
  }

  lemma FlagSnoc(was: Option<Drive>, ds: seq<Drive>, now: Option<Drive>, d: Drive)
    requires if ds == [] then now == was else now.Some? && FlagOfLastLive(was, ds, now.value)
    ensures FlagOfLastLive(was, ds + [d], UpsertDrive(now, d))
  {
    var flag := (d: Drive) => if d.live then Some(d.locationUnavailable) else None;
    var first := (ds + [d])[0].locationUnavailable;
    LastGivenSnoc(ds, d, flag, Some(if was.None? then first else was.value.locationUnavailable));
    assert ds != [] ==> first == ds[0].locationUnavailable;
  }

  lemma DriveColumnsSnoc(was: Option<Drive>, ds: seq<Drive>, now: Option<Drive>, d: Drive)
    requires DriveColumns(was, ds, now)
    ensures DriveColumns(was, ds + [d], Some(UpsertDrive(now, d)))
  {
    var next := UpsertDrive(now, d);
    StickySnoc(was, ds, now, (d: Drive) => d.polyline, d, next);
    StickySnoc(was, ds, now, (d: Drive) => d.trailer, d, next);
    StickySnoc(was, ds, now, (d: Drive) => d.trailerOverride, d, next);
    FlagSnoc(was, ds, now, d);
  }

  // ---------------------------------------------------------------------------------------------
  // Charges, beside price and network
  // ---------------------------------------------------------------------------------------------

  /** The place is the user's own one, if any was ever given, else the last one recorded. */
  predicate PlaceOfUser(was: Option<Charge>, cs: seq<Charge>, now: Charge) {
    now.place == if now.placeOverride.Some? then now.placeOverride
                 else LastGiven(cs, (c: Charge) => c.place, Given(was, (c: Charge) => c.place))
  }

  predicate EverEstimated(was: Option<Charge>, cs: seq<Charge>) {
    (was.Some? && was.value.energyEstimated) || exists i :: 0 <= i < |cs| && cs[i].energyEstimated
  }

  /** A charge's row after the rows cs were written over what was there, price and network apart. */
  predicate ChargeColumns(was: Option<Charge>, cs: seq<Charge>, now: Option<Charge>) {
    if cs == [] then now == was
    else
      && now.Some? && now.value.basics == cs[|cs| - 1].basics
      && Sticky(was, cs, now, (c: Charge) => c.placeOverride) && PlaceOfUser(was, cs, now.value)
      && Sticky(was, cs, now, (c: Charge) => c.thermal) && Sticky(was, cs, now, (c: Charge) => c.activeSecs)
      && Sticky(was, cs, now, (c: Charge) => c.locationOverride) && Sticky(was, cs, now, (c: Charge) => c.rivianCharger)
      && Sticky(was, cs, now, (c: Charge) => c.chargeLimit) && Sticky(was, cs, now, (c: Charge) => c.gapKwh)
      && (now.value.energyEstimated <==> EverEstimated(was, cs))
  }

  lemma PlaceSnoc(was: Option<Charge>, cs: seq<Charge>, now: Option<Charge>, c: Charge)
    requires if cs == [] then now == was else now.Some? && PlaceOfUser(was, cs, now.value)
    ensures PlaceOfUser(was, cs + [c], UpsertCharge(now, c))
  {
    LastGivenSnoc(cs, c, (c: Charge) => c.place, Given(was, (c: Charge) => c.place));
  }

  lemma EstimatedSnoc(was: Option<Charge>, cs: seq<Charge>, c: Charge)
    ensures EverEstimated(was, cs + [c]) <==> EverEstimated(was, cs) || c.energyEstimated
  {
    var all := cs + [c];
    assert all[|cs|] == c && forall i :: 0 <= i < |cs| ==> all[i] == cs[i];
  }

  lemma ChargeColumnsSnoc(was: Option<Charge>, cs: seq<Charge>, now: Option<Charge>, c: Charge)
    requires ChargeColumns(was, cs, now)
    ensures ChargeColumns(was, cs + [c], Some(UpsertCharge(now, c)))
  {
    var next := UpsertCharge(now, c);
    StickySnoc(was, cs, now, (c: Charge) => c.placeOverride, c, next);
    StickySnoc(was, cs, now, (c: Charge) => c.thermal, c, next);
    StickySnoc(was, cs, now, (c: Charge) => c.activeSecs, c, next);
    StickySnoc(was, cs, now, (c: Charge) => c.locationOverride, c, next);
    StickySnoc(was, cs, now, (c: Charge) => c.rivianCharger, c, next);
    StickySnoc(was, cs, now, (c: Charge) => c.chargeLimit, c, next);
    StickySnoc(was, cs, now, (c: Charge) => c.gapKwh, c, next);
    PlaceSnoc(was, cs, now, c);
    EstimatedSnoc(was, cs, c);
  }

  // ---------------------------------------------------------------------------------------------
  // Price and network of a charge
  // ---------------------------------------------------------------------------------------------

  /** The five columns of price and network are the same. */
  predicate SamePrice(a: Charge, b: Charge) {
    && a.price == b.price && a.costSource == b.costSource && a.networkState == b.networkState
    && a.confidence == b.confidence && a.evidence == b.evidence
  }

  predicate ByUser(c: Charge) { c.costSource == Some("user") }

  predicate Billed(c: Charge) { c.costSource == Some("rivian") }

  predicate Settled(c: Charge) { c.networkState == Some("confirmed") }

  predicate SomeRow(was: Option<Charge>, cs: seq<Charge>, p: Charge -> bool) {
    (was.Some? && p(was.value)) || exists i :: 0 <= i < |cs| && p(cs[i])
  }

  /** Price and network after the rows cs were written over what was there. A price of the user's own stays, and
    * so does one with a confirmed network unless a bill comes. A bill prices the row unless one before it was the
    * user's, and leaves no network state but where the row is new. Where nothing was the user's or confirmed, the
    * last row prices it; confidence and evidence stay until others come, as does the network state without bills. */
  predicate PriceColumns(was: Option<Charge>, cs: seq<Charge>, now: Charge)
    requires cs != []
  {
    var n := |cs| - 1;
    var (init, last) := (cs[..n], cs[n]);
    && (was.Some? && ByUser(was.value) ==> SamePrice(now, was.value))
    && (was.Some? && Settled(was.value) && !SomeRow(None, cs, Billed) ==> SamePrice(now, was.value))
    && (Billed(last) && !SomeRow(was, init, ByUser) ==>
          now.price == last.price && Billed(now)
          && now.networkState == if was.None? && n == 0 then last.networkState else None)
    && (!SomeRow(was, init, ByUser) && !SomeRow(was, init, Settled) ==>
          && now.price == last.price && now.costSource == last.costSource
          && Sticky(was, cs, Some(now), (c: Charge) => c.confidence)
          && Sticky(was, cs, Some(now), (c: Charge) => c.evidence)
          && (!SomeRow(None, cs, Billed) ==>
                Sticky(was, cs, Some(now), (c: Charge) => c.networkState)))
  }

  lemma SomeRowSnoc(was: Option<Charge>, cs: seq<Charge>, c: Charge, p: Charge -> bool)
    ensures SomeRow(was, cs + [c], p) <==> SomeRow(was, cs, p) || p(c)
  {
    var all := cs + [c];
    assert all[|cs|] == c && forall i :: 0 <= i < |cs| ==> all[i] == cs[i];
  }

  /** Where an owner and a confirmed network can have come from. */
  predicate Traced(was: Option<Charge>, cs: seq<Charge>, now: Option<Charge>) {
    now.Some? ==>
      && (ByUser(now.value) ==> SomeRow(was, cs, ByUser)) && (Settled(now.value) ==> SomeRow(was, cs, Settled))
  }

  predicate PricedSoFar(was: Option<Charge>, cs: seq<Charge>, now: Option<Charge>) {
    Traced(was, cs, now) && if cs == [] then now == was else now.Some? && PriceColumns(was, cs, now.value)
  }

  lemma TracedSnoc(was: Option<Charge>, cs: seq<Charge>, now: Option<Charge>, c: Charge)
    requires Traced(was, cs, now)
    ensures Traced(was, cs + [c], Some(UpsertCharge(now, c)))
  {
    SomeRowSnoc(was, cs, c, ByUser);
    SomeRowSnoc(was, cs, c, Settled);
  }

  lemma StickyPriceSnoc(was: Option<Charge>, cs: seq<Charge>, now: Option<Charge>, c: Charge)
    requires PricedSoFar(was, cs, now) && !SomeRow(was, cs, ByUser) && !SomeRow(was, cs, Settled)
    ensures var next := UpsertCharge(now, c);
            && Sticky(was, cs + [c], Some(next), (c: Charge) => c.confidence)
            && Sticky(was, cs + [c], Some(next), (c: Charge) => c.evidence)
            && (!SomeRow(None, cs + [c], Billed) ==> Sticky(was, cs + [c], Some(next), (c: Charge) => c.networkState))
  {
    var next := UpsertCharge(now, c);
    if cs != [] {
      var n := |cs| - 1;
      assert cs == cs[..n] + [cs[n]];
      SomeRowSnoc(was, cs[..n], cs[n], ByUser);
      SomeRowSnoc(was, cs[..n], cs[n], Settled);
    }
    SomeRowSnoc(None, cs, c, Billed);
    StickySnoc(was, cs, now, (c: Charge) => c.confidence, c, next);
    StickySnoc(was, cs, now, (c: Charge) => c.evidence, c, next);
    if !SomeRow(None, cs + [c], Billed) {
      StickySnoc(was, cs, now, (c: Charge) => c.networkState, c, next);
    }
  }

  lemma PriceColumnsSnoc(was: Option<Charge>, cs: seq<Charge>, now: Option<Charge>, c: Charge)
    requires PricedSoFar(was, cs, now)
    ensures PricedSoFar(was, cs + [c], Some(UpsertCharge(now, c)))
  {
    var all := cs + [c];
    assert all[..|cs|] == cs && all[|cs|] == c;
    TracedSnoc(was, cs, now, c);
    SomeRowSnoc(None, cs, c, Billed);
    if !SomeRow(was, cs, ByUser) && !SomeRow(was, cs, Settled) {
      StickyPriceSnoc(was, cs, now, c);
    }
  }

  // ---------------------------------------------------------------------------------------------
  // The account after a restore
  // ---------------------------------------------------------------------------------------------

  function DriveIn(c: Option<Cell>): Option<Drive> {
    if c.Some? && c.value.DriveCell? then Some(c.value.drive) else None
  }

  function ChargeIn(c: Option<Cell>): Option<Charge> {
    if c.Some? && c.value.ChargeCell? then Some(c.value.charge) else None
  }

  /** What the rows vs of a file that are to be written say of key k, in order. */
  function CellsDue(cfg: Config, vs: seq<Value>, k: Key): seq<Cell> {
    if vs == [] then []
    else
      var n := |vs| - 1;
      var e := cfg.decode(TableOf(k), vs[n]);
      CellsDue(cfg, vs[..n], k) +
      if e.Some? && ToWrite(cfg, TableOf(k), e.value) && e.value.key == k then [e.value.cell] else []
  }

  function DrivesOf(cs: seq<Cell>): seq<Drive> {
    if cs == [] then []
    else
      var n := |cs| - 1;
      DrivesOf(cs[..n]) + if cs[n].DriveCell? then [cs[n].drive] else []
  }

  function ChargesOf(cs: seq<Cell>): seq<Charge> {
    if cs == [] then []
    else
      var n := |cs| - 1;
      ChargesOf(cs[..n]) + if cs[n].ChargeCell? then [cs[n].charge] else []
  }

  lemma {:induction false} CellsDueAreAdmitted(cfg: Config, vs: seq<Value>, k: Key)
    requires WellTyped(cfg)
    ensures var rows := Rows(cfg, vs, TableOf(k), Admit);
            Fitting(rows) && CellsDue(cfg, vs, k) == CellsOf(rows, k)
  {
    RowsFit(cfg, vs, TableOf(k), Admit);
    if vs != [] {
      var n := |vs| - 1;
      var init, v := vs[..n], vs[n];
      assert vs == init + [v];
      CellsDueAreAdmitted(cfg, init, k);
      OneMoreCell(cfg, init, v, k);
      if cfg.decode(TableOf(k), v).Some? {
        AdmitIffToWrite(cfg, TableOf(k), v);
      }
    }
  }

  lemma {:induction false} FoldDriveColumns(k: Key, was: Option<Cell>, cs: seq<Cell>)
    requires k.DriveKey? && (was.Some? ==> Fits(k, was.value)) && forall c :: c in cs ==> Fits(k, c)
    ensures DriveColumns(DriveIn(was), DrivesOf(cs), DriveIn(Fold(k, was, cs)))
  {
    if cs != [] {
      var n := |cs| - 1;
      var init, c := cs[..n], cs[n];
      assert cs == init + [c] && c in cs && forall x :: x in init ==> x in cs;
      FoldDriveColumns(k, was, init);
      DriveColumnsSnoc(DriveIn(was), DrivesOf(init), DriveIn(Fold(k, was, init)), c.drive);
    }
  }

  lemma {:induction false} FoldChargeColumns(k: Key, was: Option<Cell>, cs: seq<Cell>)
    requires k.ChargeKey? && (was.Some? ==> Fits(k, was.value)) && forall c :: c in cs ==> Fits(k, c)
    ensures ChargeColumns(ChargeIn(was), ChargesOf(cs), ChargeIn(Fold(k, was, cs)))
    ensures PricedSoFar(ChargeIn(was), ChargesOf(cs), ChargeIn(Fold(k, was, cs)))
  {
    if cs != [] {
      var n := |cs| - 1;
      var init, c := cs[..n], cs[n];
      assert cs == init + [c] && c in cs && forall x :: x in init ==> x in cs;
      FoldChargeColumns(k, was, init);
      ChargeColumnsSnoc(ChargeIn(was), ChargesOf(init), ChargeIn(Fold(k, was, init)), c.charge);
      PriceColumnsSnoc(ChargeIn(was), ChargesOf(init), ChargeIn(Fold(k, was, init)), c.charge);
    }
  }

  /** A sample that was there stays as it was, else the first one of its key is kept; of the rows of the extra
    * tables, the last. */
  predicate OtherCells(k: Key, was: Option<Cell>, cs: seq<Cell>, now: Option<Cell>) {
    if cs == [] then now == was
    else if k.SampleKey? then now == if was.Some? then was else Some(cs[0])
    else now == Some(cs[|cs| - 1])
  }

  lemma {:induction false} FoldOthers(k: Key, was: Option<Cell>, cs: seq<Cell>)
    requires !k.DriveKey? && !k.ChargeKey? && (was.Some? ==> Fits(k, was.value)) && forall c :: c in cs ==> Fits(k, c)
    ensures OtherCells(k, was, cs, Fold(k, was, cs))
  {
    if cs != [] {
      var n := |cs| - 1;
      var init, c := cs[..n], cs[n];
      assert cs == init + [c] && c in cs && forall x :: x in init ==> x in cs;
      FoldOthers(k, was, init);
    }
  }

  /** The row of key k holds what the cells cs, written over what was there, say. */
  predicate HoldsColumns(k: Key, was: Option<Cell>, cs: seq<Cell>, now: Option<Cell>) {
    match k
    case DriveKey(_, _) =>
      (now.Some? ==> now.value.DriveCell?) && DriveColumns(DriveIn(was), DrivesOf(cs), DriveIn(now))
    case ChargeKey(_, _) =>
      && (now.Some? ==> now.value.ChargeCell?) && ChargeColumns(ChargeIn(was), ChargesOf(cs), ChargeIn(now))
      && (ChargesOf(cs) != [] ==> now.Some? && PriceColumns(ChargeIn(was), ChargesOf(cs), now.value.charge))
    case _ => OtherCells(k, was, cs, now)
  }

  lemma FoldHoldsColumns(k: Key, was: Option<Cell>, cs: seq<Cell>)
    requires (was.Some? ==> Fits(k, was.value)) && forall c :: c in cs ==> Fits(k, c)
    ensures HoldsColumns(k, was, cs, Fold(k, was, cs))
  {
    match k
    case DriveKey(_, _) => FoldDriveColumns(k, was, cs);
    case ChargeKey(_, _) => FoldChargeColumns(k, was, cs);
    case _ => FoldOthers(k, was, cs);
  }

  /** After any accepted file, the row of every key but a milestone's holds what the file's rows to be written, over
    * what was there, say column by column. */
  lemma ColumnsAfterRestore(t: Tables, cfg: Config, ts: Stream, k: Key)
    requires WellTyped(cfg) && Accepted(cfg, ScanObject(ts)) && Valid(t) && !k.MilestoneKey?
    requires k.DriveKey? || k.ChargeKey? || k.SampleKey? || cfg.database
    ensures WritesOk(StateOf(cfg, ScanObject(ts)).sink.writes)
    ensures HoldsColumns(k, Get(t, k), CellsDue(cfg, ValuesIn(ScanObject(ts).events, TableOf(k)), k),
                         Get(Run(t, StateOf(cfg, ScanObject(ts)).sink.writes), k))
  {
    AccountAfterRestore(t, cfg, ts, k);
    CellsDueAreAdmitted(cfg, ValuesIn(ScanObject(ts).events, TableOf(k)), k);
    FoldHoldsColumns(k, Get(t, k), CellsDue(cfg, ValuesIn(ScanObject(ts).events, TableOf(k)), k));
  }

  /** So after the restore of a backup: every row holds what the backup's rows of its key say, column by column; a
    * milestone's those of a vehicle on the account or in a drive or charge of the backup. */
  lemma ColumnsAfterBackup(t: Tables, cfg: Config, ids: set<string>, b: Backup, k: Key)
    requires WellTyped(cfg) && Restorable(cfg, ids, b) && Valid(t)
    ensures Readable(cfg, b) && WritesOk(StateOf(cfg, FileOf(b)).sink.writes)
    ensures HoldsColumns(k, Get(t, k),
                         if Reaches(t.vehicles, cfg, b, k) then CellsOf(EntriesOf(cfg, b, TableOf(k)), k) else [],
                         Get(Run(t, StateOf(cfg, FileOf(b)).sink.writes), k))
  {
    RestoreRecoversBackup(t, cfg, ids, b, k);
    FoldHoldsColumns(k, Get(t, k),
        if Reaches(t.vehicles, cfg, b, k) then CellsOf(EntriesOf(cfg, b, TableOf(k)), k) else []);
  }
}
