/** Backups whose restore is not what one would expect, each with the account it is restored into. */
module RestoreExamples {
  import opened Options
  import opened Sets
  import opened Account
  import opened Json
  import opened Bundle
  import opened Restore
  import opened Acceptance
  import opened Recovery
  import opened AccountRecovery
  import opened KeyOrder

  const OLD_CHARGE := Charge("", "", None, Account.CONFIRMED, Some("0.85"), None, None, None, None, None, None, None,
      None, false, None)
  const BILL := OLD_CHARGE.(costSource := Account.RIVIAN, networkState := None, confidence := Some("0.95"))

  const CHARGE_KEY := ChargeKey("v", "c")
  const MILESTONE_KEY := MilestoneKey("v", "m")

  /** Every element of an array decodes to one row of vehicle v; the charge is a bill. */
  function DecodeOne(kind: Kind, v: Value): Option<Entry> {
    match kind
    case Charges => Some(Entry("v", [0, 0], CHARGE_KEY, ChargeCell(BILL)))
    case Milestones => Some(Entry("v", [], MILESTONE_KEY, OtherCell("")))
    case Samples => Some(Entry("v", [0], SampleKey("v", 0), OtherCell("")))
    case _ => None
  }

  function Using(owned: set<string>): (cfg: Config)
    ensures WellTyped(cfg) && cfg.owned == owned
  {
    Config((kind, v) => DecodeOne(kind, v), 0, 0, None, t => 0, owned, true)
  }

  /** A backup with the given numbers of charges, milestones and samples, at most one each. */
  function BackupWith(charges: seq<Value>, milestones: seq<Value>, samples: seq<Value>): Backup {
    Backup(Null, Null, Null, Null, Null, [], charges, Extras([], [], [], milestones), samples, [])
  }

  const BILLED := BackupWith([Null], [], [])
  const IDLE_VEHICLE := BackupWith([], [Null], [Null])

  lemma ExampleRestorable(owned: set<string>, charges: seq<Value>, milestones: seq<Value>, samples: seq<Value>)
    ensures Restorable(Using(owned), {"v"}, BackupWith(charges, milestones, samples))
    ensures Readable(Using(owned), BackupWith(charges, milestones, samples))
  {
    ShortWindowIsNarrow(Using(owned), {0}, EventsOf(Contents(BackupWith(charges, milestones, samples))));
  }

  function WritesOf(owned: set<string>, b: Backup): seq<Write> { StateOf(Using(owned), FileOf(b)).sink.writes }

  /** Restoring the backup once more changes the account. */
  ghost predicate ChangesAgain(t: Tables, b: Backup) {
    && Valid(t) && Accepted(Using(t.vehicles), FileOf(b)) && WritesOk(WritesOf(t.vehicles, b))
    && var u := Run(t, WritesOf(t.vehicles, b));
       Accepted(Using(u.vehicles), FileOf(b)) && WritesOk(WritesOf(u.vehicles, b))
           && Run(u, WritesOf(u.vehicles, b)) != u
  }

  lemma OneCell(e: Entry)
    requires Fits(e.key, e.cell)
    ensures Fitting([e]) && CellsOf([e], e.key) == [e.cell]
  {
    assert [e][..0] == [];
    assert CellsOf([], e.key) == [];
  }

  lemma ExampleCells(owned: set<string>, charges: seq<Value>, milestones: seq<Value>, samples: seq<Value>)
    requires |charges| <= 1 && |milestones| <= 1
    ensures var cfg, b := Using(owned), BackupWith(charges, milestones, samples);
            && Readable(cfg, b)
            && (charges != [] ==> CellsOf(EntriesOf(cfg, b, Charges), CHARGE_KEY) == [ChargeCell(BILL)])
            && (milestones != [] ==> CellsOf(EntriesOf(cfg, b, Milestones), MILESTONE_KEY) == [OtherCell("")])
  {
    var cfg, b := Using(owned), BackupWith(charges, milestones, samples);
    ExampleRestorable(owned, charges, milestones, samples);
    if charges != [] {
      assert EntriesOf(cfg, b, Charges) == [Entry("v", [0, 0], CHARGE_KEY, ChargeCell(BILL))];
      OneCell(EntriesOf(cfg, b, Charges)[0]);
    }
    if milestones != [] {
      assert EntriesOf(cfg, b, Milestones) == [Entry("v", [], MILESTONE_KEY, OtherCell(""))];
      OneCell(EntriesOf(cfg, b, Milestones)[0]);
    }
  }

  /** The one charge of a backup is written over what is there, each time. */
  lemma ChargeOver(t: Tables, cfg: Config, ids: set<string>, b: Backup, k: Key, c: Charge)
    requires WellTyped(cfg) && Restorable(cfg, ids, b) && Readable(cfg, b) && Valid(t) && k.ChargeKey? && k in t.rows
    requires CellsOf(EntriesOf(cfg, b, Charges), k) == [ChargeCell(c)]
    ensures Accepted(cfg, FileOf(b)) && WritesOk(StateOf(cfg, FileOf(b)).sink.writes)
    ensures Get(Run(t, StateOf(cfg, FileOf(b)).sink.writes), k) ==
            Some(ChargeCell(UpsertCharge(Some(t.rows[k].charge), c)))
  {
    RestoreRecoversBackup(t, cfg, ids, b, k);
    assert [ChargeCell(c)][..0] == [];
  }

  lemma BilledOnce(t: Tables, owned: set<string>)
    requires Valid(t) && CHARGE_KEY in t.rows
    ensures Accepted(Using(owned), FileOf(BILLED)) && WritesOk(WritesOf(owned, BILLED))
    ensures Get(Run(t, WritesOf(owned, BILLED)), CHARGE_KEY) ==
            Some(ChargeCell(UpsertCharge(Some(t.rows[CHARGE_KEY].charge), BILL)))
  {
    ExampleRestorable(owned, [Null], [], []);
    ExampleCells(owned, [Null], [], []);
    ChargeOver(t, Using(owned), {"v"}, BILLED, CHARGE_KEY, BILL);
  }

  lemma BillTwice()
    ensures var once := UpsertCharge(Some(OLD_CHARGE), BILL); UpsertCharge(Some(once), BILL) != once
  {
    var once := UpsertCharge(Some(OLD_CHARGE), BILL);
    assert once.confidence == Some("0.85") && UpsertCharge(Some(once), BILL).confidence == Some("0.95");
  }

  /** A bill arrives over a charge with a confirmed network and another confidence. Restored once, the row keeps
    * the old confidence; restored again, it takes the new one. */
  lemma BillDoesNotConverge() returns (t: Tables)
    ensures ChangesAgain(t, BILLED)
  {
    t := Tables({"v"}, map[CHARGE_KEY := ChargeCell(OLD_CHARGE)]);
    BilledOnce(t, t.vehicles);
    var u := Run(t, WritesOf(t.vehicles, BILLED));
    BilledOnce(u, u.vehicles);
    BillTwice();
  }

  /** A milestone from a backup without drives and charges is stored exactly when its vehicle was there before. */
  lemma MilestoneIffVehicle(t: Tables, cfg: Config, ids: set<string>, b: Backup, k: Key, c: Cell)
    requires WellTyped(cfg) && Restorable(cfg, ids, b) && Readable(cfg, b) && Valid(t) && cfg.database
             && k.MilestoneKey?
    requires EntriesOf(cfg, b, Drives) == [] && EntriesOf(cfg, b, Charges) == []
    requires CellsOf(EntriesOf(cfg, b, Milestones), k) == [c]
    ensures Accepted(cfg, FileOf(b)) && WritesOk(StateOf(cfg, FileOf(b)).sink.writes)
    ensures Get(Run(t, StateOf(cfg, FileOf(b)).sink.writes), k) ==
            if k.vehicle in t.vehicles then Some(c) else Get(t, k)
  {
    RestoreRecoversBackup(t, cfg, ids, b, k);
    assert !Travelled(cfg, b, k.vehicle);
    var cs := CellsOf(EntriesOf(cfg, b, Milestones), k);
    FoldMilestones(k, Get(t, k), cs);
    FoldMilestones(k, Get(t, k), []);
  }

  lemma SampleNames(t: Tables, cfg: Config, ids: set<string>, b: Backup, e: Entry)
    requires WellTyped(cfg) && Restorable(cfg, ids, b) && Readable(cfg, b) && Valid(t)
             && e in EntriesOf(cfg, b, Samples)
    ensures WritesOk(StateOf(cfg, FileOf(b)).sink.writes)
    ensures e.vehicle in Run(t, StateOf(cfg, FileOf(b)).sink.writes).vehicles
  {
    BackupIsSent(cfg, ids, b, Samples);
    VehiclesAfterRestore(t, cfg, Print(Object(Contents(b)), End), e.vehicle);
    BackupScans(b, Samples);
    RowsEnter(cfg, ids, b, Samples);
    assert e in RowsIn(cfg, FileOf(b).events, Samples, Admit);
  }

  lemma IdleRows(owned: set<string>)
    ensures var cfg := Using(owned);
            && Restorable(cfg, {"v"}, IDLE_VEHICLE) && Readable(cfg, IDLE_VEHICLE)
            && EntriesOf(cfg, IDLE_VEHICLE, Drives) == [] && EntriesOf(cfg, IDLE_VEHICLE, Charges) == []
            && Entry("v", [0], SampleKey("v", 0), OtherCell("")) in EntriesOf(cfg, IDLE_VEHICLE, Samples)
  {
    ExampleRestorable(owned, [], [Null], [Null]);
    IdleSample(owned);
  }

  lemma IdleSample(owned: set<string>)
    requires Readable(Using(owned), IDLE_VEHICLE)
    ensures Entry("v", [0], SampleKey("v", 0), OtherCell("")) in EntriesOf(Using(owned), IDLE_VEHICLE, Samples)
  {
    var es := EntriesOf(Using(owned), IDLE_VEHICLE, Samples);
    assert es[0] == Entry("v", [0], SampleKey("v", 0), OtherCell(""));
  }

  lemma IdleRestored(t: Tables, owned: set<string>)
    requires Valid(t)
    ensures Accepted(Using(owned), FileOf(IDLE_VEHICLE)) && WritesOk(WritesOf(owned, IDLE_VEHICLE))
    ensures Get(Run(t, WritesOf(owned, IDLE_VEHICLE)), MILESTONE_KEY) ==
            if "v" in t.vehicles then Some(OtherCell("")) else Get(t, MILESTONE_KEY)
    ensures "v" in Run(t, WritesOf(owned, IDLE_VEHICLE)).vehicles
  {
    IdleRows(owned);
    ExampleCells(owned, [], [Null], [Null]);
    MilestoneIffVehicle(t, Using(owned), {"v"}, IDLE_VEHICLE, MILESTONE_KEY, OtherCell(""));
    SampleNames(t, Using(owned), {"v"}, IDLE_VEHICLE, Entry("v", [0], SampleKey("v", 0), OtherCell("")));
  }

  /** A backup with a milestone of a vehicle that has samples but no drive and no charge. Restored into a new
    * account, the milestone is lost; restored again, it is kept. */
  lemma EarlyMilestoneDoesNotConverge()
    ensures ChangesAgain(EMPTY, IDLE_VEHICLE)
    ensures Get(Run(EMPTY, WritesOf({}, IDLE_VEHICLE)), MILESTONE_KEY) == None
  {
    IdleRestored(EMPTY, {});
    var u := Run(EMPTY, WritesOf({}, IDLE_VEHICLE));
    IdleRestored(u, u.vehicles);
  }

  // ---------------------------------------------------------------------------------------------
  // Milestones and the order of keys
  // ---------------------------------------------------------------------------------------------

  const CHARGES: Pair := ("charges", ArrayOf([Null]))
  const MILESTONES: Pair := ("milestones", ArrayOf([Null]))

  function OneEvents(p: Pair): seq<Event> { [Key(p.0)] + ValueEvents(KindOf(p.0), p.1) }

  /** One of the two arrays above. */
  predicate Small(p: Pair) {
    (KindOf(p.0) == Some(Charges) || KindOf(p.0) == Some(Milestones)) && p.1 == ArrayOf([Null])
  }

  lemma PairEvents(p: Pair, q: Pair)
    requires Small(p) && Small(q)
    ensures ScanObject(TextOf([p, q])) == Scan(OneEvents(p) + OneEvents(q), true)
  {
    assert [p, q][1..] == [q] && [q][1..] == [];
    assert FieldsOf([q]) == Field(q.0, q.1, FieldsOf([]));
    assert FieldsOf([p, q]) == Field(p.0, p.1, Field(q.0, q.1, NoFields));
    ScanPrintedFields(FieldsOf([p, q]), true, End);
    assert [Key(q.0)] + (ValueEvents(KindOf(q.0), q.1) + []) == OneEvents(q);
    assert EventsOf(Field(q.0, q.1, NoFields)) == OneEvents(q);
    assert [Key(p.0)] + (ValueEvents(KindOf(p.0), p.1) + OneEvents(q)) == OneEvents(p) + OneEvents(q);
  }

  lemma OneValues(p: Pair, kind: Kind)
    requires Small(p)
    ensures ValuesIn(OneEvents(p), kind) == if KindOf(p.0) == Some(kind) then [Null] else []
  {
    ValuesOfValue(KindOf(p.0), p.1, kind);
    ElementsOfItems([Null]);
    ValuesAppend([Key(p.0)], ValueEvents(KindOf(p.0), p.1), kind);
  }

  lemma SmallIsGood(p: Pair, kind: Kind, v: Value)
    requires Small(p) && v in ValuesIn(OneEvents(p), kind)
    ensures RowGood(Using({}), {"v"}, kind, v)
  {
    OneValues(p, kind);
  }

  lemma PairAccepted(p: Pair, q: Pair)
    requires Small(p) && Small(q) && (MainKey(p.0) || MainKey(q.0))
    ensures Accepted(Using({}), ScanObject(TextOf([p, q])))
  {
    var es := OneEvents(p) + OneEvents(q);
    PairEvents(p, q);
    forall kind, v | v in ValuesIn(es, kind) ensures RowGood(Using({}), {"v"}, kind, v) {
      ValuesAppend(OneEvents(p), OneEvents(q), kind);
      if v in ValuesIn(OneEvents(p), kind) {
        SmallIsGood(p, kind, v);
      } else {
        SmallIsGood(q, kind, v);
      }
    }
    ShortWindowIsNarrow(Using({}), {0}, es);
    GoodRowsAreSound(Using({}), {"v"}, es);
    assert es[0] == Key(p.0) && es[|OneEvents(p)|] == Key(q.0);
    assert SawMain(es);
    AcceptedIffSound(Using({}), TextOf([p, q]));
  }

  lemma SmallRows(p: Pair, kind: Kind)
    requires Small(p) && KindOf(p.0) != Some(kind)
    ensures NoRows(OneEvents(p), kind)
  {
    OneValues(p, kind);
    NoRowsWithoutValues(OneEvents(p), kind);
  }

  lemma OneRow(kind: Kind, cfg: Config)
    requires cfg == Using({}) && (kind.Charges? || kind.Milestones?)
    ensures Rows(cfg, [Null], kind, Admit) == [DecodeOne(kind, Null).value]
  {
    assert [Null][..0] == [] && Rows(cfg, [], kind, Admit) == [];
  }

  /** The milestone a run of the two arrays stores, given what it had stored after them. */
  lemma MilestoneStored(ts: Stream)
    requires Accepted(Using({}), ScanObject(ts))
    ensures WritesOk(StateOf(Using({}), ScanObject(ts)).sink.writes)
    ensures var cs := StoredAt(Using({}), {}, ScanObject(ts).events, MILESTONE_KEY);
            Get(Run(EMPTY, StateOf(Using({}), ScanObject(ts)).sink.writes), MILESTONE_KEY) ==
            if cs == [] then None else Some(cs[|cs| - 1])
  {
    FittingWrites(Using({}), ts);
    MilestoneAfter(EMPTY, StateOf(Using({}), ScanObject(ts)).sink.writes, MILESTONE_KEY);
  }

  lemma ChargesName()
    ensures InSession(Using({}), OneEvents(CHARGES), "v")
  {
    OneValues(CHARGES, Charges);
    OneRow(Charges, Using({}));
    assert RowsIn(Using({}), OneEvents(CHARGES), Charges, Admit)[0].vehicle == "v";
  }

  lemma BothRows()
    ensures RowsIn(Using({}), OneEvents(CHARGES) + OneEvents(MILESTONES), Milestones, Admit) ==
            [DecodeOne(Milestones, Null).value]
  {
    ValuesAppend(OneEvents(CHARGES), OneEvents(MILESTONES), Milestones);
    OneValues(CHARGES, Milestones);
    OneValues(MILESTONES, Milestones);
    OneRow(Milestones, Using({}));
  }

  lemma CellsOfOne(cfg: Config, es: seq<Event>, e: Entry)
    requires WellTyped(cfg) && RowsIn(cfg, es, Milestones, Admit) == [e] && Fits(e.key, e.cell)
    ensures MilestoneCells(cfg, es, e.key) == [e.cell]
  {
    OneCell(e);
  }

  lemma BothCells()
    ensures MilestoneCells(Using({}), OneEvents(CHARGES) + OneEvents(MILESTONES), MILESTONE_KEY) == [OtherCell("")]
  {
    BothRows();
    CellsOfOne(Using({}), OneEvents(CHARGES) + OneEvents(MILESTONES), Entry("v", [], MILESTONE_KEY, OtherCell("")));
  }

  lemma ChargesFirst()
    ensures After(Using({}), OneEvents(CHARGES) + OneEvents(MILESTONES)).failure.None?
    ensures StoredAt(Using({}), {}, OneEvents(CHARGES) + OneEvents(MILESTONES), MILESTONE_KEY) == [OtherCell("")]
  {
    var cfg, front, middle := Using({}), OneEvents(CHARGES), OneEvents(MILESTONES);
    PairEvents(CHARGES, MILESTONES);
    PairAccepted(CHARGES, MILESTONES);
    SmallRows(CHARGES, Samples);
    SmallRows(CHARGES, Milestones);
    SmallRows(MILESTONES, Samples);
    SmallRows(MILESTONES, Drives);
    SmallRows(MILESTONES, Charges);
    assert front + middle + [] == front + middle;
    PartsStore({}, cfg, front, middle, [], MILESTONE_KEY);
    ChargesName();
    BothCells();
  }

  lemma MilestonesFirst()
    ensures After(Using({}), OneEvents(MILESTONES) + OneEvents(CHARGES)).failure.None?
    ensures StoredAt(Using({}), {}, OneEvents(MILESTONES) + OneEvents(CHARGES), MILESTONE_KEY) == []
  {
    var cfg, middle, back := Using({}), OneEvents(MILESTONES), OneEvents(CHARGES);
    PairEvents(MILESTONES, CHARGES);
    PairAccepted(MILESTONES, CHARGES);
    SmallRows(CHARGES, Milestones);
    SmallRows(MILESTONES, Samples);
    SmallRows(MILESTONES, Drives);
    SmallRows(MILESTONES, Charges);
    assert [] + middle + back == middle + back;
    PartsStore({}, cfg, [], middle, back, MILESTONE_KEY);
  }

  /** Charges, then milestones: the milestone is stored. Milestones, then charges: it is lost. */
  lemma MilestonesDependOnKeyOrder()
    ensures var cfg, p, q := Using({}), TextOf([CHARGES, MILESTONES]), TextOf([MILESTONES, CHARGES]);
            var ws, vs := StateOf(cfg, ScanObject(p)).sink.writes, StateOf(cfg, ScanObject(q)).sink.writes;
            && SameColumns(cfg, p, q) && Accepted(cfg, ScanObject(p)) && Accepted(cfg, ScanObject(q))
            && WritesOk(ws) && WritesOk(vs)
            && Get(Run(EMPTY, ws), MILESTONE_KEY) == Some(OtherCell("")) && Get(Run(EMPTY, vs), MILESTONE_KEY) == None
  {
    PairEvents(CHARGES, MILESTONES);
    PairEvents(MILESTONES, CHARGES);
    PairAccepted(CHARGES, MILESTONES);
    PairAccepted(MILESTONES, CHARGES);
    ChargesFirst();
    MilestonesFirst();
    MilestoneStored(TextOf([CHARGES, MILESTONES]));
    MilestoneStored(TextOf([MILESTONES, CHARGES]));
    BothOrders();
  }

  lemma BothOrders()
    ensures SameColumns(Using({}), TextOf([CHARGES, MILESTONES]), TextOf([MILESTONES, CHARGES]))
  {
    var ps, qs := [CHARGES, MILESTONES], [MILESTONES, CHARGES];
    assert multiset(ps) == multiset{CHARGES, MILESTONES} == multiset(qs);
    ArraysDue(ps);
    PermutedFields(Using({}), ps, qs);
  }
}
