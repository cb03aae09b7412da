/** The user's tables as a restore writes them, and what writing the same rows again does.
  *
  * Every single SQL statement is one write. The update half of each upsert is modelled column by
  * column, except `updated_at`, which is left out.
  */
module Account {
  import opened Options

  function Coalesce<T>(a: Option<T>, b: Option<T>): Option<T> { if a.Some? then a else b }

  // ---------------------------------------------------------------------------------------------
  // Rows
  // ---------------------------------------------------------------------------------------------

  /** basics: the columns a re-save always overwrites. live: the row comes from the live recorder. */
  datatype Drive = Drive(basics: string, live: bool, polyline: Option<string>, trailer: Option<bool>,
                         trailerOverride: Option<bool>, locationUnavailable: bool)

  /** price: cost, currency, rate, network and the estimate's report, which move together. */
  datatype Charge = Charge(basics: string, price: string, costSource: Option<string>,
                           networkState: Option<string>, confidence: Option<string>, evidence: Option<string>,
                           place: Option<string>, placeOverride: Option<string>,
                           thermal: Option<string>, activeSecs: Option<string>, locationOverride: Option<string>,
                           rivianCharger: Option<bool>, chargeLimit: Option<string>,
                           energyEstimated: bool, gapKwh: Option<string>)

  const USER := Some("user")
  const RIVIAN := Some("rivian")
  const CONFIRMED := Some("confirmed")

  function UpsertDrive(was: Option<Drive>, d: Drive): Drive {
    if was.None? then d
    else
      var o := was.value;
      Drive(d.basics, d.live, Coalesce(d.polyline, o.polyline), Coalesce(d.trailer, o.trailer),
            Coalesce(d.trailerOverride, o.trailerOverride),
            if d.live then d.locationUnavailable else o.locationUnavailable)
  }

  /** The user's own place when the row carries one, else the recorded one. */
  function StoredPlace(c: Charge): Option<string> {
    if c.placeOverride.Some? then c.placeOverride else c.place
  }

  function UpsertCharge(was: Option<Charge>, c: Charge): Charge {
    if was.None? then c.(place := StoredPlace(c))
    else
      var o := was.value;
      var user := o.costSource == USER;
      var confirmed := o.networkState == CONFIRMED;
      var priceKept := user || (confirmed && c.costSource != RIVIAN);
      Charge(
        c.basics,
        if priceKept then o.price else c.price,
        if priceKept then o.costSource else c.costSource,
        if user then o.networkState
        else if c.costSource == RIVIAN then None
        else if confirmed then o.networkState
        else Coalesce(c.networkState, o.networkState),
        if user || confirmed then o.confidence else Coalesce(c.confidence, o.confidence),
        if user || confirmed then o.evidence else Coalesce(c.evidence, o.evidence),
        Coalesce(c.placeOverride, Coalesce(o.placeOverride, Coalesce(StoredPlace(c), o.place))),
        Coalesce(c.placeOverride, o.placeOverride),
        Coalesce(c.thermal, o.thermal), Coalesce(c.activeSecs, o.activeSecs),
        Coalesce(c.locationOverride, o.locationOverride), Coalesce(c.rivianCharger, o.rivianCharger),
        Coalesce(c.chargeLimit, o.chargeLimit),
        o.energyEstimated || c.energyEstimated, Coalesce(c.gapKwh, o.gapKwh))
  }

  /** Writing the same charge twice in a row is not writing it once: a bill that arrives over a confirmed
    * network brings another confidence or evidence, or a billed row is new and still carries a state. */
  predicate Unsettled(was: Option<Charge>, c: Charge) {
    c.costSource == RIVIAN &&
    match was
    case None => c.networkState.Some?
    case Some(o) =>
      && o.costSource != USER && o.networkState == CONFIRMED
      && (Coalesce(c.confidence, o.confidence) != o.confidence || Coalesce(c.evidence, o.evidence) != o.evidence)
  }

  /** The charge upsert is idempotent exactly when the row is not unsettled. */
  lemma ChargeIdempotentIffSettled(was: Option<Charge>, c: Charge)
    ensures UpsertCharge(Some(UpsertCharge(was, c)), c) == UpsertCharge(was, c) <==> !Unsettled(was, c)
  {
  }

  // ---------------------------------------------------------------------------------------------
  // The account
  // ---------------------------------------------------------------------------------------------

  datatype ExtraTable = TripTable | RecapTable | AnalysisTable

  /** A row's table and key. Vehicles are known by their Rivian id. */
  datatype Key =
    | DriveKey(vehicle: string, id: string)
    | ChargeKey(vehicle: string, id: string)
    | SampleKey(vehicle: string, at: int)
    | MilestoneKey(vehicle: string, name: string)
    | ExtraKey(table: ExtraTable, name: string)

  datatype Cell = DriveCell(drive: Drive) | ChargeCell(charge: Charge) | OtherCell(content: string)

  predicate Fits(k: Key, c: Cell) {
    match k
    case DriveKey(_, _) => c.DriveCell?
    case ChargeKey(_, _) => c.ChargeCell?
    case _ => c.OtherCell?
  }

  /** One statement: create the vehicle if it is new, or upsert one row. */
  datatype Write = Vehicle(id: string) | Put(key: Key, cell: Cell)

  datatype Tables = Tables(vehicles: set<string>, rows: map<Key, Cell>)

  predicate WriteOk(w: Write) { w.Put? ==> Fits(w.key, w.cell) }

  /** Rows fit their tables, and a milestone belongs to a vehicle of the account. */
  ghost predicate Valid(t: Tables) {
    && (forall k :: k in t.rows ==> Fits(k, t.rows[k]))
    && (forall k :: k in t.rows && k.MilestoneKey? ==> k.vehicle in t.vehicles)
  }

  function Get(t: Tables, k: Key): Option<Cell> {
    if k in t.rows then Some(t.rows[k]) else None
  }

  function Upsert(k: Key, was: Option<Cell>, c: Cell): Cell
    requires Fits(k, c) && (was.Some? ==> Fits(k, was.value))
  {
    match k
    case DriveKey(_, _) => DriveCell(UpsertDrive(if was.None? then None else Some(was.value.drive), c.drive))
    case ChargeKey(_, _) => ChargeCell(UpsertCharge(if was.None? then None else Some(was.value.charge), c.charge))
    case SampleKey(_, _) => if was.None? then c else was.value
    case MilestoneKey(_, _) => c
    case ExtraKey(_, _) => c
  }

  /** A milestone is inserted from the vehicle's row: without the vehicle nothing is written. */
  predicate Effective(t: Tables, w: Write) {
    w.Put? && w.key.MilestoneKey? ==> w.key.vehicle in t.vehicles
  }

  function Apply(t: Tables, w: Write): (r: Tables)
    requires Valid(t) && WriteOk(w)
    ensures Valid(r)
  {
    match w
    case Vehicle(id) => t.(vehicles := t.vehicles + {id})
    case Put(k, c) => if Effective(t, w) then t.(rows := t.rows[k := Upsert(k, Get(t, k), c)]) else t
  }

  ghost predicate WritesOk(ws: seq<Write>) { forall w :: w in ws ==> WriteOk(w) }

  ghost function Run(t: Tables, ws: seq<Write>): (r: Tables)
    requires Valid(t) && WritesOk(ws)
    ensures Valid(r)
  {
    if ws == [] then t
    else
      var n := |ws| - 1;
      assert ws[n] in ws && forall w :: w in ws[..n] ==> w in ws;
      Apply(Run(t, ws[..n]), ws[n])
  }

  // ---------------------------------------------------------------------------------------------
  // One key at a time
  // ---------------------------------------------------------------------------------------------

  ghost function Created(ws: seq<Write>): set<string> {
    set w | w in ws && w.Vehicle? :: w.id
  }

  lemma {:induction false} VehiclesAfter(t: Tables, ws: seq<Write>)
    requires Valid(t) && WritesOk(ws)
    ensures Run(t, ws).vehicles == t.vehicles + Created(ws)
  {
    if ws != [] {
      var n := |ws| - 1;
      assert ws == ws[..n] + [ws[n]] && forall w :: w in ws[..n] ==> w in ws;
      VehiclesAfter(t, ws[..n]);
      assert Created(ws) == Created(ws[..n]) + if ws[n].Vehicle? then {ws[n].id} else {};
    }
  }

  /** The rows put at k, in order. */
  ghost function PutsAt(ws: seq<Write>, k: Key): (cs: seq<Cell>)
    requires WritesOk(ws)
    ensures forall c :: c in cs ==> Fits(k, c)
  {
    if ws == [] then []
    else
      var n := |ws| - 1;
      assert ws[n] in ws && forall w :: w in ws[..n] ==> w in ws;
      PutsAt(ws[..n], k) + if ws[n].Put? && ws[n].key == k then [ws[n].cell] else []
  }

  lemma PutsAtSnoc(ws: seq<Write>, w: Write, k: Key)
    requires WritesOk(ws) && WriteOk(w)
    ensures WritesOk(ws + [w]) && PutsAt(ws + [w], k) == PutsAt(ws, k) + if w.Put? && w.key == k then [w.cell] else []
  {
    assert (ws + [w])[..|ws|] == ws;
  }

  ghost function Fold(k: Key, was: Option<Cell>, cs: seq<Cell>): (r: Option<Cell>)
    requires (forall c :: c in cs ==> Fits(k, c)) && (was.Some? ==> Fits(k, was.value))
    ensures r.Some? ==> Fits(k, r.value)
  {
    if cs == [] then was else
      var n := |cs| - 1;
      assert cs[n] in cs && forall c :: c in cs[..n] ==> c in cs;
      Some(Upsert(k, Fold(k, was, cs[..n]), cs[n]))
  }

  lemma FoldSnoc(k: Key, was: Option<Cell>, cs: seq<Cell>, c: Cell)
    requires (forall x :: x in cs ==> Fits(k, x)) && Fits(k, c) && (was.Some? ==> Fits(k, was.value))
    ensures Fold(k, was, cs + [c]) == Some(Upsert(k, Fold(k, was, cs), c))
  {
    assert (cs + [c])[..|cs|] == cs;
  }

  /** Except for milestones, a cell depends only on the puts at its own key. */
  lemma {:induction false} CellAfter(t: Tables, ws: seq<Write>, k: Key)
    requires Valid(t) && WritesOk(ws) && !k.MilestoneKey?
    ensures Get(Run(t, ws), k) == Fold(k, Get(t, k), PutsAt(ws, k))
  {
    if ws != [] {
      var n := |ws| - 1;
      var init, w := ws[..n], ws[n];
      assert ws == init + [w] && w in ws && forall v :: v in init ==> v in ws;
      CellAfter(t, init, k);
      PutsAtSnoc(init, w, k);
      if w.Put? && w.key == k {
        FoldSnoc(k, Get(t, k), PutsAt(init, k), w.cell);
      } else {
        assert PutsAt(init, k) + [] == PutsAt(init, k);
      }
    }
  }

  /** The milestone cell: the last put at k that found its vehicle. */
  ghost function MilestonesAt(vehicles: set<string>, ws: seq<Write>, k: Key): seq<Cell>
    requires WritesOk(ws)
  {
    if ws == [] then []
    else
      var n := |ws| - 1;
      assert ws[n] in ws && forall w :: w in ws[..n] ==> w in ws;
      MilestonesAt(vehicles, ws[..n], k) +
      if ws[n].Put? && ws[n].key == k && k.MilestoneKey? && k.vehicle in vehicles + Created(ws[..n])
      then [ws[n].cell] else []
  }

  lemma MilestonesSnoc(vehicles: set<string>, ws: seq<Write>, w: Write, k: Key)
    requires WritesOk(ws) && WriteOk(w) && k.MilestoneKey?
    ensures WritesOk(ws + [w])
    ensures MilestonesAt(vehicles, ws + [w], k) == MilestonesAt(vehicles, ws, k) +
            if w.Put? && w.key == k && k.vehicle in vehicles + Created(ws) then [w.cell] else []
  {
    assert (ws + [w])[..|ws|] == ws;
  }

  /** The milestone at k is the last one stored, if any was. */
  ghost predicate LastStored(t: Tables, ws: seq<Write>, k: Key)
    requires Valid(t) && WritesOk(ws)
  {
    var cs := MilestonesAt(t.vehicles, ws, k);
    Get(Run(t, ws), k) == if cs == [] then Get(t, k) else Some(cs[|cs| - 1])
  }

  lemma RunSnoc(t: Tables, ws: seq<Write>, w: Write)
    requires Valid(t) && WritesOk(ws) && WriteOk(w)
    ensures WritesOk(ws + [w]) && Run(t, ws + [w]) == Apply(Run(t, ws), w)
  {
    assert (ws + [w])[..|ws|] == ws;
  }

  lemma MilestoneSnoc(t: Tables, ws: seq<Write>, w: Write, k: Key)
    requires Valid(t) && WritesOk(ws) && WriteOk(w) && k.MilestoneKey? && LastStored(t, ws, k)
    ensures WritesOk(ws + [w]) && LastStored(t, ws + [w], k)
  {
    RunSnoc(t, ws, w);
    MilestonesSnoc(t.vehicles, ws, w, k);
    VehiclesAfter(t, ws);
  }

  lemma {:induction false} MilestoneAfter(t: Tables, ws: seq<Write>, k: Key)
    requires Valid(t) && WritesOk(ws) && k.MilestoneKey?
    ensures var cs := MilestonesAt(t.vehicles, ws, k);
            Get(Run(t, ws), k) == if cs == [] then Get(t, k) else Some(cs[|cs| - 1])
  {
    if ws != [] {
      var n := |ws| - 1;
      var init, w := ws[..n], ws[n];
      assert ws == init + [w] && w in ws && forall v :: v in init ==> v in ws;
      MilestoneAfter(t, init, k);
      MilestoneSnoc(t, init, w, k);
    }
  }

  lemma SameTables(t: Tables, u: Tables)
    requires t.vehicles == u.vehicles && forall k :: Get(t, k) == Get(u, k)
    ensures t == u
  {
    forall k ensures (k in t.rows <==> k in u.rows) && (k in t.rows ==> t.rows[k] == u.rows[k]) {
      assert Get(t, k) == Get(u, k);
    }
    assert t.rows == u.rows;
  }
}
