/** A restore that was cut off and then run in full.
  *
  * The interrupted run leaves the state after some prefix of the writes; the full run then applies
  * all of them again. When does that end where one full run would have?
  */
module Convergence {
  import opened Account
  import opened Options
  import opened Prices
  import opened Replay
  import opened Seqs

  /** A cut-off restore, then a full one. */
  ghost predicate Converges(t: Tables, ws: seq<Write>, n: nat)
    requires Valid(t) && WritesOk(ws) && n <= |ws|
  {
    Run(Run(t, ws[..n]), ws) == Run(t, ws)
  }

  // ---------------------------------------------------------------------------------------------
  // Replaying the puts at one key
  // ---------------------------------------------------------------------------------------------

  const OverDrive: (Drive, Drive) -> Drive := (o: Drive, d: Drive) => UpsertDrive(Some(o), d)

  lemma DriveOverrides()
    ensures Overriding(OverDrive)
  {
  }

  ghost predicate AllDrives(cs: seq<Cell>) { forall c :: c in cs ==> c.DriveCell? }

  function DrivesIn(cs: seq<Cell>): (ds: seq<Drive>)
    requires AllDrives(cs)
  {
    seq(|cs|, i requires 0 <= i < |cs| => assert cs[i] in cs; cs[i].drive)
  }

  lemma {:induction false} FoldDrives(k: Key, x: Drive, cs: seq<Cell>)
    requires k.DriveKey? && AllDrives(cs)
    ensures Fold(k, Some(DriveCell(x)), cs) == Some(DriveCell(FoldAll(OverDrive, x, DrivesIn(cs))))
  {
    if cs != [] {
      var n := |cs| - 1;
      assert cs[n] in cs && forall c :: c in cs[..n] ==> c in cs;
      FoldDrives(k, x, cs[..n]);
      assert DrivesIn(cs) == DrivesIn(cs[..n]) + [cs[n].drive];
      Replay.FoldSnoc(OverDrive, x, DrivesIn(cs[..n]), cs[n].drive);
    }
  }

  lemma {:induction false} FoldFromNothing(k: Key, cs: seq<Cell>)
    requires k.DriveKey? && cs != [] && forall c :: c in cs ==> c.DriveCell?
    ensures Fold(k, None, cs) == Fold(k, Some(cs[0]), cs)
  {
    var n := |cs| - 1;
    assert cs[n] in cs && forall c :: c in cs[..n] ==> c in cs;
    if n > 0 {
      FoldFromNothing(k, cs[..n]);
    } else {
      assert cs[..n] == [];
    }
  }

  /** Replaying all the drives put at a key changes nothing, however often and in whatever variants it was put. */
  lemma DrivesReplay(k: Key, was: Option<Cell>, cs: seq<Cell>)
    requires k.DriveKey? && (forall c :: c in cs ==> c.DriveCell?) && (was.Some? ==> was.value.DriveCell?)
    ensures Fold(k, Fold(k, was, cs), cs) == Fold(k, was, cs)
  {
    if cs != [] {
      DriveOverrides();
      if was.None? {
        FoldFromNothing(k, cs);
      }
      var x := if was.None? then cs[0].drive else was.value.drive;
      FoldDrives(k, x, cs);
      FoldDrives(k, FoldAll(OverDrive, x, DrivesIn(cs)), cs);
      Replays(OverDrive, x, DrivesIn(cs));
    }
  }

  lemma {:induction false} SamplesKeep(k: Key, was: Option<Cell>, cs: seq<Cell>)
    requires k.SampleKey? && (forall c :: c in cs ==> Fits(k, c)) && was.Some? && Fits(k, was.value)
    ensures Fold(k, was, cs) == was
  {
    if cs != [] {
      var n := |cs| - 1;
      assert cs[n] in cs && forall c :: c in cs[..n] ==> c in cs;
      SamplesKeep(k, was, cs[..n]);
    }
  }

  /** Insert-if-absent and overwrite replay too. */
  lemma CellsReplay(k: Key, was: Option<Cell>, cs: seq<Cell>)
    requires !k.ChargeKey? && !k.MilestoneKey?
    requires (forall c :: c in cs ==> Fits(k, c)) && (was.Some? ==> Fits(k, was.value))
    ensures Fold(k, Fold(k, was, cs), cs) == Fold(k, was, cs)
  {
    match k
    case DriveKey(_, _) => DrivesReplay(k, was, cs);
    case SampleKey(_, _) => if cs != [] { SamplesKeep(k, Fold(k, was, cs), cs); }
    case ExtraKey(_, _) =>
  }

  // ---------------------------------------------------------------------------------------------
  // Replaying charges
  // ---------------------------------------------------------------------------------------------

  const OverCharge: (Charge, Charge) -> Charge := (o: Charge, c: Charge) => UpsertCharge(Some(o), c)

  /** The upsert where nothing is locked. */
  const OverPlain: (Charge, Charge) -> Charge := (o: Charge, c: Charge) =>
    Charge(c.basics, c.price, c.costSource, Coalesce(c.networkState, o.networkState),
           Coalesce(c.confidence, o.confidence), Coalesce(c.evidence, o.evidence),
           Coalesce(c.placeOverride, Coalesce(o.placeOverride, Coalesce(StoredPlace(c), o.place))),
           Coalesce(c.placeOverride, o.placeOverride),
           Coalesce(c.thermal, o.thermal), Coalesce(c.activeSecs, o.activeSecs),
           Coalesce(c.locationOverride, o.locationOverride), Coalesce(c.rivianCharger, o.rivianCharger),
           Coalesce(c.chargeLimit, o.chargeLimit), o.energyEstimated || c.energyEstimated, Coalesce(c.gapKwh, o.gapKwh))

  /** A charge without its price and network. */
  function Unpriced(o: Charge): Charge {
    o.(price := "", costSource := None, networkState := None, confidence := None, evidence := None)
  }

  lemma PlainAgree(a: Charge, b: Charge, c: Charge, d: Charge)
    requires OverPlain(a, c) == OverPlain(b, c)
    ensures OverPlain(OverPlain(a, d), c) == OverPlain(OverPlain(b, d), c)
  {
  }

  lemma PlainOverrides()
    ensures Overriding(OverPlain)
  {
    forall a, b, c, d | OverPlain(a, c) == OverPlain(b, c)
      ensures OverPlain(OverPlain(a, d), c) == OverPlain(OverPlain(b, d), c)
    {
      PlainAgree(a, b, c, d);
    }
  }

  lemma UnpricedStep(o: Charge, c: Charge)
    ensures Unpriced(UpsertCharge(Some(o), c)) == OverPlain(Unpriced(o), Unpriced(c))
  {
    var l, r := Unpriced(UpsertCharge(Some(o), c)), OverPlain(Unpriced(o), Unpriced(c));
    assert l.place == r.place && l.placeOverride == r.placeOverride && l.gapKwh == r.gapKwh;
    assert l.energyEstimated == r.energyEstimated;
  }

  function AllUnpriced(cs: seq<Charge>): (r: seq<Charge>)
    ensures |r| == |cs| && forall i :: 0 <= i < |cs| ==> r[i] == Unpriced(cs[i])
  {
    seq(|cs|, i requires 0 <= i < |cs| => Unpriced(cs[i]))
  }

  /** Price and network apart, an upsert is the same whatever is locked. */
  lemma {:induction false} UnpricedFold(x: Charge, cs: seq<Charge>)
    ensures Unpriced(FoldAll(OverCharge, x, cs)) == FoldAll(OverPlain, Unpriced(x), AllUnpriced(cs))
  {
    if cs != [] {
      var n := |cs| - 1;
      UnpricedFold(x, cs[..n]);
      UnpricedStep(FoldAll(OverCharge, x, cs[..n]), cs[n]);
      assert AllUnpriced(cs)[..n] == AllUnpriced(cs[..n]);
    }
  }

  /** Price and network apart, replaying charges changes nothing, bills or not. */
  lemma UnpricedReplays(x: Charge, cs: seq<Charge>)
    ensures Unpriced(FoldAll(OverCharge, FoldAll(OverCharge, x, cs), cs)) == Unpriced(FoldAll(OverCharge, x, cs))
  {
    PlainOverrides();
    UnpricedFold(x, cs);
    UnpricedFold(FoldAll(OverCharge, x, cs), cs);
    Replays(OverPlain, Unpriced(x), AllUnpriced(cs));
  }

  ghost predicate AllCharges(cs: seq<Cell>) { forall c :: c in cs ==> c.ChargeCell? }

  function ChargesIn(cs: seq<Cell>): (ds: seq<Charge>)
    requires AllCharges(cs)
    ensures |ds| == |cs| && forall i :: 0 <= i < |cs| ==> ds[i] == cs[i].charge
  {
    seq(|cs|, i requires 0 <= i < |cs| => assert cs[i] in cs; cs[i].charge)
  }

  lemma {:induction false} FoldCharges(k: Key, x: Charge, cs: seq<Cell>)
    requires k.ChargeKey? && AllCharges(cs)
    ensures Fold(k, Some(ChargeCell(x)), cs) == Some(ChargeCell(FoldAll(OverCharge, x, ChargesIn(cs))))
  {
    if cs != [] {
      var n := |cs| - 1;
      assert cs[n] in cs && forall c :: c in cs[..n] ==> c in cs;
      FoldCharges(k, x, cs[..n]);
      assert ChargesIn(cs) == ChargesIn(cs[..n]) + [cs[n].charge];
      Replay.FoldSnoc(OverCharge, x, ChargesIn(cs[..n]), cs[n].charge);
    }
  }

  lemma {:induction false} FoldCells(k: Key, was: Option<Cell>, a: seq<Cell>, b: seq<Cell>)
    requires (forall c :: c in a ==> Fits(k, c)) && (forall c :: c in b ==> Fits(k, c))
             && (was.Some? ==> Fits(k, was.value))
    ensures Fold(k, was, a + b) == Fold(k, Fold(k, was, a), b)
  {
    if b == [] {
      assert a + b == a;
    } else {
      var n := |b| - 1;
      assert b[n] in b && forall c :: c in b[..n] ==> c in b;
      FoldCells(k, was, a, b[..n]);
      assert (a + b)[..|a + b| - 1] == a + b[..n];
    }
  }

  /** The charge in a cell without its price and network. */
  function UnpricedCell(c: Option<Cell>): Option<Charge> {
    if c.Some? && c.value.ChargeCell? then Some(Unpriced(c.value.charge)) else None
  }

  lemma FoldFirst(k: Key, c: Charge, tail: seq<Cell>)
    requires k.ChargeKey? && AllCharges(tail)
    ensures Fold(k, None, [ChargeCell(c)] + tail) ==
            Some(ChargeCell(FoldAll(OverCharge, UpsertCharge(None, c), ChargesIn(tail))))
  {
    assert [ChargeCell(c)][..0] == [];
    FoldCells(k, None, [ChargeCell(c)], tail);
    FoldCharges(k, UpsertCharge(None, c), tail);
  }

  lemma FirstUnpriced(c: Charge)
    ensures var first := UpsertCharge(None, c); Unpriced(OverCharge(first, c)) == Unpriced(first)
  {
  }

  /** Price and network apart, the first charge of a row may as well be written twice. */
  lemma FirstTwice(c: Charge, tail: seq<Charge>)
    ensures var first := UpsertCharge(None, c);
            Unpriced(FoldAll(OverCharge, first, [c] + tail)) == Unpriced(FoldAll(OverCharge, first, tail))
  {
    var first := UpsertCharge(None, c);
    FoldAppend(OverCharge, first, [c], tail);
    FoldOne(OverCharge, first, c);
    FirstUnpriced(c);
    UnpricedFold(OverCharge(first, c), tail);
    UnpricedFold(first, tail);
  }

  lemma ChargesCons(c: Charge, tail: seq<Cell>)
    requires AllCharges(tail)
    ensures AllCharges([ChargeCell(c)] + tail) && ChargesIn([ChargeCell(c)] + tail) == [c] + ChargesIn(tail)
  {
  }

  lemma NewRow(k: Key, c: Charge, tail: seq<Cell>)
    requires k.ChargeKey? && AllCharges(tail)
    ensures var cs := [ChargeCell(c)] + tail;
            && AllCharges(cs)
            && UnpricedCell(Fold(k, None, cs)) ==
               Some(Unpriced(FoldAll(OverCharge, UpsertCharge(None, c), ChargesIn(cs))))
  {
    FoldFirst(k, c, tail);
    FirstTwice(c, ChargesIn(tail));
    ChargesCons(c, tail);
  }

  /** What a run over charges leaves of a row, price and network apart, told from a first charge. */
  lemma UnpricedRun(k: Key, was: Option<Cell>, cs: seq<Cell>) returns (x: Charge)
    requires k.ChargeKey? && cs != [] && AllCharges(cs) && (was.Some? ==> was.value.ChargeCell?)
    ensures UnpricedCell(Fold(k, was, cs)) == Some(Unpriced(FoldAll(OverCharge, x, ChargesIn(cs))))
  {
    assert cs[0] in cs;
    x := if was.None? then UpsertCharge(None, cs[0].charge) else was.value.charge;
    if was.None? {
      var tail := cs[1..];
      assert cs == [ChargeCell(cs[0].charge)] + tail && forall y :: y in tail ==> y in cs;
      NewRow(k, cs[0].charge, tail);
    } else {
      FoldCharges(k, x, cs);
    }
  }

  /** Rows that differ in price and network only go on so. */
  lemma UnpricedGoesOn(k: Key, a: Option<Cell>, b: Option<Cell>, cs: seq<Cell>)
    requires k.ChargeKey? && AllCharges(cs) && (a.Some? ==> a.value.ChargeCell?) && (b.Some? ==> b.value.ChargeCell?)
    requires UnpricedCell(a) == UnpricedCell(b)
    ensures UnpricedCell(Fold(k, a, cs)) == UnpricedCell(Fold(k, b, cs))
  {
    if a.Some? {
      FoldCharges(k, a.value.charge, cs);
      FoldCharges(k, b.value.charge, cs);
      UnpricedFold(a.value.charge, ChargesIn(cs));
      UnpricedFold(b.value.charge, ChargesIn(cs));
    }
  }

  lemma UnpricedAgain(k: Key, was: Option<Cell>, cs: seq<Cell>)
    requires k.ChargeKey? && AllCharges(cs) && (was.Some? ==> was.value.ChargeCell?)
    ensures UnpricedCell(Fold(k, Fold(k, was, cs), cs)) == UnpricedCell(Fold(k, was, cs))
  {
    if cs != [] {
      var x := UnpricedRun(k, was, cs);
      var once := Fold(k, was, cs).value.charge;
      FoldCharges(k, once, cs);
      UnpricedFold(once, ChargesIn(cs));
      UnpricedFold(FoldAll(OverCharge, x, ChargesIn(cs)), ChargesIn(cs));
      UnpricedReplays(x, ChargesIn(cs));
    }
  }

  function PricingIn(c: Option<Cell>): Option<Pricing> {
    if c.Some? && c.value.ChargeCell? then Some(PricingOf(c.value.charge)) else None
  }

  function PricesIn(cs: seq<Cell>): (ps: seq<Pricing>)
    requires AllCharges(cs)
    ensures |ps| == |cs| && forall i :: 0 <= i < |cs| ==> ps[i] == PricingOf(cs[i].charge)
  {
    seq(|cs|, i requires 0 <= i < |cs| => assert cs[i] in cs; PricingOf(cs[i].charge))
  }

  predicate ChargeOrNone(c: Option<Cell>) { c.Some? ==> c.value.ChargeCell? }

  /** Price and network depend on price and network alone. */
  lemma {:induction false} PricesFold(k: Key, was: Option<Cell>, cs: seq<Cell>)
    requires k.ChargeKey? && AllCharges(cs) && ChargeOrNone(was)
    ensures PricingIn(Fold(k, was, cs)) == FoldAll(PutPrice, PricingIn(was), PricesIn(cs))
  {
    if cs != [] {
      var n := |cs| - 1;
      assert cs[n] in cs && forall c :: c in cs[..n] ==> c in cs;
      PricesFold(k, was, cs[..n]);
      assert PricesIn(cs)[..n] == PricesIn(cs[..n]);
      var so := Fold(k, was, cs[..n]);
      PricedByPrices(if so.None? then None else Some(so.value.charge), cs[n].charge);
    }
  }

  lemma SameCharge(a: Option<Cell>, b: Option<Cell>)
    requires ChargeOrNone(a) && ChargeOrNone(b)
    ensures a == b <==> UnpricedCell(a) == UnpricedCell(b) && PricingIn(a) == PricingIn(b)
  {
    if a.Some? && b.Some? && UnpricedCell(a) == UnpricedCell(b) && PricingIn(a) == PricingIn(b) {
      var c, d := a.value.charge, b.value.charge;
      assert Unpriced(c).placeOverride == Unpriced(d).placeOverride;
    }
  }

  /** Charges put before a cut (p) and after it (q): the row converges exactly when its price and network do. */
  lemma ChargeReplaysIff(k: Key, was: Option<Cell>, p: seq<Cell>, q: seq<Cell>)
    requires k.ChargeKey? && AllCharges(p) && AllCharges(q) && ChargeOrNone(was)
    ensures var once := Fold(k, was, p);
            Fold(k, Fold(k, once, p), q) == Fold(k, once, q) <==>
            Undisturbed(PricingIn(was), PricesIn(p), PricesIn(q))
  {
    var once := Fold(k, was, p);
    var twice := Fold(k, once, p);
    UnpricedAgain(k, was, p);
    UnpricedGoesOn(k, twice, once, q);
    PricesFold(k, was, p);
    PricesFold(k, once, p);
    PricesFold(k, once, q);
    PricesFold(k, twice, q);
    SameCharge(Fold(k, twice, q), Fold(k, once, q));
  }

  /** Replaying charges changes nothing, however often and in whatever variants, bills included, unless one of
    * them opens a confirmed network for good, or a new row starts with a billed network. */
  lemma ChargesReplay(k: Key, was: Option<Cell>, cs: seq<Cell>)
    requires k.ChargeKey? && AllCharges(cs) && ChargeOrNone(was) && !Opens(PricingIn(was), PricesIn(cs))
    ensures Fold(k, Fold(k, was, cs), cs) == Fold(k, was, cs)
  {
    UndisturbedUnlessOpened(PricingIn(was), PricesIn(cs), []);
    ChargeReplaysIff(k, was, cs, []);
    assert PricesIn([]) == [];
  }

  // ---------------------------------------------------------------------------------------------
  // A cut at one key
  // ---------------------------------------------------------------------------------------------

  predicate PutAt(w: Write, k: Key) { w.Put? && w.key == k }

  ghost predicate PutsAppended(p: seq<Write>, q: seq<Write>, k: Key)
    requires WritesOk(p) && WritesOk(q)
  {
    WritesOk(p + q) && PutsAt(p + q, k) == PutsAt(p, k) + PutsAt(q, k)
  }

  lemma PutsAppendedSnoc(p: seq<Write>, q: seq<Write>, w: Write, k: Key)
    requires WritesOk(p) && WritesOk(q) && WriteOk(w) && PutsAppended(p, q, k)
    ensures WritesOk(q + [w]) && PutsAppended(p, q + [w], k)
  {
    var one := if PutAt(w, k) then [w.cell] else [];
    PutsAtSnoc(q, w, k);
    PutsAtSnoc(p + q, w, k);
    Regroup(PutsAt(p, k), PutsAt(q, k), one);
    assert p + (q + [w]) == p + q + [w];
  }

  lemma {:induction false} PutsAtAppend(p: seq<Write>, q: seq<Write>, k: Key)
    requires WritesOk(p) && WritesOk(q)
    ensures PutsAppended(p, q, k)
  {
    if q == [] {
      assert p + q == p;
    } else {
      var n := |q| - 1;
      var init, w := q[..n], q[n];
      assert q == init + [w] && w in q && forall v :: v in init ==> v in q;
      PutsAtAppend(p, init, k);
      PutsAppendedSnoc(p, init, w, k);
    }
  }

  ghost predicate ConvergesAt(t: Tables, ws: seq<Write>, n: nat, k: Key)
    requires Valid(t) && WritesOk(ws) && n <= |ws| && WritesOk(ws[..n])
  {
    Get(Run(Run(t, ws[..n]), ws), k) == Get(Run(t, ws), k)
  }

  lemma CellsAtSplit(t: Tables, p: seq<Write>, q: seq<Write>, k: Key)
    requires Valid(t) && WritesOk(p) && WritesOk(q) && !k.MilestoneKey?
    ensures WritesOk(p + q)
    ensures Get(Run(t, p + q), k) == Fold(k, Fold(k, Get(t, k), PutsAt(p, k)), PutsAt(q, k))
  {
    PutsAtAppend(p, q, k);
    CellAfter(t, p + q, k);
    FoldCells(k, Get(t, k), PutsAt(p, k), PutsAt(q, k));
  }

  /** A row but a milestone, told by the puts at its key before and after the cut. */
  lemma CellsAtCut(t: Tables, ws: seq<Write>, n: nat, k: Key)
    requires Valid(t) && WritesOk(ws) && n <= |ws| && !k.MilestoneKey?
    ensures WritesOk(ws[..n]) && WritesOk(ws[n..])
    ensures var once := Fold(k, Get(t, k), PutsAt(ws[..n], k));
            && Get(Run(t, ws), k) == Fold(k, once, PutsAt(ws[n..], k))
            && Get(Run(Run(t, ws[..n]), ws), k) == Fold(k, Fold(k, once, PutsAt(ws[..n], k)), PutsAt(ws[n..], k))
  {
    var p, q := ws[..n], ws[n..];
    assert ws == p + q;
    CellAfter(t, p, k);
    CellsAtSplit(t, p, q, k);
    CellsAtSplit(Run(t, p), p, q, k);
  }

  /** Drives, samples and the other rows converge from every cut, even when a file repeats a key. */
  lemma OtherRowsConverge(t: Tables, ws: seq<Write>, n: nat, k: Key)
    requires Valid(t) && WritesOk(ws) && n <= |ws| && !k.ChargeKey? && !k.MilestoneKey?
    ensures WritesOk(ws[..n]) && ConvergesAt(t, ws, n, k)
  {
    CellsAtCut(t, ws, n, k);
    CellsReplay(k, Get(t, k), PutsAt(ws[..n], k));
  }

  // ---------------------------------------------------------------------------------------------
  // Charges at a cut
  // ---------------------------------------------------------------------------------------------

  /** Price and network apart, every charge converges from every cut, whatever keys repeat. */
  lemma UnpricedConverges(t: Tables, ws: seq<Write>, n: nat, k: Key)
    requires Valid(t) && WritesOk(ws) && n <= |ws| && k.ChargeKey?
    ensures WritesOk(ws[..n])
    ensures UnpricedCell(Get(Run(Run(t, ws[..n]), ws), k)) == UnpricedCell(Get(Run(t, ws), k))
  {
    CellsAtCut(t, ws, n, k);
    var once := Fold(k, Get(t, k), PutsAt(ws[..n], k));
    UnpricedAgain(k, Get(t, k), PutsAt(ws[..n], k));
    UnpricedGoesOn(k, Fold(k, once, PutsAt(ws[..n], k)), once, PutsAt(ws[n..], k));
  }

  /** What comes before the cut, once it was run, does not show in the price and network at k. */
  ghost predicate PricesReplay(t: Tables, ws: seq<Write>, n: nat, k: Key)
    requires n <= |ws|
  {
    Undisturbed(PricingIn(Get(t, k)), PricesPut(ws[..n], k), PricesPut(ws[n..], k))
  }

  /** The prices put at k, in order. */
  function PricesPut(ws: seq<Write>, k: Key): seq<Pricing> {
    if ws == [] then []
    else
      var n := |ws| - 1;
      PricesPut(ws[..n], k) + if PutAt(ws[n], k) && ws[n].cell.ChargeCell? then [PricingOf(ws[n].cell.charge)] else []
  }

  lemma {:induction false} PricesOfPuts(ws: seq<Write>, k: Key)
    requires WritesOk(ws) && k.ChargeKey?
    ensures AllCharges(PutsAt(ws, k)) && PricesPut(ws, k) == PricesIn(PutsAt(ws, k))
  {
    if ws != [] {
      var n := |ws| - 1;
      var init, w := ws[..n], ws[n];
      assert ws == init + [w] && w in ws && forall v :: v in init ==> v in ws;
      PricesOfPuts(init, k);
      PutsAtSnoc(init, w, k);
    }
  }

  /** A charge converges from a cut if and only if its price and network replay. */
  lemma ChargeConvergesIff(t: Tables, ws: seq<Write>, n: nat, k: Key)
    requires Valid(t) && WritesOk(ws) && n <= |ws| && k.ChargeKey?
    ensures WritesOk(ws[..n]) && (ConvergesAt(t, ws, n, k) <==> PricesReplay(t, ws, n, k))
  {
    CellsAtCut(t, ws, n, k);
    PricesOfPuts(ws[..n], k);
    PricesOfPuts(ws[n..], k);
    ChargeReplaysIff(k, Get(t, k), PutsAt(ws[..n], k), PutsAt(ws[n..], k));
  }

  // ---------------------------------------------------------------------------------------------
  // Milestones at a cut
  // ---------------------------------------------------------------------------------------------

  /** Write i puts a milestone at k when its vehicle is there. */
  ghost predicate FindsVehicle(vehicles: set<string>, ws: seq<Write>, k: Key, i: int)
    requires k.MilestoneKey?
  {
    0 <= i < |ws| && PutAt(ws[i], k) && k.vehicle in vehicles + Created(ws[..i])
  }

  ghost predicate SomeFinds(vehicles: set<string>, ws: seq<Write>, k: Key)
    requires k.MilestoneKey?
  {
    exists i :: FindsVehicle(vehicles, ws, k, i)
  }

  lemma FoundIsThere(vehicles: set<string>, ws: seq<Write>, k: Key)
    requires k.MilestoneKey? && SomeFinds(vehicles, ws, k)
    ensures k.vehicle in vehicles + Created(ws)
  {
    var i :| FindsVehicle(vehicles, ws, k, i);
    if k.vehicle in Created(ws[..i]) {
      var w :| w in ws[..i] && w.Vehicle? && w.id == k.vehicle;
      assert w in ws;
    }
  }

  lemma FoundSnoc(vehicles: set<string>, init: seq<Write>, w: Write, k: Key)
    requires k.MilestoneKey?
    ensures SomeFinds(vehicles, init + [w], k) <==>
            SomeFinds(vehicles, init, k) || (PutAt(w, k) && k.vehicle in vehicles + Created(init))
  {
    var ws, n := init + [w], |init|;
    assert ws[..n] == init && ws[n] == w;
    forall i | 0 <= i < n ensures FindsVehicle(vehicles, ws, k, i) <==> FindsVehicle(vehicles, init, k, i) {
      assert init[..i] == ws[..i];
    }
    assert FindsVehicle(vehicles, ws, k, n) <==> PutAt(w, k) && k.vehicle in vehicles + Created(init);
    if SomeFinds(vehicles, init, k) {
      var i :| FindsVehicle(vehicles, init, k, i);
      assert FindsVehicle(vehicles, ws, k, i);
    }
  }

  /** Some put is stored iff one found its vehicle. */
  lemma {:induction false} StoredIffFound(vehicles: set<string>, ws: seq<Write>, k: Key)
    requires WritesOk(ws) && k.MilestoneKey?
    ensures MilestonesAt(vehicles, ws, k) != [] <==> SomeFinds(vehicles, ws, k)
  {
    if ws != [] {
      var n := |ws| - 1;
      var init, w := ws[..n], ws[n];
      assert ws == init + [w] && w in ws && forall v :: v in init ==> v in ws;
      StoredIffFound(vehicles, init, k);
      MilestonesSnoc(vehicles, init, w, k);
      FoundSnoc(vehicles, init, w, k);
    }
  }

  /** The last put stored is the last put. */
  ghost predicate EndAlike(stored: seq<Cell>, puts: seq<Cell>) {
    stored != [] ==> puts != [] && stored[|stored| - 1] == puts[|puts| - 1]
  }

  lemma EndAlikeSnoc(vehicles: set<string>, init: seq<Write>, w: Write, k: Key)
    requires WritesOk(init) && WriteOk(w) && k.MilestoneKey?
             && EndAlike(MilestonesAt(vehicles, init, k), PutsAt(init, k))
    ensures WritesOk(init + [w]) && EndAlike(MilestonesAt(vehicles, init + [w], k), PutsAt(init + [w], k))
  {
    MilestonesSnoc(vehicles, init, w, k);
    PutsAtSnoc(init, w, k);
    StoredIffFound(vehicles, init, k);
    if SomeFinds(vehicles, init, k) {
      FoundIsThere(vehicles, init, k);
    }
  }

  lemma {:induction false} LastIsStored(vehicles: set<string>, ws: seq<Write>, k: Key)
    requires WritesOk(ws) && k.MilestoneKey?
    ensures EndAlike(MilestonesAt(vehicles, ws, k), PutsAt(ws, k))
  {
    if ws != [] {
      var n := |ws| - 1;
      var init, w := ws[..n], ws[n];
      assert ws == init + [w] && w in ws && forall v :: v in init ==> v in ws;
      LastIsStored(vehicles, init, k);
      EndAlikeSnoc(vehicles, init, w, k);
    }
  }

  /** Where the vehicle was there from the start, every put is stored. */
  lemma {:induction false} AllStored(vehicles: set<string>, ws: seq<Write>, k: Key)
    requires WritesOk(ws) && k.MilestoneKey? && k.vehicle in vehicles
    ensures MilestonesAt(vehicles, ws, k) == PutsAt(ws, k)
  {
    if ws != [] {
      var n := |ws| - 1;
      assert ws[n] in ws && forall w :: w in ws[..n] ==> w in ws;
      AllStored(vehicles, ws[..n], k);
    }
  }

  lemma {:induction false} SameVehicle(a: set<string>, b: set<string>, ws: seq<Write>, k: Key)
    requires WritesOk(ws) && k.MilestoneKey? && (k.vehicle in a <==> k.vehicle in b)
    ensures MilestonesAt(a, ws, k) == MilestonesAt(b, ws, k)
  {
    if ws != [] {
      var n := |ws| - 1;
      assert ws[n] in ws && forall w :: w in ws[..n] ==> w in ws;
      SameVehicle(a, b, ws[..n], k);
    }
  }

  /** If the writes before the cut create the milestone's vehicle, some put at k comes after its vehicle. */
  ghost predicate InTime(t: Tables, ws: seq<Write>, n: nat, k: Key)
    requires n <= |ws| && k.MilestoneKey?
  {
    k.vehicle in Created(ws[..n]) ==> SomeFinds(t.vehicles, ws, k)
  }

  lemma StoredByPrefix(vehicles: set<string>, p: seq<Write>, q: seq<Write>, k: Key)
    requires WritesOk(p) && WritesOk(q) && k.MilestoneKey? && WritesOk(p + q) && MilestonesAt(vehicles, p, k) != []
    ensures MilestonesAt(vehicles, p + q, k) != []
  {
    StoredIffFound(vehicles, p, k);
    StoredIffFound(vehicles, p + q, k);
    var i :| FindsVehicle(vehicles, p, k, i);
    assert (p + q)[..i] == p[..i];
    assert FindsVehicle(vehicles, p + q, k, i);
  }

  /** When its vehicle was on the account, or is not created before the cut, a milestone converges. */
  lemma SettledMilestone(t: Tables, ws: seq<Write>, n: nat, k: Key)
    requires Valid(t) && WritesOk(ws) && n <= |ws| && k.MilestoneKey?
    requires k.vehicle in t.vehicles || k.vehicle !in Created(ws[..n])
    ensures WritesOk(ws[..n]) && ConvergesAt(t, ws, n, k)
  {
    var p, q := ws[..n], ws[n..];
    assert ws == p + q;
    VehiclesAfter(t, p);
    MilestoneAfter(t, p, k);
    MilestoneAfter(t, ws, k);
    MilestoneAfter(Run(t, p), ws, k);
    SameVehicle(t.vehicles, Run(t, p).vehicles, ws, k);
    if MilestonesAt(t.vehicles, p, k) != [] {
      StoredByPrefix(t.vehicles, p, q, k);
    }
  }

  lemma NewMilestone(t: Tables, ws: seq<Write>, n: nat, k: Key)
    requires Valid(t) && WritesOk(ws) && n <= |ws| && k.MilestoneKey?
    requires k.vehicle !in t.vehicles && k.vehicle in Created(ws[..n])
    ensures WritesOk(ws[..n])
    ensures ConvergesAt(t, ws, n, k) <==> PutsAt(ws, k) == [] || MilestonesAt(t.vehicles, ws, k) != []
  {
    var p, q := ws[..n], ws[n..];
    assert ws == p + q;
    VehiclesAfter(t, p);
    MilestoneAfter(t, p, k);
    MilestoneAfter(t, ws, k);
    MilestoneAfter(Run(t, p), ws, k);
    AllStored(Run(t, p).vehicles, ws, k);
    assert Get(t, k) == None;
    LastIsStored(t.vehicles, ws, k);
    if MilestonesAt(t.vehicles, p, k) != [] {
      StoredByPrefix(t.vehicles, p, q, k);
    }
  }

  lemma {:induction false} PutsIff(ws: seq<Write>, k: Key)
    requires WritesOk(ws)
    ensures PutsAt(ws, k) != [] <==> exists i :: 0 <= i < |ws| && PutAt(ws[i], k)
  {
    if ws != [] {
      var n := |ws| - 1;
      assert ws[n] in ws && forall w :: w in ws[..n] ==> w in ws;
      PutsIff(ws[..n], k);
      assert forall i :: 0 <= i < n ==> ws[..n][i] == ws[i];
    }
  }

  lemma MilestoneConvergesIff(t: Tables, ws: seq<Write>, n: nat, k: Key)
    requires Valid(t) && WritesOk(ws) && n <= |ws| && k.MilestoneKey?
    ensures WritesOk(ws[..n])
    ensures ConvergesAt(t, ws, n, k) <==> ((exists i :: 0 <= i < |ws| && PutAt(ws[i], k)) ==> InTime(t, ws, n, k))
  {
    StoredIffFound(t.vehicles, ws, k);
    PutsIff(ws, k);
    if k.vehicle in t.vehicles || k.vehicle !in Created(ws[..n]) {
      SettledMilestone(t, ws, n, k);
      if i :| 0 <= i < |ws| && PutAt(ws[i], k) && k.vehicle in t.vehicles {
        assert FindsVehicle(t.vehicles, ws, k, i);
      }
    } else {
      NewMilestone(t, ws, n, k);
    }
  }

  // ---------------------------------------------------------------------------------------------
  // The exact condition
  // ---------------------------------------------------------------------------------------------

  /** A cut that a full run repairs: the price and network of every charge before it replay, and no milestone of
    * the file comes only before its vehicle, which the writes before the cut create. */
  ghost predicate Stable(t: Tables, ws: seq<Write>, n: nat)
    requires n <= |ws|
  {
    && (forall i :: 0 <= i < n && ws[i].Put? && ws[i].key.ChargeKey? ==> PricesReplay(t, ws, n, ws[i].key))
    && (forall i :: 0 <= i < |ws| && ws[i].Put? && ws[i].key.MilestoneKey? ==> InTime(t, ws, n, ws[i].key))
  }

  lemma {:induction false} NoPrices(ws: seq<Write>, k: Key)
    requires forall i :: 0 <= i < |ws| ==> !PutAt(ws[i], k)
    ensures PricesPut(ws, k) == []
  {
    if ws != [] {
      var n := |ws| - 1;
      assert !PutAt(ws[n], k);
      NoPrices(ws[..n], k);
    }
  }

  lemma ChargeConverges(t: Tables, ws: seq<Write>, n: nat, k: Key)
    requires Valid(t) && WritesOk(ws) && n <= |ws| && Stable(t, ws, n) && k.ChargeKey?
    ensures WritesOk(ws[..n]) && ConvergesAt(t, ws, n, k)
  {
    ChargeConvergesIff(t, ws, n, k);
    if i :| 0 <= i < n && PutAt(ws[i], k) {
      assert PricesReplay(t, ws, n, ws[i].key);
    } else {
      NoPrices(ws[..n], k);
    }
  }

  lemma StableConverges(t: Tables, ws: seq<Write>, n: nat)
    requires Valid(t) && WritesOk(ws) && n <= |ws| && Stable(t, ws, n)
    ensures WritesOk(ws[..n]) && Converges(t, ws, n)
  {
    var p, u := ws[..n], Run(t, ws[..n]);
    VehiclesAfter(t, p);
    VehiclesAfter(u, ws);
    VehiclesAfter(t, ws);
    forall k ensures Get(Run(u, ws), k) == Get(Run(t, ws), k) {
      if k.ChargeKey? {
        ChargeConverges(t, ws, n, k);
      } else if k.MilestoneKey? {
        MilestoneConvergesIff(t, ws, n, k);
      } else {
        OtherRowsConverge(t, ws, n, k);
      }
    }
    assert forall w :: w in p ==> w in ws;
    SameTables(Run(u, ws), Run(t, ws));
  }

  lemma UnstableDiverges(t: Tables, ws: seq<Write>, n: nat)
    requires Valid(t) && WritesOk(ws) && n <= |ws| && !Stable(t, ws, n)
    ensures WritesOk(ws[..n]) && exists k :: !ConvergesAt(t, ws, n, k)
  {
    if i :| 0 <= i < n && ws[i].Put? && ws[i].key.ChargeKey? && !PricesReplay(t, ws, n, ws[i].key) {
      ChargeConvergesIff(t, ws, n, ws[i].key);
    } else {
      var i :| 0 <= i < |ws| && ws[i].Put? && ws[i].key.MilestoneKey? && !InTime(t, ws, n, ws[i].key);
      assert PutAt(ws[i], ws[i].key);
      MilestoneConvergesIff(t, ws, n, ws[i].key);
    }
  }

  /** A restore cut off after any write and then run in full ends in exactly the state of one full run,
    * if and only if the cut was stable. Any keys may repeat. */
  lemma ConvergesIffStable(t: Tables, ws: seq<Write>, n: nat)
    requires Valid(t) && WritesOk(ws) && n <= |ws|
    ensures WritesOk(ws[..n]) && (Converges(t, ws, n) <==> Stable(t, ws, n))
  {
    if Stable(t, ws, n) {
      StableConverges(t, ws, n);
    } else {
      UnstableDiverges(t, ws, n);
    }
  }

  // ---------------------------------------------------------------------------------------------
  // Bills that are put once
  // ---------------------------------------------------------------------------------------------

  predicate BillAt(w: Write, k: Key) { PutAt(w, k) && w.cell.ChargeCell? && Bill(PricingOf(w.cell.charge)) }

  /** A charge that comes with a bill is put once, as in any backup (charges are unique by their key). */
  ghost predicate BilledOnce(ws: seq<Write>) {
    forall i, j :: 0 <= i < |ws| && 0 <= j < |ws| && i != j && ws[i].Put? && BillAt(ws[i], ws[i].key) ==>
        !PutAt(ws[j], ws[i].key)
  }

  lemma {:induction false} OnePrice(ws: seq<Write>, i: nat, k: Key)
    requires i < |ws| && PutAt(ws[i], k) && ws[i].cell.ChargeCell?
    requires forall j :: 0 <= j < |ws| && j != i ==> !PutAt(ws[j], k)
    ensures PricesPut(ws, k) == [PricingOf(ws[i].cell.charge)]
  {
    var n := |ws| - 1;
    if i == n {
      NoPrices(ws[..n], k);
    } else {
      OnePrice(ws[..n], i, k);
      assert !PutAt(ws[n], k);
    }
  }

  lemma {:induction false} PricesUnbilled(ws: seq<Write>, k: Key)
    requires forall i :: 0 <= i < |ws| ==> !BillAt(ws[i], k)
    ensures forall c :: c in PricesPut(ws, k) ==> !Bill(c)
  {
    if ws != [] {
      var n := |ws| - 1;
      assert !BillAt(ws[n], k);
      PricesUnbilled(ws[..n], k);
    }
  }

  function ChargeAt(t: Tables, k: Key): Option<Charge> {
    if k in t.rows && t.rows[k].ChargeCell? then Some(t.rows[k].charge) else None
  }

  /** One bill, written once or twice. */
  lemma OneBillReplays(was: Option<Charge>, c: Charge)
    ensures Undisturbed(if was.None? then None else Some(PricingOf(was.value)), [PricingOf(c)], []) <==>
            !Unsettled(was, c)
  {
    var p := if was.None? then None else Some(PricingOf(was.value));
    FoldOne(PutPrice, p, PricingOf(c));
    FoldOne(PutPrice, PutPrice(p, PricingOf(c)), PricingOf(c));
  }

  /** Every bill before the cut is settled. */
  ghost predicate BillsSettled(t: Tables, ws: seq<Write>, n: nat)
    requires n <= |ws|
  {
    forall i :: 0 <= i < n && ws[i].Put? && BillAt(ws[i], ws[i].key) ==>
        !Unsettled(ChargeAt(t, ws[i].key), ws[i].cell.charge)
  }

  lemma BilledReplaysIff(t: Tables, ws: seq<Write>, n: nat, i: nat)
    requires BilledOnce(ws) && i < n <= |ws| && ws[i].Put? && BillAt(ws[i], ws[i].key)
    ensures PricesReplay(t, ws, n, ws[i].key) <==> !Unsettled(ChargeAt(t, ws[i].key), ws[i].cell.charge)
  {
    OnePrice(ws[..n], i, ws[i].key);
    NoPrices(ws[n..], ws[i].key);
    OneBillReplays(ChargeAt(t, ws[i].key), ws[i].cell.charge);
  }

  lemma UnbilledReplays(t: Tables, ws: seq<Write>, n: nat, k: Key)
    requires n <= |ws| && forall i :: 0 <= i < n ==> !BillAt(ws[i], k)
    ensures PricesReplay(t, ws, n, k)
  {
    PricesUnbilled(ws[..n], k);
    NoBillUndisturbed(PricingIn(Get(t, k)), PricesPut(ws[..n], k), PricesPut(ws[n..], k));
  }

  /** For a file whose bills are put once, prices replay exactly when the bills before the cut are settled. */
  lemma PricesReplayIffSettled(t: Tables, ws: seq<Write>, n: nat)
    requires WritesOk(ws) && BilledOnce(ws) && n <= |ws|
    ensures (forall i :: 0 <= i < n && ws[i].Put? && ws[i].key.ChargeKey? ==> PricesReplay(t, ws, n, ws[i].key)) <==>
            BillsSettled(t, ws, n)
  {
    forall i | 0 <= i < n && ws[i].Put? && BillAt(ws[i], ws[i].key)
      ensures ws[i].key.ChargeKey?
      ensures PricesReplay(t, ws, n, ws[i].key) <==> !Unsettled(ChargeAt(t, ws[i].key), ws[i].cell.charge)
    {
      assert WriteOk(ws[i]);
      BilledReplaysIff(t, ws, n, i);
    }
    forall k: Key | k.ChargeKey? && forall i :: 0 <= i < n ==> !BillAt(ws[i], k) ensures PricesReplay(t, ws, n, k) {
      UnbilledReplays(t, ws, n, k);
    }
    if BillsSettled(t, ws, n) {
      forall i | 0 <= i < n && ws[i].Put? && ws[i].key.ChargeKey? ensures PricesReplay(t, ws, n, ws[i].key) {
        if j :| 0 <= j < n && BillAt(ws[j], ws[i].key) {
          assert ws[j].key == ws[i].key;
        }
      }
    }
  }
}
