/** The price and network of a charge row, and what replaying the charges put at its key does to them.
  *
  * Of all columns only these five do not simply take the newest value: a price of the user's own or a
  * confirmed network locks them, and a bill opens a confirmed network again.
  */
module Prices {
  import opened Options
  import opened Account
  import opened Replay

  datatype Pricing = Pricing(price: string, costSource: Option<string>, networkState: Option<string>,
                             confidence: Option<string>, evidence: Option<string>)

  function PricingOf(c: Charge): Pricing {
    Pricing(c.price, c.costSource, c.networkState, c.confidence, c.evidence)
  }

  predicate Bill(c: Pricing) { c.costSource == RIVIAN }

  predicate OfUser(o: Pricing) { o.costSource == USER }

  /** Only a bill changes it. */
  predicate Confirmed(o: Pricing) { !OfUser(o) && o.networkState == CONFIRMED }

  predicate Unlocked(o: Pricing) { !OfUser(o) && o.networkState != CONFIRMED }

  /** A charge put over a row. */
  function Over(o: Pricing, c: Pricing): Pricing {
    if OfUser(o) then o
    else if Confirmed(o) then
      if Bill(c) then o.(price := c.price, costSource := c.costSource, networkState := None) else o
    else
      Pricing(c.price, c.costSource, if Bill(c) then None else Coalesce(c.networkState, o.networkState),
              Coalesce(c.confidence, o.confidence), Coalesce(c.evidence, o.evidence))
  }

  const PutPrice: (Option<Pricing>, Pricing) -> Option<Pricing> := (was: Option<Pricing>, c: Pricing) =>
    Some(if was.None? then c else Over(was.value, c))

  /** The five columns depend on these five alone. */
  lemma PricedByPrices(was: Option<Charge>, c: Charge)
    ensures Some(PricingOf(UpsertCharge(was, c))) ==
            PutPrice(if was.None? then None else Some(PricingOf(was.value)), PricingOf(c))
  {
  }

  /** Replaying the charges p before going on with q leaves the price that p and q alone leave. */
  predicate Undisturbed(was: Option<Pricing>, p: seq<Pricing>, q: seq<Pricing>) {
    var once := FoldAll(PutPrice, was, p);
    FoldAll(PutPrice, FoldAll(PutPrice, once, p), q) == FoldAll(PutPrice, once, q)
  }

  /** A bill opens a confirmed network for good, or a new row starts with a bill that names a network. */
  predicate Opens(was: Option<Pricing>, p: seq<Pricing>) {
    match was
    case None => p != [] && Bill(p[0]) && p[0].networkState.Some?
    case Some(o) => Confirmed(o) && var r := FoldAll(PutPrice, was, p); r.Some? && Unlocked(r.value)
  }

  lemma PutAppend(was: Option<Pricing>, c: Pricing, tail: seq<Pricing>)
    ensures FoldAll(PutPrice, was, [c] + tail) == FoldAll(PutPrice, PutPrice(was, c), tail)
  {
    FoldAppend(PutPrice, was, [c], tail);
    FoldOne(PutPrice, was, c);
  }

  // ---------------------------------------------------------------------------------------------
  // Two runs over the same charges
  // ---------------------------------------------------------------------------------------------

  /** A column of the first run (from x to y) and of the second (from y): alike, or not yet written since. */
  predicate Column(a: Option<string>, b: Option<string>, y: Option<string>) { a == b || b == y }

  /** The same, for a column that may decide whether the row is locked. */
  predicate State(a: Option<string>, b: Option<string>, y: Option<string>) {
    a == b || (b == y && a != CONFIRMED && b != CONFIRMED)
  }

  /** The first run at a, the second at b, which started at y. */
  predicate Alike(a: Pricing, b: Pricing, y: Pricing) {
    && a.price == b.price && a.costSource == b.costSource && State(a.networkState, b.networkState, y.networkState)
    && Column(a.confidence, b.confidence, y.confidence) && Column(a.evidence, b.evidence, y.evidence)
  }

  lemma AlikeStep(a: Pricing, b: Pricing, y: Pricing, c: Pricing)
    requires Alike(a, b, y)
    ensures Alike(Over(a, c), Over(b, c), y)
  {
  }

  lemma {:induction false} AlikeFold(a: Pricing, b: Pricing, y: Pricing, cs: seq<Pricing>)
    requires Alike(a, b, y)
    ensures var r, s := FoldAll(PutPrice, Some(a), cs), FoldAll(PutPrice, Some(b), cs);
            r.Some? && s.Some? && Alike(r.value, s.value, y)
  {
    if cs != [] {
      var n := |cs| - 1;
      AlikeFold(a, b, y, cs[..n]);
      AlikeStep(FoldAll(PutPrice, Some(a), cs[..n]).value, FoldAll(PutPrice, Some(b), cs[..n]).value, y, cs[n]);
    }
  }

  lemma {:induction false} Locked(o: Pricing, cs: seq<Pricing>)
    requires OfUser(o) || (Confirmed(o) && forall c :: c in cs ==> !Bill(c))
    ensures FoldAll(PutPrice, Some(o), cs) == Some(o)
  {
    if cs != [] {
      var n := |cs| - 1;
      assert cs[n] in cs && forall c :: c in cs[..n] ==> c in cs;
      Locked(o, cs[..n]);
    }
  }

  lemma {:induction false} FirstBill(cs: seq<Pricing>)
      returns (head: seq<Pricing>, bill: Pricing, tail: seq<Pricing>)
    requires exists c :: c in cs && Bill(c)
    ensures cs == head + ([bill] + tail) && Bill(bill) && forall c :: c in head ==> !Bill(c)
  {
    if Bill(cs[0]) {
      head, bill, tail := [], cs[0], cs[1..];
    } else {
      head, bill, tail := FirstBill(cs[1..]);
      head := [cs[0]] + head;
    }
  }

  /** A bill over any row that is not the user's, and over a confirmed one. */
  lemma FromBill(a: Pricing, y: Pricing, bill: Pricing, tail: seq<Pricing>)
    requires !OfUser(a) && Confirmed(y) && Bill(bill) && FoldAll(PutPrice, Some(a), [bill] + tail) == Some(y)
    ensures FoldAll(PutPrice, Some(y), [bill] + tail) == Some(y)
  {
    PutAppend(Some(y), bill, tail);
    PutAppend(Some(a), bill, tail);
    AlikeFold(Over(a, bill), Over(y, bill), y, tail);
  }

  lemma StaysRow(o: Pricing, cs: seq<Pricing>) returns (r: Pricing)
    ensures FoldAll(PutPrice, Some(o), cs) == Some(r) && (OfUser(o) ==> r == o)
  {
    r := FoldAll(PutPrice, Some(o), cs).value;
    if OfUser(o) {
      Locked(o, cs);
    }
  }

  lemma BillAfter(x: Pricing, y: Pricing, head: seq<Pricing>, bill: Pricing, tail: seq<Pricing>)
    requires Bill(bill) && Confirmed(y) && forall c :: c in head ==> !Bill(c)
    requires FoldAll(PutPrice, Some(x), head + ([bill] + tail)) == Some(y)
    ensures FoldAll(PutPrice, Some(y), head + ([bill] + tail)) == Some(y)
  {
    var rest := [bill] + tail;
    FoldAppend(PutPrice, Some(x), head, rest);
    FoldAppend(PutPrice, Some(y), head, rest);
    Locked(y, head);
    var a := StaysRow(x, head);
    var b := StaysRow(a, rest);
    FromBill(a, y, bill, tail);
  }

  /** A run that ends at a confirmed row: from the first bill on, the second is like it. */
  lemma ConfirmedReplays(x: Pricing, y: Pricing, cs: seq<Pricing>)
    requires FoldAll(PutPrice, Some(x), cs) == Some(y) && Confirmed(y)
    ensures FoldAll(PutPrice, Some(y), cs) == Some(y)
  {
    if c :| c in cs && Bill(c) {
      var head, bill, tail := FirstBill(cs);
      BillAfter(x, y, head, bill, tail);
    } else {
      Locked(y, cs);
    }
  }

  /** A run between unlocked rows: from the first charge on, the second is like it. */
  lemma UnlockedReplays(x: Pricing, y: Pricing, cs: seq<Pricing>)
    requires Unlocked(x) && FoldAll(PutPrice, Some(x), cs) == Some(y) && Unlocked(y)
    ensures FoldAll(PutPrice, Some(y), cs) == Some(y)
  {
    if cs != [] {
      var c, tail := cs[0], cs[1..];
      assert cs == [c] + tail;
      PutAppend(Some(x), c, tail);
      PutAppend(Some(y), c, tail);
      AlikeFold(Over(x, c), Over(y, c), y, tail);
    }
  }

  lemma RowReplays(x: Pricing, cs: seq<Pricing>)
    requires !Opens(Some(x), cs)
    ensures var once := FoldAll(PutPrice, Some(x), cs); FoldAll(PutPrice, once, cs) == once
  {
    var y := FoldAll(PutPrice, Some(x), cs).value;
    if OfUser(x) {
      Locked(x, cs);
    } else if OfUser(y) {
      Locked(y, cs);
    } else if Confirmed(y) {
      ConfirmedReplays(x, y, cs);
    } else {
      UnlockedReplays(x, y, cs);
    }
  }

  const BLANK := Pricing("", None, None, None, None)

  /** But for a bill that names a network, a new row starts like an unlocked one. */
  lemma NewIsBlank(cs: seq<Pricing>)
    requires cs != [] && !Opens(None, cs)
    ensures FoldAll(PutPrice, None, cs) == FoldAll(PutPrice, Some(BLANK), cs)
  {
    assert cs == [cs[0]] + cs[1..];
    PutAppend(None, cs[0], cs[1..]);
    PutAppend(Some(BLANK), cs[0], cs[1..]);
  }

  /** Whatever charges are put, and whatever follows, replaying them leaves price and network as they were,
    * unless a bill opens a confirmed network for good or a new row starts with a billed network. */
  lemma UndisturbedUnlessOpened(was: Option<Pricing>, p: seq<Pricing>, q: seq<Pricing>)
    ensures !Opens(was, p) ==> Undisturbed(was, p, q)
  {
    if !Opens(was, p) && p != [] {
      match was
      case None =>
        NewIsBlank(p);
        RowReplays(BLANK, p);
      case Some(x) =>
        RowReplays(x, p);
    }
  }

  lemma NeverConfirmed(o: Pricing, cs: seq<Pricing>)
    requires forall c :: c in cs ==> !Bill(c)
    ensures !Opens(Some(o), cs)
  {
    if Confirmed(o) {
      Locked(o, cs);
    }
  }

  /** So bills alone matter. */
  lemma NoBillUndisturbed(was: Option<Pricing>, p: seq<Pricing>, q: seq<Pricing>)
    requires forall c :: c in p ==> !Bill(c)
    ensures Undisturbed(was, p, q)
  {
    UndisturbedUnlessOpened(was, p, q);
    if was.Some? {
      NeverConfirmed(was.value, p);
    }
  }
}
