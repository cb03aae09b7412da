/** Re-pricing charges in bulk, its backup file, and putting the backup back.
  *
  * The select, the backup's query and each transaction are single atomic steps on the charges table.
  */
module Reprice {
  import opened Sets
  import opened Options
  import opened Sums

  type Id = nat

  datatype Source = NoSource | NetworkEstimate | Sourced(name: string)

  /** The columns re-pricing and its undo write. */
  datatype Pricing = Pricing(cost: Option<real>, rate: Option<real>, currency: Option<string>, source: Source,
                             network: Option<string>, legacyCost: Option<real>, legacyRate: Option<real>,
                             state: Option<string>, confidence: Option<real>, evidence: Option<string>, updatedAt: int)

  /** A charge; others stands for the columns neither touches. */
  datatype Charge = Charge(user: nat, others: string, kw: real, pricing: Pricing)

  type Table = map<Id, Charge>

  // ---------------------------------------------------------------------------------------------
  // Choosing what to re-price
  // ---------------------------------------------------------------------------------------------

  /** What the detector or the price archive says of a charge's place. */
  datatype Finding = NoStation | Found(rate: real, network: string, state: string, confidence: real, evidence: string)

  /** detect: the finding comes from network detection, with a verdict to store. user: only this user's charges,
    * or "" for everyone's. */
  datatype Settings = Settings(user: string, nameOf: nat -> string, lower: string -> string, detect: bool,
      minConfidence: real, minKw: real,
                               homeRate: nat -> real, isSession: Id -> bool, energy: Id -> real, find: Id -> Finding)

  datatype Change = Change(id: Id, newCost: real, rate: real, network: string, state: string, confidence: real,
      evidence: string)

  datatype Outcome = OtherPrice | PeakGlitch | NothingFound | LowConfidence | ToReprice

  function Value(x: Option<real>): real { if x.Some? then x.value else 0.0 }

  function OutcomeOf(opts: Settings, id: Id, c: Charge): Outcome {
    var home := opts.homeRate(c.user);
    if !(Value(c.pricing.cost) == 0.0 || (home > 0.0 && Abs(Value(c.pricing.rate) - home) < 0.0005)) then OtherPrice
    else if !opts.isSession(id) then PeakGlitch
    else if opts.find(id).NoStation? then NothingFound
    else if opts.detect && opts.find(id).confidence < opts.minConfidence then LowConfidence
    else ToReprice
  }

  function ChangeOf(opts: Settings, id: Id): Change
    requires opts.find(id).Found?
  {
    var f := opts.find(id);
    Change(id, f.rate * opts.energy(id), f.rate, f.network, if opts.detect then f.state else "", f.confidence,
        f.evidence)
  }

  predicate OfUser(opts: Settings, c: Charge) {
    opts.user == "" || opts.lower(opts.nameOf(c.user)) == opts.lower(opts.user)
  }

  /** The rows the select returns: fast charges without a cost source, of the given user and ids if any are given. */
  predicate Selected(opts: Settings, table: Table, ids: seq<Id>, id: Id) {
    && id in table && table[id].pricing.source.NoSource? && table[id].kw >= opts.minKw
    && OfUser(opts, table[id]) && (ids == [] || id in ids)
  }

  predicate Chosen(opts: Settings, table: Table, ids: seq<Id>, id: Id) {
    Selected(opts, table, ids, id) && OutcomeOf(opts, id, table[id]).ToReprice?
  }

  /** Which charges are re-priced, in terms of their columns: those of at least a fast charge's power, without a cost
    * source, of the given user and ids if any are given, that cost nothing so far or were priced at the home rate;
    * a session at a station that was found, by detection only with enough confidence. */
  predicate Due(opts: Settings, table: Table, ids: seq<Id>, id: Id) {
    && id in table && (|ids| == 0 || exists i :: 0 <= i < |ids| && ids[i] == id)
    && (opts.user != "" ==> opts.lower(opts.nameOf(table[id].user)) == opts.lower(opts.user))
    && var c := table[id];
       var home := opts.homeRate(c.user);
       && c.kw >= opts.minKw && c.pricing.source == NoSource
       && (c.pricing.cost == None || c.pricing.cost == Some(0.0) || AtHome(c.pricing.rate, home))
       && opts.isSession(id) && opts.find(id) != NoStation
       && (opts.detect ==> !(opts.find(id).confidence < opts.minConfidence))
  }

  /** A rate within a twentieth of a cent of the home rate, if there is one. */
  predicate AtHome(rate: Option<real>, home: real) {
    match rate
    case None => 0.0 < home < 0.0005
    case Some(r) => home > 0.0 && home - 0.0005 < r < home + 0.0005
  }

  lemma ChosenIffDue(opts: Settings, table: Table, ids: seq<Id>, id: Id)
    ensures Chosen(opts, table, ids, id) <==> Due(opts, table, ids, id)
  {
  }

  predicate DistinctIds(changes: seq<Change>) {
    forall i, j :: 0 <= i < j < |changes| ==> changes[i].id != changes[j].id
  }

  /** The changes for some rows, in order. */
  function ChangesOf(opts: Settings, table: Table, rows: seq<Id>): seq<Change>
    requires forall id :: id in rows ==> id in table
  {
    if rows == [] then []
    else
      var n := |rows| - 1;
      ChangesOf(opts, table, rows[..n]) +
      if OutcomeOf(opts, rows[n], table[rows[n]]).ToReprice? then [ChangeOf(opts, rows[n])] else []
  }

  lemma {:induction false} ChangesAreChosen(opts: Settings, table: Table, rows: seq<Id>)
    requires Distinct(rows) && forall id :: id in rows ==> id in table
    ensures forall c :: c in ChangesOf(opts, table, rows) ==>
              c.id in rows && OutcomeOf(opts, c.id, table[c.id]).ToReprice? && c == ChangeOf(opts, c.id)
    ensures forall id :: id in rows && OutcomeOf(opts, id, table[id]).ToReprice? ==>
            ChangeOf(opts, id) in ChangesOf(opts, table, rows)
    ensures DistinctIds(ChangesOf(opts, table, rows))
  {
    if rows != [] {
      var n := |rows| - 1;
      assert rows == rows[..n] + [rows[n]] && rows[n] !in rows[..n];
      ChangesAreChosen(opts, table, rows[..n]);
      var init := ChangesOf(opts, table, rows[..n]);
      assert forall i :: 0 <= i < |init| ==> init[i] in init;
    }
  }

  /** Goes through the selected rows, in whatever order the database returns them. */
  method Plan(opts: Settings, table: Table, rows: seq<Id>) returns (changes: seq<Change>, outcome: map<Id, Outcome>)
    requires forall id :: id in rows ==> id in table
    ensures changes == ChangesOf(opts, table, rows)
    ensures forall id :: id in outcome <==> id in rows
    ensures forall id :: id in rows ==> outcome[id] == OutcomeOf(opts, id, table[id])
  {
    changes, outcome := [], map[];
    for n := 0 to |rows|
      invariant changes == ChangesOf(opts, table, rows[..n])
      invariant forall id :: id in outcome <==> id in rows[..n]
      invariant forall id :: id in rows[..n] ==> outcome[id] == OutcomeOf(opts, id, table[id])
    {
      var id := rows[n];
      assert rows[..n + 1][..n] == rows[..n] && rows[..n + 1] == rows[..n] + [id];
      outcome := outcome[id := OutcomeOf(opts, id, table[id])];
      if outcome[id].ToReprice? {
        changes := changes + [ChangeOf(opts, id)];
      }
    }
    assert rows[..|rows|] == rows;
  }

  /** The listed ids that would not be re-priced. */
  method Unaccounted(ids: seq<Id>, outcome: map<Id, Outcome>) returns (missing: seq<Id>)
    ensures forall id :: id in missing <==> id in ids && (id !in outcome || !outcome[id].ToReprice?)
  {
    missing := [];
    for n := 0 to |ids|
      invariant forall id :: id in missing <==> id in ids[..n] && (id !in outcome || !outcome[id].ToReprice?)
    {
      assert ids[..n + 1] == ids[..n] + [ids[n]];
      if ids[n] !in outcome || !outcome[ids[n]].ToReprice? {
        missing := missing + [ids[n]];
      }
    }
    assert ids[..|ids|] == ids;
  }

  // ---------------------------------------------------------------------------------------------
  // Apply and restore, as transactions
  // ---------------------------------------------------------------------------------------------

  function Repriced(p: Pricing, c: Change, now: int): Pricing {
    var priced := p.(legacyCost := Some(Value(p.cost)), legacyRate := Some(Value(p.rate)), cost := Some(c.newCost),
        rate := Some(c.rate),
                     currency := Some("USD"), source := NetworkEstimate,
                     network := if c.network == "" then None else Some(c.network), updatedAt := now);
    if c.state == "" then priced
    else priced.(state := Some(c.state), confidence := Some(c.confidence), evidence := Some(c.evidence))
  }

  /** One line of the backup file: the charge as it was. */
  datatype Saved = Saved(id: Id, charge: Charge)

  /** Reads the rows about to be re-priced; fails when one is gone. The file is in id order; here it is in the order of
    * the changes, which makes no difference to a restore of distinct rows (PutExactly). */
  function BackupOf(table: Table, changes: seq<Change>): (r: Option<seq<Saved>>)
    ensures r.Some? <==> forall c :: c in changes ==> c.id in table
    ensures r.Some? ==> |r.value| == |changes| && forall i :: 0 <= i < |changes| ==>
            r.value[i] == Saved(changes[i].id, table[changes[i].id])
  {
    if forall c :: c in changes ==> c.id in table
    then Some(seq(|changes|, i requires 0 <= i < |changes| =>
           assert changes[i] in changes; Saved(changes[i].id, table[changes[i].id])))
    else None
  }

  class Charges {
    var rows: Table

    constructor (rows: Table)
      ensures this.rows == rows
    {
      this.rows := rows;
    }

    /** One transaction: all the changes, or none when a row is gone or has a cost source by now. */
    method Apply(changes: seq<Change>, now: int) returns (ok: bool)
      modifies this
      ensures ApplyAll(old(rows), changes, now) == if ok then Some(rows) else None
      ensures !ok ==> rows == old(rows)
    {
      var tx := rows;
      for n := 0 to |changes|
        invariant rows == old(rows) && ApplyAll(rows, changes[..n], now) == Some(tx)
      {
        var c := changes[n];
        assert changes[..n + 1][..n] == changes[..n];
        if !Ready(tx, c.id) {
          ApplyFails(rows, changes, now, n + 1);
          return false;
        }
        tx := tx[c.id := tx[c.id].(pricing := Repriced(tx[c.id].pricing, c, now))];
      }
      assert changes[..|changes|] == changes;
      rows := tx;
      return true;
    }

    /** One transaction: every saved row's pricing put back, or nothing when one is no longer re-priced. */
    method Restore(saved: seq<Saved>) returns (ok: bool)
      modifies this
      ensures Put(old(rows), saved) == if ok then Some(rows) else None
      ensures !ok ==> rows == old(rows)
    {
      var tx := rows;
      for n := 0 to |saved|
        invariant rows == old(rows) && Put(rows, saved[..n]) == Some(tx)
      {
        var r := saved[n];
        assert saved[..n + 1][..n] == saved[..n];
        if !Restorable(tx, r) {
          PutFails(rows, saved, n + 1);
          return false;
        }
        tx := tx[r.id := tx[r.id].(pricing := r.charge.pricing)];
      }
      assert saved[..|saved|] == saved;
      rows := tx;
      return true;
    }
  }

  predicate Ready(table: Table, id: Id) { id in table && table[id].pricing.source.NoSource? }

  /** The table after the changes, or None when one makes the run abort. */
  function ApplyAll(table: Table, changes: seq<Change>, now: int): Option<Table> {
    if changes == [] then Some(table)
    else
      var n := |changes| - 1;
      var t := ApplyAll(table, changes[..n], now);
      var c := changes[n];
      if t.None? || !Ready(t.value, c.id) then None
      else Some(t.value[c.id := t.value[c.id].(pricing := Repriced(t.value[c.id].pricing, c, now))])
  }

  lemma {:induction false} ApplyFails(table: Table, changes: seq<Change>, now: int, n: nat)
    requires n <= |changes| && ApplyAll(table, changes[..n], now).None?
    ensures ApplyAll(table, changes, now).None?
  {
    if n == |changes| {
      assert changes[..n] == changes;
    } else {
      assert changes[..|changes| - 1][..n] == changes[..n];
      ApplyFails(table, changes[..|changes| - 1], now, n);
    }
  }

  predicate Listed(changes: seq<Change>, id: Id) { exists i :: 0 <= i < |changes| && changes[i].id == id }

  /** Exactly the listed rows got their new price; everything else is as it was. */
  predicate AppliedTo(before: Table, after: Table, changes: seq<Change>, now: int) {
    && after.Keys == before.Keys
    && (forall i :: 0 <= i < |changes| && changes[i].id in before ==>
          after[changes[i].id] ==
              before[changes[i].id].(pricing := Repriced(before[changes[i].id].pricing, changes[i], now)))
    && (forall id :: id in before && !Listed(changes, id) ==> after[id] == before[id])
  }

  lemma NotListedYet(init: seq<Change>, c: Change)
    requires DistinctIds(init + [c])
    ensures !Listed(init, c.id) && DistinctIds(init)
  {
    var changes := init + [c];
    forall i | 0 <= i < |init| ensures init[i].id != c.id {
      assert changes[i].id != changes[|init|].id;
    }
    forall i, j | 0 <= i < j < |init| ensures init[i].id != init[j].id {
      assert changes[i].id != changes[j].id;
    }
  }

  lemma ApplyOneMore(before: Table, t: Table, init: seq<Change>, c: Change, now: int)
    requires DistinctIds(init + [c]) && AppliedTo(before, t, init, now) && c.id in before
    ensures AppliedTo(before, t[c.id := t[c.id].(pricing := Repriced(t[c.id].pricing, c, now))], init + [c], now)
  {
    NotListedYet(init, c);
    var changes := init + [c];
    assert changes[|init|] == c;
    forall id | !Listed(changes, id) ensures !Listed(init, id) && id != c.id {
      assert changes[|init|].id != id;
      forall i | 0 <= i < |init| ensures init[i].id != id {
        assert changes[i].id != id;
      }
    }
  }

  lemma {:induction false} ApplyEffect(table: Table, changes: seq<Change>, now: int)
    requires DistinctIds(changes) && ApplyAll(table, changes, now).Some?
    ensures AppliedTo(table, ApplyAll(table, changes, now).value, changes, now)
    ensures forall i :: 0 <= i < |changes| ==> Ready(table, changes[i].id)
  {
    if changes != [] {
      var n := |changes| - 1;
      var init, c := changes[..n], changes[n];
      assert changes == init + [c];
      NotListedYet(init, c);
      ApplyEffect(table, init, now);
      ApplyOneMore(table, ApplyAll(table, init, now).value, init, c, now);
      assert Ready(table, c.id) && forall i :: 0 <= i < n ==> changes[i] == init[i];
    }
  }

  lemma {:induction false} ApplySucceeds(table: Table, changes: seq<Change>, now: int)
    requires DistinctIds(changes) && forall i :: 0 <= i < |changes| ==> Ready(table, changes[i].id)
    ensures ApplyAll(table, changes, now).Some?
  {
    if changes != [] {
      var n := |changes| - 1;
      var init, c := changes[..n], changes[n];
      assert changes == init + [c] && Ready(table, c.id);
      NotListedYet(init, c);
      forall i | 0 <= i < n ensures Ready(table, init[i].id) {
        assert Ready(table, changes[i].id);
      }
      ApplySucceeds(table, init, now);
      ApplyEffect(table, init, now);
    }
  }

  /** With distinct ids, an apply succeeds exactly when no listed row is gone or has a source, and then changes
    * exactly those. */
  lemma ApplyExactly(table: Table, changes: seq<Change>, now: int)
    requires DistinctIds(changes)
    ensures ApplyAll(table, changes, now).Some? <==>
            forall i :: 0 <= i < |changes| ==>
              changes[i].id in table && table[changes[i].id].pricing.source == NoSource
    ensures ApplyAll(table, changes, now).Some? ==> AppliedTo(table, ApplyAll(table, changes, now).value, changes, now)
  {
    if ApplyAll(table, changes, now).Some? {
      ApplyEffect(table, changes, now);
    } else if forall i :: 0 <= i < |changes| ==> Ready(table, changes[i].id) {
      ApplySucceeds(table, changes, now);
    }
  }

  predicate Restorable(table: Table, r: Saved) {
    r.id in table && table[r.id].user == r.charge.user && table[r.id].pricing.source.NetworkEstimate?
  }

  /** The table after restoring, or None when a row makes the run abort. */
  function Put(table: Table, saved: seq<Saved>): Option<Table> {
    if saved == [] then Some(table)
    else
      var n := |saved| - 1;
      var t := Put(table, saved[..n]);
      if t.None? || !Restorable(t.value, saved[n]) then None
      else Some(t.value[saved[n].id := t.value[saved[n].id].(pricing := saved[n].charge.pricing)])
  }

  lemma {:induction false} PutFails(table: Table, saved: seq<Saved>, n: nat)
    requires n <= |saved| && Put(table, saved[..n]).None?
    ensures Put(table, saved).None?
  {
    if n == |saved| {
      assert saved[..n] == saved;
    } else {
      assert saved[..|saved| - 1][..n] == saved[..n];
      PutFails(table, saved[..|saved| - 1], n);
    }
  }

  // ---------------------------------------------------------------------------------------------
  // The undo
  // ---------------------------------------------------------------------------------------------

  predicate SavedDistinct(saved: seq<Saved>) { forall i, j :: 0 <= i < j < |saved| ==> saved[i].id != saved[j].id }

  /** The rows a restore writes get the saved pricing and keep their other columns; every other row stays. */
  predicate PutBack(before: Table, after: Table, saved: seq<Saved>) {
    && after.Keys == before.Keys
    && (forall i :: 0 <= i < |saved| && saved[i].id in before ==>
          after[saved[i].id] == before[saved[i].id].(pricing := saved[i].charge.pricing))
    && (forall id :: id in before && (forall i :: 0 <= i < |saved| ==> saved[i].id != id) ==> after[id] == before[id])
  }

  lemma PutSnoc(table: Table, init: seq<Saved>, r: Saved)
    requires SavedDistinct(init + [r])
    requires Put(table, init).Some? <==> forall i :: 0 <= i < |init| ==> Restorable(table, init[i])
    requires Put(table, init).Some? ==> PutBack(table, Put(table, init).value, init)
    ensures var saved := init + [r];
            && (Put(table, saved).Some? <==> forall i :: 0 <= i < |saved| ==> Restorable(table, saved[i]))
            && (Put(table, saved).Some? ==> PutBack(table, Put(table, saved).value, saved))
  {
    var saved, n := init + [r], |init|;
    assert saved[..n] == init && saved[n] == r;
    forall i | 0 <= i < n ensures init[i].id != r.id {
      assert saved[i].id != saved[n].id;
    }
    if Put(table, init).Some? {
      assert r.id in table ==> Put(table, init).value[r.id] == table[r.id];
      assert Restorable(Put(table, init).value, r) <==> Restorable(table, r);
    } else {
      var i :| 0 <= i < n && !Restorable(table, init[i]);
      assert !Restorable(table, saved[i]);
    }
  }

  /** With distinct ids, a restore succeeds exactly when every saved row is still re-priced, and then puts back
    * exactly those. */
  lemma {:induction false} PutExactly(table: Table, saved: seq<Saved>)
    requires SavedDistinct(saved)
    ensures Put(table, saved).Some? <==>
            forall i :: 0 <= i < |saved| ==>
              && saved[i].id in table && table[saved[i].id].user == saved[i].charge.user
              && table[saved[i].id].pricing.source == NetworkEstimate
    ensures Put(table, saved).Some? ==> PutBack(table, Put(table, saved).value, saved)
  {
    assert forall r :: Restorable(table, r) <==>
             r.id in table && table[r.id].user == r.charge.user && table[r.id].pricing.source == NetworkEstimate;
    if saved != [] {
      var n := |saved| - 1;
      var init, r := saved[..n], saved[n];
      assert saved == init + [r];
      PutExactly(table, init);
      PutSnoc(table, init, r);
    }
  }

  /** The table later on: the listed rows still have the price and the owner they got. */
  predicate StillPriced(applied: Table, later: Table, changes: seq<Change>) {
    forall i :: 0 <= i < |changes| && changes[i].id in applied ==>
      changes[i].id in later && later[changes[i].id].pricing == applied[changes[i].id].pricing
      && later[changes[i].id].user == applied[changes[i].id].user
  }

  predicate PricingIsBack(before: Table, later: Table, after: Table, id: Id) {
    id in before && id in later && id in after && after[id] == later[id].(pricing := before[id].pricing)
  }

  /** Apply, then restore its backup: the listed rows have their pricing back, exactly. What else was written
    * in between stays: other rows, and the other columns of the listed ones. */
  lemma RestoreUndoesApply(before: Table, later: Table, changes: seq<Change>, now: int)
    requires DistinctIds(changes) && ApplyAll(before, changes, now).Some?
    requires StillPriced(ApplyAll(before, changes, now).value, later, changes)
    ensures BackupOf(before, changes).Some?
    ensures var saved := BackupOf(before, changes).value;
            && Put(later, saved).Some? && Put(later, saved).value.Keys == later.Keys
            && (forall i :: 0 <= i < |changes| ==> PricingIsBack(before, later, Put(later, saved).value, changes[i].id))
            && (forall id :: id in later && !Listed(changes, id) ==> Put(later, saved).value[id] == later[id])
  {
    ApplyExactly(before, changes, now);
    forall c | c in changes ensures c.id in before {
      var i :| 0 <= i < |changes| && changes[i] == c;
      assert Ready(before, changes[i].id);
    }
    var saved := BackupOf(before, changes).value;
    forall i | 0 <= i < |saved| ensures Restorable(later, saved[i]) {
      assert Ready(before, changes[i].id);
    }
    PutExactly(later, saved);
  }

  /** With nothing else written between the backup and the restore, that is the original table. */
  lemma RestoreIsExactUndo(before: Table, changes: seq<Change>, now: int)
    requires DistinctIds(changes) && ApplyAll(before, changes, now).Some?
    ensures BackupOf(before, changes).Some?
    ensures Put(ApplyAll(before, changes, now).value, BackupOf(before, changes).value) == Some(before)
  {
    var applied := ApplyAll(before, changes, now).value;
    ApplyExactly(before, changes, now);
    RestoreUndoesApply(before, applied, changes, now);
    var after := Put(applied, BackupOf(before, changes).value).value;
    forall id | id in before ensures after[id] == before[id] {
      if i :| 0 <= i < |changes| && changes[i].id == id {
        assert PricingIsBack(before, applied, after, changes[i].id);
      } else {
        assert !Listed(changes, id);
      }
    }
    assert after == before;
  }

  /** Restoring the same file once more changes nothing: neither when it aborts nor when it succeeds. */
  lemma SecondRestoreChangesNothing(table: Table, saved: seq<Saved>)
    requires SavedDistinct(saved) && Put(table, saved).Some?
    ensures var once := Put(table, saved).value; Put(once, saved) == None || Put(once, saved) == Some(once)
  {
    var once := Put(table, saved).value;
    PutExactly(table, saved);
    PutExactly(once, saved);
    if Put(once, saved).Some? {
      var twice := Put(once, saved).value;
      forall id | id in once ensures twice[id] == once[id] {
        if i :| 0 <= i < |saved| && saved[i].id == id {
          assert twice[saved[i].id] == once[saved[i].id];
        }
      }
      assert twice == once;
    }
  }

  /** After a restore of an applied run's backup, or once any listed row was given another source, a restore aborts. */
  lemma RestoreRefuses(table: Table, saved: seq<Saved>, i: nat)
    requires SavedDistinct(saved) && i < |saved|
             && (saved[i].id in table ==> !table[saved[i].id].pricing.source.NetworkEstimate?)
    ensures Put(table, saved) == None
  {
    PutExactly(table, saved);
    assert !Restorable(table, saved[i]);
  }

  // ---------------------------------------------------------------------------------------------
  // The command
  // ---------------------------------------------------------------------------------------------

  /** Refused: a listed id would not be re-priced. BackupFailed: a row was gone by then. Aborted: one was gone or had
    * a source by then. */
  datatype Report = DryRun | Refused | NothingToDo | BackupFailed | Aborted | Done(saved: seq<Saved>)

  /** A charge never changes hands. */
  predicate SameOwners(table: Table, later: Table) {
    forall id :: id in table && id in later ==> table[id].user == later[id].user
  }

  /** The pricing of the listed rows at the backup is that at the apply. */
  predicate PricingHeld(atBackup: Table, atApply: Table, changes: seq<Change>) {
    forall i :: 0 <= i < |changes| && changes[i].id in atBackup && changes[i].id in atApply ==>
      atBackup[changes[i].id].pricing == atApply[changes[i].id].pricing
  }

  /** Where rows were written between the backup and the apply: restoring succeeds all the same; it puts the
    * listed rows back to their pricing at the backup, so it is an exact undo if and only if that had held. */
  lemma LateApplyUndone(atBackup: Table, atApply: Table, changes: seq<Change>, now: int)
    requires DistinctIds(changes) && SameOwners(atBackup, atApply)
    requires BackupOf(atBackup, changes).Some? && ApplyAll(atApply, changes, now).Some?
    ensures var undone := Put(ApplyAll(atApply, changes, now).value, BackupOf(atBackup, changes).value);
            && undone.Some? && undone.value.Keys == atApply.Keys
            && (forall i :: 0 <= i < |changes| ==> PricingIsBack(atBackup, atApply, undone.value, changes[i].id))
            && (forall id :: id in atApply && !Listed(changes, id) ==> undone.value[id] == atApply[id])
            && (undone.value == atApply <==> PricingHeld(atBackup, atApply, changes))
  {
    var applied, saved := ApplyAll(atApply, changes, now).value, BackupOf(atBackup, changes).value;
    ApplyExactly(atApply, changes, now);
    forall i | 0 <= i < |saved| ensures Restorable(applied, saved[i]) {
      assert changes[i] in changes && Ready(atApply, changes[i].id);
    }
    PutExactly(applied, saved);
    var undone := Put(applied, saved).value;
    forall i | 0 <= i < |changes| ensures PricingIsBack(atBackup, atApply, undone, changes[i].id) {
      assert Ready(atApply, changes[i].id) && changes[i] in changes && saved[i].id == changes[i].id;
    }
    forall id | id in atApply && !Listed(changes, id) ensures undone[id] == atApply[id] {
    }
    UndoneIffHeld(atBackup, atApply, undone, changes);
  }

  lemma UndoneIffHeld(atBackup: Table, atApply: Table, undone: Table, changes: seq<Change>)
    requires undone.Keys == atApply.Keys
    requires forall i :: 0 <= i < |changes| ==> PricingIsBack(atBackup, atApply, undone, changes[i].id)
    requires forall id :: id in atApply && !Listed(changes, id) ==> undone[id] == atApply[id]
    ensures undone == atApply <==> PricingHeld(atBackup, atApply, changes)
  {
    if undone == atApply {
      forall i | 0 <= i < |changes| ensures atBackup[changes[i].id].pricing == atApply[changes[i].id].pricing {
        assert PricingIsBack(atBackup, atApply, undone, changes[i].id);
      }
    }
    if PricingHeld(atBackup, atApply, changes) {
      forall id | id in atApply ensures undone[id] == atApply[id] {
        if i :| 0 <= i < |changes| && changes[i].id == id {
          assert PricingIsBack(atBackup, atApply, undone, changes[i].id);
        }
      }
    }
  }

  /** The run gets as far as the backup: nothing listed is missing, and something is chosen. */
  ghost predicate GoesAhead(opts: Settings, table: Table, ids: seq<Id>) {
    (forall id :: id in ids ==> Due(opts, table, ids, id)) && exists id :: Due(opts, table, ids, id)
  }

  /** Every row that was due is in the table at the backup. */
  ghost predicate Kept(opts: Settings, table: Table, ids: seq<Id>, atBackup: Table) {
    forall id :: Due(opts, table, ids, id) ==> id in atBackup
  }

  /** Every row that was due is still without a source at the apply. */
  ghost predicate Unspoiled(opts: Settings, table: Table, ids: seq<Id>, atApply: Table) {
    forall id :: Due(opts, table, ids, id) ==> id in atApply && atApply[id].pricing.source == NoSource
  }

  /** The whole command. rows: the select's rows in the database's order; others may write, so that the table is
    * atBackup when the backup is read and atApply when the transaction starts. It is done exactly when it may
    * go ahead and no chosen row was spoiled meanwhile; then exactly the chosen rows are re-priced, and the backup
    * puts them back to their pricing at the backup. Otherwise it writes nothing. */
  method Run(opts: Settings, charges: Charges, ids: seq<Id>, rows: seq<Id>, apply: bool, now: int, atBackup: Table,
      atApply: Table)
    returns (report: Report)
    requires Distinct(rows) && forall id :: id in rows <==> Selected(opts, charges.rows, ids, id)
    requires SameOwners(atBackup, atApply)
    modifies charges
    ensures report.Done? <==>
            && apply && GoesAhead(opts, old(charges.rows), ids) && Kept(opts, old(charges.rows), ids, atBackup)
            && Unspoiled(opts, old(charges.rows), ids, atApply)
    ensures report.DryRun? <==> !apply
    ensures report.Refused? <==> apply && exists id :: id in ids && !Due(opts, old(charges.rows), ids, id)
    ensures report.BackupFailed? <==>
            apply && GoesAhead(opts, old(charges.rows), ids) && !Kept(opts, old(charges.rows), ids, atBackup)
    ensures report.DryRun? || report.Refused? || report.NothingToDo? ==> charges.rows == old(charges.rows)
    ensures (report.BackupFailed? ==> charges.rows == atBackup) && (report.Aborted? ==> charges.rows == atApply)
    ensures report.Done? ==> RowsPriced(opts, old(charges.rows), atApply, charges.rows, ids, now)
    ensures report.Done? ==> Put(charges.rows, report.saved).Some?
    ensures report.Done? ==>
            RowsPutBack(opts, old(charges.rows), atBackup, atApply, Put(charges.rows, report.saved).value, ids)
  {
    var changes, missing := PlanAll(opts, charges.rows, ids, rows);
    if !apply {
      return DryRun;
    }
    if |missing| > 0 {
      return Refused;
    }
    if |changes| == 0 {
      return NothingToDo;
    }
    report := BackUpAndApply(charges, changes, now, atBackup, atApply);
    DueAreListed(opts, old(charges.rows), ids, rows, atBackup, atApply);
    if report.Done? {
      DoneMeans(opts, old(charges.rows), ids, rows, atBackup, atApply, charges.rows,
          Put(charges.rows, report.saved).value, now);
    }
  }

  predicate AllThere(table: Table, changes: seq<Change>) { forall i :: 0 <= i < |changes| ==> changes[i].id in table }

  predicate AllReady(table: Table, changes: seq<Change>) {
    forall i :: 0 <= i < |changes| ==> Ready(table, changes[i].id)
  }

  predicate BackedOut(atBackup: Table, atApply: Table, undone: Table, changes: seq<Change>) {
    && undone.Keys == atApply.Keys
    && (forall i :: 0 <= i < |changes| ==> PricingIsBack(atBackup, atApply, undone, changes[i].id))
    && (forall id :: id in atApply && !Listed(changes, id) ==> undone[id] == atApply[id])
  }

  /** The changes, and the listed ids without one. */
  method PlanAll(opts: Settings, table: Table, ids: seq<Id>, rows: seq<Id>)
      returns (changes: seq<Change>, missing: seq<Id>)
    requires Distinct(rows) && (forall id :: id in rows <==> Selected(opts, table, ids, id))
             && forall id :: id in rows ==> id in table
    ensures changes == ChangesOf(opts, table, rows) && DistinctIds(changes)
    ensures |missing| > 0 <==> exists id :: id in ids && !Due(opts, table, ids, id)
    ensures GoesAhead(opts, table, ids) <==> |missing| == 0 && |changes| > 0
  {
    ChosenAreDue(opts, table, ids);
    var outcome;
    changes, outcome := Plan(opts, table, rows);
    missing := Unaccounted(ids, outcome);
    PlanIsSound(opts, table, ids, rows);
    if |missing| > 0 {
      assert missing[0] in missing && !Chosen(opts, table, ids, missing[0]);
    } else {
      assert forall id :: id in ids ==> id !in missing && Chosen(opts, table, ids, id);
    }
  }

  /** Writes the backup, then applies. */
  method BackUpAndApply(charges: Charges, changes: seq<Change>, now: int, atBackup: Table, atApply: Table)
      returns (report: Report)
    requires DistinctIds(changes) && SameOwners(atBackup, atApply)
    modifies charges
    ensures report.Done? <==> AllThere(atBackup, changes) && AllReady(atApply, changes)
    ensures report.BackupFailed? <==> !AllThere(atBackup, changes)
    ensures report.BackupFailed? || report.Aborted? || report.Done?
    ensures (report.BackupFailed? ==> charges.rows == atBackup) && (report.Aborted? ==> charges.rows == atApply)
    ensures report.Done? ==> AppliedTo(atApply, charges.rows, changes, now) && Put(charges.rows, report.saved).Some?
    ensures report.Done? ==> BackedOut(atBackup, atApply, Put(charges.rows, report.saved).value, changes)
  {
    charges.rows := atBackup;
    var saved := BackupOf(charges.rows, changes);
    ThereIffBackup(atBackup, changes);
    if saved.None? {
      return BackupFailed;
    }
    charges.rows := atApply;
    ApplyExactly(atApply, changes, now);
    var ok := charges.Apply(changes, now);
    if !ok {
      return Aborted;
    }
    LateApplyUndone(atBackup, atApply, changes, now);
    return Done(saved.value);
  }

  lemma ThereIffBackup(table: Table, changes: seq<Change>)
    ensures AllThere(table, changes) <==> BackupOf(table, changes).Some?
  {
    if AllThere(table, changes) {
      forall c | c in changes ensures c.id in table {
        var i :| 0 <= i < |changes| && changes[i] == c;
        assert changes[i].id in table;
      }
    } else {
      var i :| 0 <= i < |changes| && changes[i].id !in table;
      assert changes[i] in changes;
    }
  }

  /** The plan holds every chosen row and only those. */
  lemma PlanIsSound(opts: Settings, table: Table, ids: seq<Id>, rows: seq<Id>)
    requires Distinct(rows) && (forall id :: id in rows <==> Selected(opts, table, ids, id))
             && forall id :: id in rows ==> id in table
    ensures var changes := ChangesOf(opts, table, rows);
            DistinctIds(changes) && (changes != [] <==> exists id :: Chosen(opts, table, ids, id))
  {
    ChangesAreChosen(opts, table, rows);
    var changes := ChangesOf(opts, table, rows);
    if changes != [] {
      assert changes[0] in changes;
      assert Chosen(opts, table, ids, changes[0].id);
    }
  }

  /** Exactly the chosen rows have their new price. */
  predicate ChosenRepriced(opts: Settings, chosen: Table, before: Table, after: Table, ids: seq<Id>, now: int) {
    && after.Keys == before.Keys
    && forall id :: id in before ==>
         if Chosen(opts, chosen, ids, id)
         then opts.find(id).Found?
             && after[id] == before[id].(pricing := Repriced(before[id].pricing, ChangeOf(opts, id), now))
         else after[id] == before[id]
  }

  /** A row as re-priced, column by column: energy times the station's rate in dollars, the station's network if it
    * has one, and the old cost and rate kept, 0 where there were none. A verdict is stored only under detection. */
  predicate Priced(opts: Settings, id: Id, was: Charge, row: Charge, now: int) {
    var (f, p) := (opts.find(id), row.pricing);
    && f.Found? && row.user == was.user && row.others == was.others && row.kw == was.kw
    && p.cost.Some? && p.cost.value == f.rate * opts.energy(id) && p.rate == Some(f.rate)
    && p.currency == Some("USD") && p.source == NetworkEstimate && p.updatedAt == now
    && p.network == (if |f.network| > 0 then Some(f.network) else None)
    && p.legacyCost == (if was.pricing.cost.Some? then was.pricing.cost else Some(0.0))
    && p.legacyRate == (if was.pricing.rate.Some? then was.pricing.rate else Some(0.0))
    && if opts.detect && |f.state| > 0
       then p.state == Some(f.state) && p.confidence == Some(f.confidence) && p.evidence == Some(f.evidence)
       else p.state == was.pricing.state && p.confidence == was.pricing.confidence
            && p.evidence == was.pricing.evidence
  }

  /** Exactly the rows that were due are priced so; the others are as they were. */
  predicate RowsPriced(opts: Settings, chosen: Table, before: Table, after: Table, ids: seq<Id>, now: int) {
    && after.Keys == before.Keys
    && forall id :: id in before ==>
         if Due(opts, chosen, ids, id) then Priced(opts, id, before[id], after[id], now)
         else after[id] == before[id]
  }

  /** The rows that were due have their pricing at the backup; the others, and all other columns, are as at the
    * apply. */
  predicate RowsPutBack(opts: Settings, chosen: Table, atBackup: Table, atApply: Table, undone: Table, ids: seq<Id>) {
    && undone.Keys == atApply.Keys
    && forall id :: id in atApply ==>
         if Due(opts, chosen, ids, id)
         then id in atBackup && undone[id].pricing == atBackup[id].pricing && undone[id].user == atApply[id].user
              && undone[id].others == atApply[id].others && undone[id].kw == atApply[id].kw
         else undone[id] == atApply[id]
  }

  lemma ChosenAreDue(opts: Settings, table: Table, ids: seq<Id>)
    ensures forall id :: Chosen(opts, table, ids, id) <==> Due(opts, table, ids, id)
  {
    forall id ensures Chosen(opts, table, ids, id) <==> Due(opts, table, ids, id) {
      ChosenIffDue(opts, table, ids, id);
    }
  }

  lemma ChosenAreBack(opts: Settings, chosen: Table, atBackup: Table, atApply: Table, undone: Table, ids: seq<Id>)
    requires ChosenPutBack(opts, chosen, atBackup, atApply, undone, ids)
    ensures RowsPutBack(opts, chosen, atBackup, atApply, undone, ids)
  {
    forall id | id in atApply && Due(opts, chosen, ids, id) ensures PricingIsBack(atBackup, atApply, undone, id) {
      ChosenIffDue(opts, chosen, ids, id);
    }
    forall id | id in atApply && !Due(opts, chosen, ids, id) ensures undone[id] == atApply[id] {
      ChosenIffDue(opts, chosen, ids, id);
    }
  }

  lemma RowIsPriced(opts: Settings, id: Id, was: Charge, now: int)
    requires opts.find(id).Found?
    ensures Priced(opts, id, was, was.(pricing := Repriced(was.pricing, ChangeOf(opts, id), now)), now)
  {
    var c, f := ChangeOf(opts, id), opts.find(id);
  }

  lemma ChosenArePriced(opts: Settings, chosen: Table, before: Table, after: Table, ids: seq<Id>, now: int)
    requires ChosenRepriced(opts, chosen, before, after, ids, now)
    ensures RowsPriced(opts, chosen, before, after, ids, now)
  {
    forall id | id in before
      ensures if Due(opts, chosen, ids, id) then Priced(opts, id, before[id], after[id], now)
              else after[id] == before[id]
    {
      ChosenIffDue(opts, chosen, ids, id);
      if Chosen(opts, chosen, ids, id) {
        RowIsPriced(opts, id, before[id], now);
      }
    }
  }

  /** The chosen rows are back to their pricing at the backup; the others are as at the apply. */
  predicate ChosenPutBack(opts: Settings, chosen: Table, atBackup: Table, atApply: Table, undone: Table, ids: seq<Id>) {
    && undone.Keys == atApply.Keys
    && forall id :: id in atApply ==>
         if Chosen(opts, chosen, ids, id) then PricingIsBack(atBackup, atApply, undone, id)
             else undone[id] == atApply[id]
  }

  lemma ChosenAreListed(opts: Settings, table: Table, ids: seq<Id>, rows: seq<Id>)
    requires Distinct(rows) && (forall id :: id in rows <==> Selected(opts, table, ids, id))
             && forall id :: id in rows ==> id in table
    ensures forall id :: Chosen(opts, table, ids, id) <==> Listed(ChangesOf(opts, table, rows), id)
  {
    ChangesAreChosen(opts, table, rows);
    var changes := ChangesOf(opts, table, rows);
    forall id ensures Chosen(opts, table, ids, id) <==> Listed(changes, id) {
      if Chosen(opts, table, ids, id) {
        var i :| 0 <= i < |changes| && changes[i] == ChangeOf(opts, id);
        assert changes[i].id == id;
      }
      if i :| 0 <= i < |changes| && changes[i].id == id {
        assert changes[i] in changes;
      }
    }
  }

  lemma DueAreListed(opts: Settings, table: Table, ids: seq<Id>, rows: seq<Id>, atBackup: Table, atApply: Table)
    requires Distinct(rows) && (forall id :: id in rows <==> Selected(opts, table, ids, id))
             && forall id :: id in rows ==> id in table
    ensures var changes := ChangesOf(opts, table, rows);
            && (Kept(opts, table, ids, atBackup) <==> AllThere(atBackup, changes))
            && (Unspoiled(opts, table, ids, atApply) <==> AllReady(atApply, changes))
  {
    ChosenAreListed(opts, table, ids, rows);
    ChosenAreDue(opts, table, ids);
    var changes := ChangesOf(opts, table, rows);
    forall i | 0 <= i < |changes| ensures Due(opts, table, ids, changes[i].id) {
      assert Listed(changes, changes[i].id);
    }
    forall id | Due(opts, table, ids, id) ensures Listed(changes, id) {
      assert Chosen(opts, table, ids, id);
    }
  }

  lemma ListedIsChosen(opts: Settings, table: Table, before: Table, after: Table, ids: seq<Id>, rows: seq<Id>, now: int)
    requires Distinct(rows) && forall id :: id in rows <==> Selected(opts, table, ids, id)
    requires (forall id :: id in rows ==> id in table) && AppliedTo(before, after, ChangesOf(opts, table, rows), now)
    ensures ChosenRepriced(opts, table, before, after, ids, now)
  {
    ChangesAreChosen(opts, table, rows);
    ChosenAreListed(opts, table, ids, rows);
    var changes := ChangesOf(opts, table, rows);
    forall id | id in before && Chosen(opts, table, ids, id)
      ensures after[id] == before[id].(pricing := Repriced(before[id].pricing, ChangeOf(opts, id), now))
    {
      var i :| 0 <= i < |changes| && changes[i] == ChangeOf(opts, id);
      assert changes[i].id == id;
    }
  }

  lemma PutBackIsChosen(opts: Settings, table: Table, atBackup: Table, atApply: Table, undone: Table, ids: seq<Id>,
      rows: seq<Id>)
    requires Distinct(rows) && forall id :: id in rows <==> Selected(opts, table, ids, id)
    requires (forall id :: id in rows ==> id in table)
             && BackedOut(atBackup, atApply, undone, ChangesOf(opts, table, rows))
    ensures ChosenPutBack(opts, table, atBackup, atApply, undone, ids)
  {
    ChosenAreListed(opts, table, ids, rows);
    var changes := ChangesOf(opts, table, rows);
    forall id | id in atApply && Chosen(opts, table, ids, id) ensures PricingIsBack(atBackup, atApply, undone, id) {
      var i :| 0 <= i < |changes| && changes[i].id == id;
      assert PricingIsBack(atBackup, atApply, undone, changes[i].id);
    }
  }

  lemma DoneMeans(opts: Settings, table: Table, ids: seq<Id>, rows: seq<Id>, atBackup: Table, atApply: Table,
      after: Table, undone: Table, now: int)
    requires Distinct(rows) && forall id :: id in rows <==> Selected(opts, table, ids, id)
    requires (forall id :: id in rows ==> id in table) && AppliedTo(atApply, after, ChangesOf(opts, table, rows), now)
    requires BackedOut(atBackup, atApply, undone, ChangesOf(opts, table, rows))
    ensures RowsPriced(opts, table, atApply, after, ids, now)
    ensures RowsPutBack(opts, table, atBackup, atApply, undone, ids)
  {
    ListedIsChosen(opts, table, atApply, after, ids, rows, now);
    ChosenArePriced(opts, table, atApply, after, ids, now);
    PutBackIsChosen(opts, table, atBackup, atApply, undone, ids, rows);
    ChosenAreBack(opts, table, atBackup, atApply, undone, ids);
  }
}
