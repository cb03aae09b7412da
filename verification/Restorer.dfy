/** The restore itself: the gate, the sample batches and the token loop, updated in place. */
module Restorer {
  import opened Options
  import opened Sets
  import opened Account
  import opened Json
  import opened Bundle
  import opened Restore

  /** The reader under the decoder: it hands out at most `left` more bytes, then fails.
    *
    * Over all its reads it has handed out the beginning of the stream, never more than the cap.
    */
  class CapReader {
    var left: int
    var source: seq<char>
    ghost const whole: seq<char>
    ghost const cap: nat
    ghost var handed: seq<char>

    constructor (source: seq<char>, left: nat)
      ensures Valid() && whole == source && cap == left && handed == []
    {
      this.source, this.left := source, left;
      whole, cap, handed := source, left, [];
    }

    ghost predicate Valid()
      reads this
    {
      handed + source == whole && |handed| + left == cap && left >= 0
    }

    /** Up to `want` bytes, the next ones of the stream. The reads end in one of two ways: tooBig, when the first
      * `cap` bytes were handed out, even if that is all there is; or nothing more, when the whole stream was, and
      * it is shorter than the cap. */
    method Read(want: nat) returns (bytes: seq<char>, tooBig: bool)
      requires Valid()
      modifies this
      ensures Valid() && handed == old(handed) + bytes && |bytes| <= want
      ensures handed <= whole && |handed| <= cap
      ensures tooBig <==> |old(handed)| == cap
      ensures tooBig ==> bytes == [] && handed == whole[..cap]
      ensures !tooBig && want > 0 && bytes == [] ==> handed == whole && |whole| < cap
    {
      if left <= 0 {
        return [], true;
      }
      var n := if want > left then left else want;
      if n > |source| {
        n := |source|;
      }
      bytes, source, tooBig := source[..n], source[n..], false;
      left, handed := left - n, handed + bytes;
    }
  }

  class RestoreGate {
    const cfg: Config
    var added: set<string>
    var skipped: nat
    var past: nat

    constructor (cfg: Config)
      ensures this.cfg == cfg && Seen() == START.gate
    {
      this.cfg := cfg;
      added, skipped, past := {}, 0, 0;
    }

    ghost function Seen(): Passed
      reads this
    {
      Passed(added, skipped, past)
    }

    /** A row with a time outside the window is counted once, however many of its times are. */
    method TimesOk(times: seq<int>) returns (ok: bool)
      modifies this`skipped
      ensures ok == InWindow(cfg, times)
      ensures skipped == old(skipped) + if ok then 0 else 1
    {
      for i := 0 to |times|
        invariant skipped == old(skipped) && InWindow(cfg, times[..i])
      {
        if times[i] < cfg.from || times[i] > cfg.to {
          assert times[i] in times;
          skipped := skipped + 1;
          return false;
        }
        assert times[..i + 1] == times[..i] + [times[i]];
      }
      assert times[..|times|] == times;
      return true;
    }

    method SampleOk(times: seq<int>) returns (ok: bool)
      modifies this`skipped, this`past
      ensures ok == (InWindow(cfg, times) && !(cfg.sampleFrom.Some? && times != [] && times[0] < cfg.sampleFrom.value))
      ensures skipped == old(skipped) + if InWindow(cfg, times) then 0 else 1
      ensures past == old(past) + if ok || !InWindow(cfg, times) then 0 else 1
    {
      var timely := TimesOk(times);
      if !timely {
        return false;
      }
      if cfg.sampleFrom.Some? && times != [] && times[0] < cfg.sampleFrom.value {
        past := past + 1;
        return false;
      }
      return true;
    }

    /** A vehicle of the account, one let in before, or one of the first five others. */
    method VehicleOk(id: string) returns (ok: bool)
      requires |added| <= MAX_NEW_VEHICLES
      modifies this`added
      ensures var now := Adding(cfg, old(added), Drives, id);
              (ok <==> |now| <= MAX_NEW_VEHICLES) && added == if ok then now else old(added)
    {
      if id in cfg.owned || id in added {
        assert added + {id} == added || id in cfg.owned;
        return true;
      }
      if |added| >= MAX_NEW_VEHICLES {
        return false;
      }
      added := added + {id};
      return true;
    }
  }

  class Restorer {
    const cfg: Config
    const gate: RestoreGate
    var batch: seq<Entry>
    var batches: seq<seq<Entry>>
    var writes: seq<Write>
    var error: Option<Failure>
    var saw: bool
    var failure: Option<Failure>

    constructor (cfg: Config)
      ensures this.cfg == cfg && fresh(gate) && Valid() && Now() == START
    {
      this.cfg := cfg;
      gate := new RestoreGate(cfg);
      batch, batches, writes, error, saw, failure := [], [], [], None, false, None;
    }

    ghost predicate Valid()
      reads this, gate
    {
      gate.cfg == cfg && |gate.added| <= MAX_NEW_VEHICLES && (failure.None? ==> error.None?)
    }

    ghost function Now(): State
      reads this, gate
    {
      State(gate.Seen(), Sink(batch, batches, writes, error), saw, failure)
    }

    /** Does the batch span at most 120 months? It gives up on the month that is one too many. */
    method CheckBatch(rows: seq<Entry>) returns (few: bool)
      ensures few == FewMonths(cfg, rows)
    {
      var months: set<int> := {};
      for i := 0 to |rows|
        invariant months == MonthsOf(cfg, rows[..i]) && |months| <= MAX_BATCH_MONTHS
      {
        MonthsUpTo(cfg, rows, i);
        months := months + MonthIn(cfg, rows[i]);
        if |months| > MAX_BATCH_MONTHS {
          return false;
        }
      }
      assert rows[..|rows|] == rows;
      return true;
    }

    /** Checks the batch, then creates its vehicles, each once, up to a row without an id. */
    method PrepareBatch(rows: seq<Entry>) returns (ok: bool)
      modifies this`writes, this`error
      ensures ok == (FewMonths(cfg, rows) && Resolve(rows).1)
      ensures writes == old(writes) + (if FewMonths(cfg, rows) then Resolve(rows).0 else [])
      ensures error == if !FewMonths(cfg, rows) then Some(TooManyMonths)
                       else if Resolve(rows).1 then old(error) else Some(NamelessVehicle)
    {
      var few := CheckBatch(rows);
      if !few {
        error := Some(TooManyMonths);
        return false;
      }
      ghost var before := writes;
      ghost var was := error;
      var known: seq<Write> := [];
      for i := 0 to |rows|
        invariant Resolve(rows[..i]) == (known, true) && writes == before + known && error == was
      {
        assert rows[..i + 1][..i] == rows[..i];
        if Vehicle(rows[i].vehicle) !in known {
          if rows[i].vehicle == "" {
            error := Some(NamelessVehicle);
            StillUnresolved(rows, i + 1);
            return false;
          }
          known := known + [Vehicle(rows[i].vehicle)];
          writes := writes + [Vehicle(rows[i].vehicle)];
        }
      }
      assert rows[..|rows|] == rows;
      return true;
    }

    /** Nothing when the batch spans too many months; else its vehicles first, each once, then its rows; nothing but
      * the vehicles so far when one has no id. */
    method InsertBulk(rows: seq<Entry>)
      modifies this`writes, this`error
      ensures var (ws, resolved) := Resolve(rows);
              if FewMonths(cfg, rows) then
                writes == old(writes) + ws + (if resolved then PutsFor(rows) else [])
                && error == if resolved then old(error) else Some(NamelessVehicle)
              else writes == old(writes) && error == Some(TooManyMonths)
    {
      var ok := PrepareBatch(rows);
      if !ok {
        return;
      }
      ghost var resolved := writes;
      for i := 0 to |rows|
        invariant writes == resolved + PutsFor(rows[..i]) && error == old(error)
      {
        assert rows[..i + 1][..i] == rows[..i];
        writes := writes + [PutOf(rows[i])];
      }
      assert rows[..|rows|] == rows;
    }

    method FlushBatch()
      requires Valid() && failure.None?
      modifies this`writes, this`error, this`batch, this`batches, this`failure
      ensures Valid() && Now() == Stored(old(Now()), Flush(cfg, old(Now()).sink))
    {
      if |batch| == 0 {
        return;
      }
      InsertBulk(batch);
      if error.None? {
        batches := batches + [batch];
        batch := [];
      } else {
        failure := error;
      }
    }

    method StoreRow(kind: Kind, e: Entry)
      requires Valid() && failure.None?
      modifies this`writes, this`error, this`batch, this`batches, this`failure
      ensures Valid() && Now() == Stored(old(Now()), Store(cfg, old(Now()).sink, kind, e))
    {
      if kind.Samples? {
        batch := batch + [e];
        if |batch| == BATCH {
          FlushBatch();
        }
      } else if kind.Drives? || kind.Charges? {
        if e.vehicle == "" {
          error, failure := Some(NamelessVehicle), Some(NamelessVehicle);
        } else {
          writes := writes + [Vehicle(e.vehicle), PutOf(e)];
        }
      } else if cfg.database {
        writes := writes + [PutOf(e)];
      }
    }

    /** Is this row to be let in, as far as its times go? */
    method Timely(kind: Kind, e: Entry) returns (timely: bool)
      requires Valid()
      modifies gate`skipped, gate`past
      ensures timely <==> Judge(cfg, kind, e) == Admit
      ensures gate.skipped == old(gate.skipped) + if Judge(cfg, kind, e) == SkipTime then 1 else 0
      ensures gate.past == old(gate.past) + if Judge(cfg, kind, e) == SkipOld then 1 else 0
    {
      if kind.Samples? {
        timely := gate.SampleOk(e.times);
      } else if kind.Drives? || kind.Charges? {
        timely := gate.TimesOk(e.times);
      } else {
        timely := true;
      }
    }

    /** A timely row: its vehicle is checked where there is one, then it is stored. */
    method Admitted(kind: Kind, e: Entry)
      requires Valid() && failure.None?
      modifies this, gate`added
      ensures Valid() && Now() == Enter(cfg, old(Now()), kind, e)
    {
      if kind.Drives? || kind.Charges? || kind.Samples? || kind.Milestones? {
        var known := gate.VehicleOk(e.vehicle);
        if !known {
          failure := Some(TooManyVehicles);
          return;
        }
      }
      StoreRow(kind, e);
    }

    /** One element of an array: decode it, check its times, let it in. */
    method TakeRow(kind: Kind, v: Value)
      requires Valid() && failure.None?
      modifies this, gate
      ensures Valid() && Now() == Step(cfg, old(Now()), Row(kind, v))
    {
      var r := cfg.decode(kind, v);
      if r.None? {
        failure := Some(BadFile);
      } else {
        var timely := Timely(kind, r.value);
        assert timely ==> Now() == old(Now());
        if timely {
          Admitted(kind, r.value);
        }
      }
    }

    /** One element of an array, with the comma before it, if any; what follows, or None when it is malformed, cut
      * off or failed. */
    method RestoreElement(kind: Kind, at: Stream, first: bool,
                          ghost scan: Scan, ghost done: seq<Event>, ghost taken: seq<Event>)
        returns (rest: Option<Stream>, ghost more: seq<Event>)
      requires Valid() && failure.None? && Now() == After(cfg, done + taken)
      requires Elements(scan, taken, kind, at, first) && !(at.Tok? && at.head == BracketClose)
      modifies this, gate
      ensures Valid() && Now() == After(cfg, done + more)
      ensures rest.Some? ==> failure.None? && Length(rest.value) < Length(at)
      ensures rest.Some? ==> Elements(scan, more, kind, rest.value, false)
      ensures rest.None? ==> Progress(scan, more, None, failure)
    {
      RowTaken(scan, taken, kind, at, first);
      var here := Skip(at, first);
      if here.None? {
        return None, taken;
      }
      var v := Json.Read(here.value);
      if v.None? {
        return None, taken;
      }
      more := taken + [Row(kind, v.value.0)];
      TakeRow(kind, v.value.0);
      OneMore(cfg, done, taken, Row(kind, v.value.0));
      rest := if failure.None? then Some(v.value.1) else None;
    }

    /** The elements of one array and its end, or null; what follows, or None when it is malformed, cut off or
      * failed. */
    method RestoreArray(kind: Kind, ts: Stream, ghost done: seq<Event>)
        returns (rest: Option<Stream>, ghost taken: seq<Event>)
      requires Valid() && failure.None? && Now() == After(cfg, done)
      modifies this, gate
      ensures Valid() && Now() == After(cfg, done + taken)
      ensures rest.Some? ==> failure.None? && Length(rest.value) < Length(ts)
      ensures Progress(ScanValue(Some(kind), ts), taken, rest, failure)
    {
      taken := [];
      assert done + taken == done;
      if ts.Tok? && ts.head == NullTok {
        EndArray(kind, done, []);
        taken := [Finished(kind)];
        rest := if failure.None? then Some(ts.tail) else None;
        return;
      }
      if ts.End? || ts.head != BracketOpen {
        return None, [];
      }
      ghost var scan := ScanValue(Some(kind), ts);
      var at, first := ts.tail, true;
      while !(at.Tok? && at.head == BracketClose)
        invariant Valid() && failure.None? && Now() == After(cfg, done + taken) && Length(at) < Length(ts)
        invariant Elements(scan, taken, kind, at, first)
        decreases Length(at)
      {
        var next: Option<Stream>;
        next, taken := RestoreElement(kind, at, first, scan, done, taken);
        if next.None? {
          return None, taken;
        }
        at, first := next.value, false;
      }
      EndArray(kind, done, taken);
      ArrayTaken(scan, taken, kind, at, first);
      taken := taken + [Finished(kind)];
      rest := if failure.None? then Some(at.tail) else None;
    }

    method SeeKey(name: string)
      requires Valid() && failure.None?
      modifies this`saw
      ensures Valid() && Now() == Step(cfg, old(Now()), Key(name))
    {
      if name == "drives" || name == "charges" || name == "samples" {
        saw := true;
      }
    }

    method EndArray(kind: Kind, ghost done: seq<Event>, ghost taken: seq<Event>)
      requires Valid() && failure.None? && Now() == After(cfg, done + taken)
      modifies this
      ensures Valid() && Now() == After(cfg, done + (taken + [Finished(kind)]))
    {
      OneMore(cfg, done, taken, Finished(kind));
      if kind.Samples? {
        FlushBatch();
      }
    }
  }

  /** Some of a scan was taken: all of it up to rest, or to the point where it fails or ends early. */
  ghost predicate Progress(scan: Scan, taken: seq<Event>, rest: Option<Stream>, failure: Option<Failure>) {
    match rest
    case Some(k) => scan == Prepend(taken, ScanFields(k, false))
    case None => taken <= scan.events && (failure.None? ==> scan == Scan(taken, false))
  }

  /** What is left of a scan, once some was taken: the elements of an array from some point on. */
  ghost predicate Elements(scan: Scan, taken: seq<Event>, kind: Kind, at: Stream, first: bool) {
    scan == Prepend(taken, ScanRows(kind, at, first))
  }

  /** The next element of an array, or the end of what can be read. */
  lemma RowTaken(scan: Scan, taken: seq<Event>, kind: Kind, at: Stream, first: bool)
    requires Elements(scan, taken, kind, at, first) && !(at.Tok? && at.head == BracketClose)
    ensures var here := Skip(at, first);
            if here.None? || Json.Read(here.value).None? then scan == Scan(taken, false)
            else var v := Json.Read(here.value).value;
                 taken + [Row(kind, v.0)] <= scan.events && Elements(scan, taken + [Row(kind, v.0)], kind, v.1, false)
  {
    var here := Skip(at, first);
    if here.Some? && Json.Read(here.value).Some? {
      var v := Json.Read(here.value).value;
      PrependTwice(taken, [Row(kind, v.0)], ScanRows(kind, v.1, false));
    }
  }

  /** The end of an array. */
  lemma ArrayTaken(scan: Scan, taken: seq<Event>, kind: Kind, at: Stream, first: bool)
    requires Elements(scan, taken, kind, at, first) && at.Tok? && at.head == BracketClose
    ensures scan == Prepend(taken + [Finished(kind)], ScanFields(at.tail, false))
  {
    PrependTwice(taken, [Finished(kind)], ScanFields(at.tail, false));
  }

  lemma OneMore(cfg: Config, done: seq<Event>, taken: seq<Event>, ev: Event)
    ensures After(cfg, done + (taken + [ev])) == Step(cfg, After(cfg, done + taken), ev)
  {
    assert done + (taken + [ev]) == done + taken + [ev];
  }

  function MonthIn(cfg: Config, e: Entry): set<int> { if e.times == [] then {} else {cfg.monthOf(e.times[0])} }

  lemma MonthsSnoc(cfg: Config, es: seq<Entry>, e: Entry)
    ensures MonthsOf(cfg, es + [e]) == MonthsOf(cfg, es) + MonthIn(cfg, e)
  {
  }

  lemma MonthsGrow(cfg: Config, es: seq<Entry>, more: seq<Entry>)
    ensures FewMonths(cfg, es + more) ==> FewMonths(cfg, es)
  {
    SubsetNoLarger(MonthsOf(cfg, es), MonthsOf(cfg, es + more));
  }

  /** The months so far with those of the next row; once they are too many, the batch has too many. */
  lemma MonthsUpTo(cfg: Config, rows: seq<Entry>, i: nat)
    requires i < |rows|
    ensures MonthsOf(cfg, rows[..i + 1]) == MonthsOf(cfg, rows[..i]) + MonthIn(cfg, rows[i])
    ensures FewMonths(cfg, rows) ==> FewMonths(cfg, rows[..i + 1])
  {
    assert rows[..i + 1] == rows[..i] + [rows[i]] && rows == rows[..i + 1] + rows[i + 1..];
    MonthsSnoc(cfg, rows[..i], rows[i]);
    MonthsGrow(cfg, rows[..i + 1], rows[i + 1..]);
  }

  lemma {:induction false} StillUnresolved(rows: seq<Entry>, i: nat)
    requires i <= |rows| && !Resolve(rows[..i]).1
    ensures Resolve(rows) == Resolve(rows[..i])
  {
    if i == |rows| {
      assert rows[..i] == rows;
    } else {
      assert rows[..|rows| - 1][..i] == rows[..i];
      StillUnresolved(rows[..|rows| - 1], i);
    }
  }

  lemma {:induction false} FailureSticks(cfg: Config, es: seq<Event>, m: nat)
    requires m <= |es| && After(cfg, es[..m]).failure.Some?
    ensures After(cfg, es) == After(cfg, es[..m])
  {
    if m == |es| {
      assert es[..m] == es;
    } else {
      assert es[..|es| - 1][..m] == es[..m];
      FailureSticks(cfg, es[..|es| - 1], m);
    }
  }

  /** What is known when the token loop stops after the events done. */
  lemma Stops(cfg: Config, scan: Scan, done: seq<Event>)
    requires done <= scan.events && (After(cfg, done).failure.None? ==> scan.events == done)
    ensures StateOf(cfg, scan) == After(cfg, done)
  {
    assert scan.events[..|done|] == done;
    if After(cfg, done).failure.Some? {
      FailureSticks(cfg, scan.events, |done|);
    } else {
      assert scan.events[..|done|] == scan.events;
    }
  }

  /** The restore of a file is its specification: same statements in the same order, same counts, same verdict. */
  method RestoreStream(cfg: Config, ts: Stream) returns (r: Restorer, result: Option<Failure>)
    ensures fresh(r) && fresh(r.gate) && r.cfg == cfg && r.Now() == StateOf(cfg, ScanObject(ts))
    ensures result == Result(StateOf(cfg, ScanObject(ts)), ScanObject(ts).complete)
  {
    ghost var scan := ScanObject(ts);
    ghost var done: seq<Event> := [];
    r := new Restorer(cfg);
    if ts.End? || ts.head != BraceOpen {
      return r, Some(BadFile);
    }
    var at, first := ts.tail, true;
    while !(at.Tok? && at.head == BraceClose)
      invariant fresh(r) && fresh(r.gate) && r.cfg == cfg && r.Valid() && r.failure.None?
      invariant r.Now() == After(cfg, done) && scan == Prepend(done, ScanFields(at, first))
      decreases Length(at)
    {
      var name := ReadName(at, first);
      if name.None? {
        Stops(cfg, scan, done);
        return r, Some(BadFile);
      }
      var (n, k) := name.value;
      r.SeeKey(n);
      PrependTwice(done, [Key(n)], ScanValue(KindOf(n), k));
      done := done + [Key(n)];
      var rest: Option<Stream>;
      if KindOf(n).None? {
        var v := Json.Read(k);
        rest := if v.None? then None else Some(v.value.1);
        if rest.None? {
          Stops(cfg, scan, done);
          return r, Some(BadFile);
        }
      } else {
        ghost var taken: seq<Event>;
        rest, taken := r.RestoreArray(KindOf(n).value, k, done);
        if rest.None? {
          Stops(cfg, scan, done + taken);
          return r, if r.failure.Some? then r.failure else Some(BadFile);
        }
        PrependTwice(done, taken, ScanFields(rest.value, false));
        done := done + taken;
      }
      at, first := rest.value, false;
    }
    Stops(cfg, scan, done);
    result := if r.saw then None else Some(NotBackup);
  }
}
