/** How far a restore depends on the order of the keys in its file. */
module KeyOrder {
  import opened Options
  import opened Seqs
  import opened Sets
  import opened Sums
  import opened Account
  import opened Json
  import opened Bundle
  import opened Restore
  import opened RestoreLaws
  import opened Acceptance
  import opened Recovery
  import opened AccountRecovery

  /** Two files with the same rows under each key, and the samples in the same batches. */
  ghost predicate SameColumns(cfg: Config, p: Stream, q: Stream) {
    && ScanObject(p).complete && ScanObject(q).complete
       && (SawMain(ScanObject(p).events) <==> SawMain(ScanObject(q).events))
    && (forall kind :: ValuesIn(ScanObject(p).events, kind) == ValuesIn(ScanObject(q).events, kind))
    && BatchesIn(cfg, ScanObject(p).events).full == BatchesIn(cfg, ScanObject(q).events).full
  }

  lemma DecodableByColumns(cfg: Config, es: seq<Event>, fs: seq<Event>)
    requires Decodable(cfg, es) && forall kind :: ValuesIn(es, kind) == ValuesIn(fs, kind)
    ensures Decodable(cfg, fs)
  {
    forall kind, v | v in ValuesIn(fs, kind) ensures cfg.decode(kind, v).Some? {
      assert v in ValuesIn(es, kind);
    }
  }

  lemma NewIdsByColumns(cfg: Config, es: seq<Event>, fs: seq<Event>)
    requires forall kind :: ValuesIn(es, kind) == ValuesIn(fs, kind)
    ensures NewIds(cfg, fs) == NewIds(cfg, es)
  {
    forall id ensures id in NewIds(cfg, fs) <==> id in NewIds(cfg, es) {
      assert Unknown(cfg, fs, id) <==> Unknown(cfg, es, id);
    }
  }

  lemma SoundByColumns(cfg: Config, es: seq<Event>, fs: seq<Event>)
    requires Sound(cfg, es) && (forall kind :: ValuesIn(es, kind) == ValuesIn(fs, kind))
             && BatchesIn(cfg, es).full == BatchesIn(cfg, fs).full
    ensures Sound(cfg, fs)
  {
    DecodableByColumns(cfg, es, fs);
    NewIdsByColumns(cfg, es, fs);
  }

  /** Acceptance, and what each table gets, do not depend on the order of the keys. */
  lemma KeyOrderFree(cfg: Config, p: Stream, q: Stream, kind: Kind)
    requires WellTyped(cfg) && SameColumns(cfg, p, q) && Accepted(cfg, ScanObject(p))
    ensures Accepted(cfg, ScanObject(q))
    ensures SentTo(StateOf(cfg, ScanObject(p)).sink.writes, kind) ==
            SentTo(StateOf(cfg, ScanObject(q)).sink.writes, kind)
  {
    AcceptedIffSound(cfg, p);
    AcceptedIffSound(cfg, q);
    SoundByColumns(cfg, ScanObject(p).events, ScanObject(q).events);
    EveryTableGetsItsRows(cfg, p, kind);
    EveryTableGetsItsRows(cfg, q, kind);
  }

  /** So the account ends with the same rows, but for milestones. */
  lemma KeyOrderKeepsRows(t: Tables, cfg: Config, p: Stream, q: Stream, k: Key)
    requires WellTyped(cfg) && SameColumns(cfg, p, q) && Accepted(cfg, ScanObject(p)) && Valid(t) && !k.MilestoneKey?
    ensures Accepted(cfg, ScanObject(q))
    ensures var ws, vs := StateOf(cfg, ScanObject(p)).sink.writes, StateOf(cfg, ScanObject(q)).sink.writes;
            WritesOk(ws) && WritesOk(vs) && Get(Run(t, ws), k) == Get(Run(t, vs), k)
  {
    KeyOrderFree(cfg, p, q, TableOf(k));
    AccountAfterRestore(t, cfg, p, k);
    AccountAfterRestore(t, cfg, q, k);
  }

  // ---------------------------------------------------------------------------------------------
  // Permuting the fields of an object
  // ---------------------------------------------------------------------------------------------

  type Pair = (string, Value)

  function FieldsOf(ps: seq<Pair>): Fields {
    if ps == [] then NoFields else Field(ps[0].0, ps[0].1, FieldsOf(ps[1..]))
  }

  /** No array key occurs twice. */
  predicate DistinctArrays(ps: seq<Pair>) {
    forall i, j :: 0 <= i < j < |ps| && KindOf(ps[i].0).Some? ==> KindOf(ps[i].0) != KindOf(ps[j].0)
  }

  function Held(v: Value): seq<Value> { if v.Array? then Elements(v.items) else [] }

  lemma {:induction false} ColumnWithout(ps: seq<Pair>, kind: Kind)
    requires forall p :: p in ps ==> KindOf(p.0) != Some(kind)
    ensures Column(FieldsOf(ps), kind) == []
  {
    if ps != [] {
      assert ps[0] in ps && forall p :: p in ps[1..] ==> p in ps;
      ColumnWithout(ps[1..], kind);
    }
  }

  lemma {:induction false} ColumnWith(ps: seq<Pair>, kind: Kind, i: nat)
    requires DistinctArrays(ps) && i < |ps| && KindOf(ps[i].0) == Some(kind)
    ensures Column(FieldsOf(ps), kind) == Held(ps[i].1)
  {
    var tail := ps[1..];
    if i == 0 {
      forall p | p in tail ensures KindOf(p.0) != Some(kind) {
        var j :| 0 <= j < |tail| && tail[j] == p;
        assert ps[j + 1] == p;
      }
      ColumnWithout(tail, kind);
    } else {
      assert forall j :: 0 <= j < |tail| ==> tail[j] == ps[j + 1];
      ColumnWith(tail, kind, i - 1);
    }
  }

  /** An element that occurs twice stands at two places, and the other way round. */
  lemma TwoPlaces<T>(xs: seq<T>, x: T) returns (i: nat, j: nat)
    requires multiset(xs)[x] >= 2
    ensures i < j < |xs| && xs[i] == x && xs[j] == x
  {
    var k := SplitAt(xs, x);
    var others := xs[..k] + xs[k + 1..];
    assert x in multiset(others);
    var m :| 0 <= m < |others| && others[m] == x;
    if m < k {
      i, j := m, k;
    } else {
      i, j := k, m + 1;
    }
  }

  lemma TwiceThere<T>(xs: seq<T>, i: nat, j: nat)
    requires i < j < |xs| && xs[i] == xs[j]
    ensures multiset(xs)[xs[i]] >= 2
  {
    assert xs == xs[..j] + [xs[j]] + xs[j + 1..];
    assert multiset(xs) == multiset(xs[..j]) + multiset{xs[j]} + multiset(xs[j + 1..]);
    assert xs[..j][i] == xs[i] && xs[i] in multiset(xs[..j]);
  }

  lemma DistinctPermuted(ps: seq<Pair>, qs: seq<Pair>)
    requires multiset(ps) == multiset(qs) && DistinctArrays(ps)
    ensures DistinctArrays(qs)
  {
    forall i, j | 0 <= i < j < |qs| && KindOf(qs[i].0).Some? ensures KindOf(qs[i].0) != KindOf(qs[j].0) {
      if KindOf(qs[i].0) == KindOf(qs[j].0) {
        var a, b := TwoOfKind(ps, qs, i, j);
      }
    }
  }

  lemma TwoOfKind(ps: seq<Pair>, qs: seq<Pair>, i: nat, j: nat) returns (a: nat, b: nat)
    requires multiset(ps) == multiset(qs) && i < j < |qs| && KindOf(qs[i].0) == KindOf(qs[j].0)
    ensures a < b < |ps| && KindOf(ps[a].0) == KindOf(ps[b].0) == KindOf(qs[i].0)
  {
    if qs[i] == qs[j] {
      TwiceThere(qs, i, j);
      a, b := TwoPlaces(ps, qs[i]);
    } else {
      assert qs[i] in multiset(ps) && qs[j] in multiset(ps);
      var m :| 0 <= m < |ps| && ps[m] == qs[i];
      var n :| 0 <= n < |ps| && ps[n] == qs[j];
      a, b := if m < n then m else n, if m < n then n else m;
    }
  }

  lemma ColumnPermuted(ps: seq<Pair>, qs: seq<Pair>, kind: Kind)
    requires multiset(ps) == multiset(qs) && DistinctArrays(ps)
    ensures Column(FieldsOf(ps), kind) == Column(FieldsOf(qs), kind)
  {
    DistinctPermuted(ps, qs);
    if i :| 0 <= i < |ps| && KindOf(ps[i].0) == Some(kind) {
      assert ps[i] in multiset(qs);
      var j :| 0 <= j < |qs| && qs[j] == ps[i];
      ColumnWith(ps, kind, i);
      ColumnWith(qs, kind, j);
    } else {
      forall p | p in qs ensures KindOf(p.0) != Some(kind) {
        assert p in multiset(ps);
        assert p in ps;
      }
      ColumnWithout(ps, kind);
      ColumnWithout(qs, kind);
    }
  }

  lemma {:induction false} ArraysDue(ps: seq<Pair>)
    ensures ArraysWhereDue(FieldsOf(ps)) <==> forall p :: p in ps && KindOf(p.0).Some? ==> p.1.Array? || p.1.Null?
  {
    if ps != [] {
      assert ps == [ps[0]] + ps[1..];
      ArraysDue(ps[1..]);
    }
  }

  lemma SawAppend(es: seq<Event>, more: seq<Event>)
    ensures SawMain(es + more) <==> SawMain(es) || SawMain(more)
  {
    var all := es + more;
    if SawMain(es) {
      var i :| 0 <= i < |es| && IsMain(es[i]);
      assert all[i] == es[i];
    }
    if SawMain(more) {
      var i :| 0 <= i < |more| && IsMain(more[i]);
      assert all[|es| + i] == more[i];
    }
  }

  lemma {:induction false} NoKeyInRows(kind: Kind, items: Items)
    ensures !SawMain(RowEvents(kind, items))
    decreases items
  {
    if items.Item? {
      NoKeyInRows(kind, items.tail);
      SawAppend([Row(kind, items.head)], RowEvents(kind, items.tail));
    }
  }

  lemma NoKeyInValue(kind: Option<Kind>, v: Value)
    ensures !SawMain(ValueEvents(kind, v))
  {
    if kind.Some? {
      var rows := if v.Array? then RowEvents(kind.value, v.items) else [];
      if v.Array? {
        NoKeyInRows(kind.value, v.items);
      }
      SawAppend(rows, [Finished(kind.value)]);
    }
  }

  lemma {:induction false} SawKeys(ps: seq<Pair>)
    ensures SawMain(EventsOf(FieldsOf(ps))) <==> exists p :: p in ps && MainKey(p.0)
  {
    if ps == [] {
      assert EventsOf(FieldsOf(ps)) == [];
    } else {
      var p, tail := ps[0], ps[1..];
      var here := ValueEvents(KindOf(p.0), p.1);
      assert ps == [p] + tail;
      SawKeys(tail);
      NoKeyInValue(KindOf(p.0), p.1);
      SawAppend(here, EventsOf(FieldsOf(tail)));
      SawAppend([Key(p.0)], here + EventsOf(FieldsOf(tail)));
      assert SawMain([Key(p.0)]) <==> IsMain([Key(p.0)][0]);
    }
  }

  function TextOf(ps: seq<Pair>): Stream { Print(Object(FieldsOf(ps)), End) }

  lemma SameMembers<T>(xs: seq<T>, ys: seq<T>, x: T)
    requires multiset(xs) == multiset(ys) && x in xs
    ensures x in ys
  {
    assert x in multiset(ys);
  }

  // ---------------------------------------------------------------------------------------------
  // The batches of a permuted object
  // ---------------------------------------------------------------------------------------------

  predicate OfSamples(ev: Event) { (ev.Row? || ev.Finished?) && ev.kind.Samples? }

  predicate Sampleless(es: seq<Event>) { forall ev :: ev in es ==> !OfSamples(ev) }

  predicate SameBatches(cfg: Config, a: seq<Event>, b: seq<Event>) { BatchesIn(cfg, a) == BatchesIn(cfg, b) }

  lemma SameSnoc(cfg: Config, a: seq<Event>, b: seq<Event>, init: seq<Event>, ev: Event)
    requires SameBatches(cfg, a + init, b + init)
    ensures SameBatches(cfg, a + (init + [ev]), b + (init + [ev]))
  {
    BatchesSnoc(cfg, a + init, ev);
    BatchesSnoc(cfg, b + init, ev);
    Regroup(a, init, [ev]);
    Regroup(b, init, [ev]);
  }

  lemma {:induction false} BatchesGoOn(cfg: Config, a: seq<Event>, b: seq<Event>, es: seq<Event>)
    requires SameBatches(cfg, a, b)
    ensures SameBatches(cfg, a + es, b + es)
  {
    if es == [] {
      assert a + es == a && b + es == b;
    } else {
      var n := |es| - 1;
      assert es == es[..n] + [es[n]];
      BatchesGoOn(cfg, a, b, es[..n]);
      SameSnoc(cfg, a, b, es[..n], es[n]);
    }
  }

  lemma SamplelessSnoc(cfg: Config, a: seq<Event>, init: seq<Event>, ev: Event)
    requires SameBatches(cfg, a + init, a) && !OfSamples(ev)
    ensures SameBatches(cfg, a + (init + [ev]), a)
  {
    BatchesSnoc(cfg, a + init, ev);
    Regroup(a, init, [ev]);
  }

  /** Only the rows and the end of a samples array matter to the batches. */
  lemma {:induction false} SamplelessKeeps(cfg: Config, a: seq<Event>, es: seq<Event>)
    requires Sampleless(es)
    ensures SameBatches(cfg, a + es, a)
  {
    if es == [] {
      assert a + es == a;
    } else {
      var n := |es| - 1;
      assert es == es[..n] + [es[n]] && es[n] in es && forall x :: x in es[..n] ==> x in es;
      SamplelessKeeps(cfg, a, es[..n]);
      SamplelessSnoc(cfg, a, es[..n], es[n]);
    }
  }

  lemma {:induction false} OtherRows(kind: Kind, items: Items)
    requires !kind.Samples?
    ensures Sampleless(RowEvents(kind, items))
    decreases items
  {
    if items.Item? {
      OtherRows(kind, items.tail);
    }
  }

  lemma OtherField(p: Pair)
    requires KindOf(p.0) != Some(Samples)
    ensures Sampleless([Key(p.0)] + ValueEvents(KindOf(p.0), p.1))
  {
    if KindOf(p.0).Some? && p.1.Array? {
      OtherRows(KindOf(p.0).value, p.1.items);
    }
  }

  lemma FieldEvents(ps: seq<Pair>)
    requires ps != []
    ensures EventsOf(FieldsOf(ps)) ==
            [Key(ps[0].0)] + ValueEvents(KindOf(ps[0].0), ps[0].1) + EventsOf(FieldsOf(ps[1..]))
  {
  }

  lemma {:induction false} OtherFields(ps: seq<Pair>)
    requires forall p :: p in ps ==> KindOf(p.0) != Some(Samples)
    ensures Sampleless(EventsOf(FieldsOf(ps)))
  {
    if ps != [] {
      assert ps[0] in ps && forall p :: p in ps[1..] ==> p in ps;
      OtherField(ps[0]);
      OtherFields(ps[1..]);
      FieldEvents(ps);
    }
  }

  lemma OtherTail(ps: seq<Pair>)
    requires DistinctArrays(ps) && ps != [] && KindOf(ps[0].0) == Some(Samples)
    ensures Sampleless(EventsOf(FieldsOf(ps[1..])))
  {
    var tail := ps[1..];
    forall p | p in tail ensures KindOf(p.0) != Some(Samples) {
      var j :| 0 <= j < |tail| && tail[j] == p;
      assert ps[j + 1] == p;
    }
    OtherFields(tail);
  }

  lemma SamplesFirst(cfg: Config, a: seq<Event>, key: Event, here: seq<Event>, rest: seq<Event>)
    requires key.Key? && Sampleless(rest)
    ensures BatchesIn(cfg, a + ([key] + here + rest)) == BatchesIn(cfg, a + here)
  {
    SamplelessKeeps(cfg, a, [key]);
    BatchesGoOn(cfg, a + [key], a, here);
    SamplelessKeeps(cfg, a + [key] + here, rest);
    assert a + ([key] + here + rest) == a + [key] + here + rest;
  }

  lemma SamplesLater(cfg: Config, a: seq<Event>, field: seq<Event>, rest: seq<Event>)
    requires Sampleless(field)
    ensures BatchesIn(cfg, a + (field + rest)) == BatchesIn(cfg, a + rest)
  {
    SamplelessKeeps(cfg, a, field);
    BatchesGoOn(cfg, a + field, a, rest);
    assert a + (field + rest) == a + field + rest;
  }

  /** The batches of an object are those of its one samples array. */
  lemma {:induction false} BatchesWith(cfg: Config, a: seq<Event>, ps: seq<Pair>, i: nat)
    requires DistinctArrays(ps) && i < |ps| && KindOf(ps[i].0) == Some(Samples)
    ensures BatchesIn(cfg, a + EventsOf(FieldsOf(ps))) == BatchesIn(cfg, a + ValueEvents(Some(Samples), ps[i].1))
  {
    var p, tail := ps[0], ps[1..];
    var here, rest := ValueEvents(KindOf(p.0), p.1), EventsOf(FieldsOf(tail));
    FieldEvents(ps);
    if i == 0 {
      OtherTail(ps);
      SamplesFirst(cfg, a, Key(p.0), here, rest);
    } else {
      OtherField(p);
      SamplesLater(cfg, a, [Key(p.0)] + here, rest);
      assert forall j :: 0 <= j < |tail| ==> tail[j] == ps[j + 1];
      BatchesWith(cfg, a, tail, i - 1);
    }
  }

  lemma BatchesPermuted(cfg: Config, ps: seq<Pair>, qs: seq<Pair>)
    requires multiset(ps) == multiset(qs) && DistinctArrays(ps)
    ensures BatchesIn(cfg, EventsOf(FieldsOf(ps))) == BatchesIn(cfg, EventsOf(FieldsOf(qs)))
  {
    DistinctPermuted(ps, qs);
    assert forall es: seq<Event> :: [] + es == es;
    if i :| 0 <= i < |ps| && KindOf(ps[i].0) == Some(Samples) {
      assert ps[i] in multiset(qs);
      var j :| 0 <= j < |qs| && qs[j] == ps[i];
      BatchesWith(cfg, [], ps, i);
      BatchesWith(cfg, [], qs, j);
    } else {
      forall p | p in qs ensures KindOf(p.0) != Some(Samples) {
        SameMembers(qs, ps, p);
      }
      OtherFields(ps);
      OtherFields(qs);
      SamplelessKeeps(cfg, [], EventsOf(FieldsOf(ps)));
      SamplelessKeeps(cfg, [], EventsOf(FieldsOf(qs)));
    }
  }

  lemma ArraysPermuted(ps: seq<Pair>, qs: seq<Pair>)
    requires multiset(ps) == multiset(qs) && ArraysWhereDue(FieldsOf(ps))
    ensures ArraysWhereDue(FieldsOf(qs))
  {
    ArraysDue(ps);
    ArraysDue(qs);
    forall q | q in qs && KindOf(q.0).Some? ensures q.1.Array? || q.1.Null? {
      SameMembers(qs, ps, q);
    }
  }

  lemma SawPermuted(ps: seq<Pair>, qs: seq<Pair>)
    requires multiset(ps) == multiset(qs) && SawMain(EventsOf(FieldsOf(ps)))
    ensures SawMain(EventsOf(FieldsOf(qs)))
  {
    SawKeys(ps);
    SawKeys(qs);
    var p :| p in ps && MainKey(p.0);
    SameMembers(ps, qs, p);
  }

  lemma TextScans(ps: seq<Pair>)
    requires ArraysWhereDue(FieldsOf(ps))
    ensures ScanObject(TextOf(ps)) == Scan(EventsOf(FieldsOf(ps)), true)
  {
    ScanPrintedFields(FieldsOf(ps), true, End);
  }

  lemma ValuesPermuted(ps: seq<Pair>, qs: seq<Pair>, kind: Kind)
    requires multiset(ps) == multiset(qs) && DistinctArrays(ps)
    ensures ValuesIn(EventsOf(FieldsOf(ps)), kind) == ValuesIn(EventsOf(FieldsOf(qs)), kind)
  {
    ColumnPermuted(ps, qs, kind);
    ValuesOfFields(FieldsOf(ps), kind);
    ValuesOfFields(FieldsOf(qs), kind);
  }

  /** Writing the fields of an object in another order keeps the rows under each key, and the batches. */
  lemma PermutedFields(cfg: Config, ps: seq<Pair>, qs: seq<Pair>)
    requires multiset(ps) == multiset(qs) && DistinctArrays(ps) && ArraysWhereDue(FieldsOf(ps))
    ensures SameColumns(cfg, TextOf(ps), TextOf(qs))
  {
    ArraysPermuted(ps, qs);
    TextScans(ps);
    TextScans(qs);
    if SawMain(EventsOf(FieldsOf(ps))) {
      SawPermuted(ps, qs);
    }
    if SawMain(EventsOf(FieldsOf(qs))) {
      SawPermuted(qs, ps);
    }
    forall kind ensures ValuesIn(ScanObject(TextOf(ps)).events, kind) == ValuesIn(ScanObject(TextOf(qs)).events, kind) {
      ValuesPermuted(ps, qs, kind);
    }
    BatchesPermuted(cfg, ps, qs);
  }
}
