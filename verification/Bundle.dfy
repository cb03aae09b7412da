/** The backup file: how it is written, how it is scanned, and that scanning finds what was written. */
module Bundle {
  import opened Json
  import opened Options

  /** The arrays a restore reads; every other key is skipped. */
  datatype Kind = Drives | Charges | Samples | SavedTrips | Recaps | Analyses | Milestones

  function KindOf(name: string): Option<Kind> {
    if name == "drives" then Some(Drives)
    else if name == "charges" then Some(Charges)
    else if name == "samples" then Some(Samples)
    else if name == "saved_trips" then Some(SavedTrips)
    else if name == "drive_recaps" then Some(Recaps)
    else if name == "drive_analyses" then Some(Analyses)
    else if name == "milestones" then Some(Milestones)
    else None
  }

  /** What a scan reports, in file order: a key, one element of an array, the end of an array. */
  datatype Event = Key(name: string) | Row(kind: Kind, value: Value) | Finished(kind: Kind)

  /** complete: the closing brace was reached; otherwise the text is malformed or cut off there. */
  datatype Scan = Scan(events: seq<Event>, complete: bool)

  function Prepend(es: seq<Event>, rest: Scan): Scan { Scan(es + rest.events, rest.complete) }

  function ScanObject(ts: Stream): Scan {
    if ts.Tok? && ts.head == BraceOpen then ScanFields(ts.tail, true) else Scan([], false)
  }

  function ScanFields(ts: Stream, first: bool): Scan
    decreases Length(ts), 0
  {
    if ts.Tok? && ts.head == BraceClose then Scan([], true)
    else
      var name := ReadName(ts, first);
      if name.None? then Scan([], false)
      else Prepend([Key(name.value.0)], ScanValue(KindOf(name.value.0), name.value.1))
  }

  function ScanValue(kind: Option<Kind>, ts: Stream): Scan
    decreases Length(ts), 1
  {
    if kind.None? then
      var v := Read(ts);
      if v.None? then Scan([], false) else ScanFields(v.value.1, false)
    else if ts.Tok? && ts.head == NullTok then Prepend([Finished(kind.value)], ScanFields(ts.tail, false))
    else if ts.Tok? && ts.head == BracketOpen then ScanRows(kind.value, ts.tail, true)
    else Scan([], false)
  }

  function ScanRows(kind: Kind, ts: Stream, first: bool): Scan
    decreases Length(ts), 0
  {
    if ts.Tok? && ts.head == BracketClose then Prepend([Finished(kind)], ScanFields(ts.tail, false))
    else
      var at := Skip(ts, first);
      if at.None? then Scan([], false)
      else
        var v := Read(at.value);
        if v.None? then Scan([], false) else Prepend([Row(kind, v.value.0)], ScanRows(kind, v.value.1, false))
  }

  // ---------------------------------------------------------------------------------------------
  // Scanning what was printed
  // ---------------------------------------------------------------------------------------------

  function RowEvents(kind: Kind, items: Items): seq<Event> {
    match items
    case NoItems => []
    case Item(v, tail) => [Row(kind, v)] + RowEvents(kind, tail)
  }

  function ValueEvents(kind: Option<Kind>, v: Value): seq<Event> {
    if kind.None? then [] else (if v.Array? then RowEvents(kind.value, v.items) else []) + [Finished(kind.value)]
  }

  function EventsOf(fields: Fields): seq<Event> {
    match fields
    case NoFields => []
    case Field(name, v, rest) => [Key(name)] + (ValueEvents(KindOf(name), v) + EventsOf(rest))
  }

  /** Every array key holds an array, or null as in an old backup without rows. */
  predicate ArraysWhereDue(fields: Fields) {
    match fields
    case NoFields => true
    case Field(name, v, rest) => (KindOf(name).Some? ==> v.Array? || v.Null?) && ArraysWhereDue(rest)
  }

  lemma {:induction false} ScanPrintedRows(kind: Kind, items: Items, first: bool, k: Stream)
    ensures ScanRows(kind, PrintItems(items, first, Tok(BracketClose, k)), first)
         == Prepend(RowEvents(kind, items) + [Finished(kind)], ScanFields(k, false))
    decreases items
  {
    match items
    case NoItems =>
    case Item(v, tail) =>
      var after := PrintItems(tail, false, Tok(BracketClose, k));
      ReadPrint(v, after);
      ScanPrintedRows(kind, tail, false, k);
      PrependTwice([Row(kind, v)], RowEvents(kind, tail) + [Finished(kind)], ScanFields(k, false));
      assert [Row(kind, v)] + (RowEvents(kind, tail) + [Finished(kind)]) == RowEvents(kind, items) + [Finished(kind)];
  }

  lemma PrependTwice(a: seq<Event>, b: seq<Event>, rest: Scan)
    ensures Prepend(a, Prepend(b, rest)) == Prepend(a + b, rest)
  {
  }

  lemma ScanPrintedValue(kind: Option<Kind>, v: Value, after: Stream)
    requires kind.Some? ==> v.Array? || v.Null?
    ensures ScanValue(kind, Print(v, after)) == Prepend(ValueEvents(kind, v), ScanFields(after, false))
  {
    if kind.None? {
      ReadPrint(v, after);
    } else if v.Array? {
      ScanPrintedRows(kind.value, v.items, true, after);
    }
  }

  /** Whatever the order of the keys, a printed object scans to exactly its keys and rows, in order. */
  lemma {:induction false} ScanPrintedFields(fields: Fields, first: bool, k: Stream)
    requires ArraysWhereDue(fields)
    ensures ScanFields(PrintFields(fields, first, Tok(BraceClose, k)), first) == Scan(EventsOf(fields), true)
    decreases fields
  {
    match fields
    case NoFields =>
    case Field(name, v, rest) =>
      ScanPrintedFields(rest, false, k);
      ScanPrintedValue(KindOf(name), v, PrintFields(rest, false, Tok(BraceClose, k)));
  }

  // ---------------------------------------------------------------------------------------------
  // A cut file scans to a prefix
  // ---------------------------------------------------------------------------------------------

  predicate Extends(whole: Scan, part: Scan) {
    part.events <= whole.events && (part.complete ==> whole == part)
  }

  lemma {:induction false} ScanFieldsCut(p: Stream, ts: Stream, first: bool)
    requires CutOf(p, ts)
    ensures Extends(ScanFields(ts, first), ScanFields(p, first))
    decreases Length(p), 0
  {
    if !(p.Tok? && p.head == BraceClose) && ReadName(p, first).Some? {
      NameCut(p, ts, first);
      ScanValueCut(KindOf(ReadName(p, first).value.0), ReadName(p, first).value.1, ReadName(ts, first).value.1);
    }
  }

  lemma {:induction false} ScanValueCut(kind: Option<Kind>, p: Stream, ts: Stream)
    requires CutOf(p, ts)
    ensures Extends(ScanValue(kind, ts), ScanValue(kind, p))
    decreases Length(p), 1
  {
    if kind.None? {
      if Read(p).Some? {
        ReadCut(p, ts);
        ScanFieldsCut(Read(p).value.1, Read(ts).value.1, false);
      }
    } else if p.Tok? && p.head == NullTok {
      ScanFieldsCut(p.tail, ts.tail, false);
    } else if p.Tok? && p.head == BracketOpen {
      ScanRowsCut(kind.value, p.tail, ts.tail, true);
    }
  }

  lemma {:induction false} ScanRowsCut(kind: Kind, p: Stream, ts: Stream, first: bool)
    requires CutOf(p, ts)
    ensures Extends(ScanRows(kind, ts, first), ScanRows(kind, p, first))
    decreases Length(p), 0
  {
    if p.Tok? && p.head == BracketClose {
      ScanFieldsCut(p.tail, ts.tail, false);
    } else if Skip(p, first).Some? && Read(Skip(p, first).value).Some? {
      var p', ts' := Skip(p, first).value, Skip(ts, first).value;
      ReadCut(p', ts');
      ScanRowsCut(kind, Read(p').value.1, Read(ts').value.1, false);
    }
  }

  /** However a file was cut off, the rows found are the first rows of the whole file; only a file that
    * was not cut before its closing brace counts as complete. */
  lemma CutFileScansToPrefix(p: Stream, ts: Stream)
    requires CutOf(p, ts)
    ensures Extends(ScanObject(ts), ScanObject(p))
  {
    if p.Tok? && p.head == BraceOpen {
      ScanFieldsCut(p.tail, ts.tail, true);
    }
  }

  // ---------------------------------------------------------------------------------------------
  // Writing a backup
  // ---------------------------------------------------------------------------------------------

  /** The rows of the arrays kept beside the three main ones; absent without a database. */
  datatype Extras = NoDatabase | Extras(trips: seq<Value>, recaps: seq<Value>, analyses: seq<Value>,
      milestones: seq<Value>)

  datatype Backup = Backup(version: Value, createdAt: Value, settings: Value, profiles: Value, omitted: Value,
                           drives: seq<Value>, charges: seq<Value>, extras: Extras, samples: seq<Value>,
                               reduced: seq<Value>)

  function ItemsOf(vs: seq<Value>): Items {
    if vs == [] then NoItems else Item(vs[0], ItemsOf(vs[1..]))
  }

  function ArrayOf(vs: seq<Value>): Value { Array(ItemsOf(vs)) }

  /** The file as an object: its fields from each point of the envelope on. */
  function Contents(b: Backup): Fields {
    Field("version", b.version, Field("created_at", b.createdAt, Field("user_settings", b.settings,
    Field("vehicle_profiles", b.profiles, Field("derived_omitted", b.omitted, RowFields(b))))))
  }

  function RowFields(b: Backup): Fields {
    Field("drives", ArrayOf(b.drives), Field("charges", ArrayOf(b.charges), WithExtras(b.extras, SampleFields(b))))
  }

  function WithExtras(x: Extras, rest: Fields): Fields {
    match x
    case NoDatabase => rest
    case Extras(trips, recaps, analyses, milestones) =>
      Field("saved_trips", ArrayOf(trips), Field("drive_recaps", ArrayOf(recaps),
      Field("drive_analyses", ArrayOf(analyses), Field("milestones", ArrayOf(milestones), rest))))
  }

  function SampleFields(b: Backup): Fields {
    Field("samples", ArrayOf(b.samples),
      if b.reduced == [] then NoFields else Field("samples_reduced_months", ArrayOf(b.reduced), NoFields))
  }

  /** The keys and values of an object, in order. */
  function Pairs(fields: Fields): seq<(string, Value)> {
    match fields
    case NoFields => []
    case Field(name, v, rest) => [(name, v)] + Pairs(rest)
  }

  function HeaderListed(b: Backup): seq<(string, Value)> {
    [("version", b.version), ("created_at", b.createdAt), ("user_settings", b.settings),
     ("vehicle_profiles", b.profiles), ("derived_omitted", b.omitted)]
  }

  function ExtrasListed(x: Extras): seq<(string, Value)> {
    match x
    case NoDatabase => []
    case Extras(trips, recaps, analyses, milestones) =>
      [("saved_trips", ArrayOf(trips)), ("drive_recaps", ArrayOf(recaps)), ("drive_analyses", ArrayOf(analyses)),
       ("milestones", ArrayOf(milestones))]
  }

  function SamplesListed(b: Backup): seq<(string, Value)> {
    [("samples", ArrayOf(b.samples))]
    + if b.reduced == [] then [] else [("samples_reduced_months", ArrayOf(b.reduced))]
  }

  /** The keys of a backup file and what is under each. */
  function Listed(b: Backup): seq<(string, Value)> {
    HeaderListed(b) + [("drives", ArrayOf(b.drives)), ("charges", ArrayOf(b.charges))]
    + (ExtrasListed(b.extras) + SamplesListed(b))
  }

  lemma PairsOfExtras(x: Extras, rest: Fields)
    ensures Pairs(WithExtras(x, rest)) == ExtrasListed(x) + Pairs(rest)
  {
    if x.Extras? {
      var last := Field("milestones", ArrayOf(x.milestones), rest);
      var third := Field("drive_analyses", ArrayOf(x.analyses), last);
      var second := Field("drive_recaps", ArrayOf(x.recaps), third);
      assert Pairs(third) == [("drive_analyses", ArrayOf(x.analyses)), ("milestones", ArrayOf(x.milestones))]
                             + Pairs(rest);
      assert Pairs(second) == [("drive_recaps", ArrayOf(x.recaps))] + Pairs(third);
    }
  }

  lemma PairsOfSamples(b: Backup)
    ensures Pairs(SampleFields(b)) == SamplesListed(b)
  {
    assert Pairs(NoFields) == [];
  }

  lemma PairsOfHeader(b: Backup)
    ensures Pairs(Contents(b)) == HeaderListed(b) + Pairs(RowFields(b))
  {
    var omitted := Field("derived_omitted", b.omitted, RowFields(b));
    var settings := Field("user_settings", b.settings, Field("vehicle_profiles", b.profiles, omitted));
    assert Pairs(omitted) == [("derived_omitted", b.omitted)] + Pairs(RowFields(b));
    assert Pairs(settings) == [("user_settings", b.settings), ("vehicle_profiles", b.profiles)] + Pairs(omitted);
  }

  lemma PairsOfContents(b: Backup)
    ensures Pairs(Contents(b)) == Listed(b)
  {
    var rest := WithExtras(b.extras, SampleFields(b));
    PairsOfSamples(b);
    PairsOfExtras(b.extras, SampleFields(b));
    PairsOfHeader(b);
    assert Pairs(RowFields(b)) == [("drives", ArrayOf(b.drives)), ("charges", ArrayOf(b.charges))] + Pairs(rest);
  }

  function Concat(a: Stream, b: Stream): Stream {
    match a
    case End => b
    case Tok(t, tail) => Tok(t, Concat(tail, b))
  }

  lemma {:induction false} ConcatAssociative(a: Stream, b: Stream, c: Stream)
    ensures Concat(Concat(a, b), c) == Concat(a, Concat(b, c))
  {
    if a.Tok? {
      ConcatAssociative(a.tail, b, c);
    }
  }

  lemma HeadingConcat(first: bool, name: string, k: Stream, l: Stream)
    ensures Concat(Separated(first, Tok(Str(name), Tok(Colon, k))), l)
         == Separated(first, Tok(Str(name), Tok(Colon, Concat(k, l))))
  {
    assert Concat(Tok(Colon, k), l) == Tok(Colon, Concat(k, l));
    assert Concat(Tok(Str(name), Tok(Colon, k)), l) == Tok(Str(name), Tok(Colon, Concat(k, l)));
  }

  lemma {:induction false} PrintConcat(v: Value, k: Stream, l: Stream)
    ensures Concat(Print(v, k), l) == Print(v, Concat(k, l))
    decreases v
  {
    match v
    case Array(items) => PrintItemsConcat(items, true, Tok(BracketClose, k), l);
    case Object(fields) => PrintFieldsConcat(fields, true, Tok(BraceClose, k), l);
    case _ =>
  }

  lemma {:induction false} PrintItemsConcat(items: Items, first: bool, k: Stream, l: Stream)
    ensures Concat(PrintItems(items, first, k), l) == PrintItems(items, first, Concat(k, l))
    decreases items
  {
    match items
    case NoItems =>
    case Item(v, tail) =>
      PrintConcat(v, PrintItems(tail, false, k), l);
      PrintItemsConcat(tail, false, k, l);
  }

  lemma {:induction false} PrintFieldsConcat(fields: Fields, first: bool, k: Stream, l: Stream)
    ensures Concat(PrintFields(fields, first, k), l) == PrintFields(fields, first, Concat(k, l))
    decreases fields
  {
    match fields
    case NoFields =>
    case Field(name, v, rest) =>
      HeadingConcat(first, name, Print(v, PrintFields(rest, false, k)), l);
      PrintConcat(v, PrintFields(rest, false, k), l);
      PrintFieldsConcat(rest, false, k, l);
  }

  const CLOSE := Tok(BraceClose, End)

  /** The output of one backup, and the text it is to become. */
  class Writer {
    var out: Stream
    ghost const text: Stream

    constructor (ghost text: Stream)
      ensures this.text == text && Owes(text)
    {
      out := End;
      this.text := text;
    }

    /** What is written, then what is owed, is the whole text. */
    ghost predicate Owes(owed: Stream)
      reads this
    {
      Concat(out, owed) == text
    }

    /** Still to write: these fields and the closing brace. */
    ghost predicate OwesFields(fields: Fields, first: bool)
      reads this
    {
      Owes(PrintFields(fields, first, CLOSE))
    }

    /** A literal piece of the envelope. */
    method WriteTokens(ts: Stream, ghost owed: Stream)
      requires Owes(Concat(ts, owed))
      modifies this
      ensures Owes(owed)
    {
      ConcatAssociative(out, ts, owed);
      out := Concat(out, ts);
    }

    /** One encoded value. */
    method Put(v: Value, ghost owed: Stream)
      requires Owes(Print(v, owed))
      modifies this
      ensures Owes(owed)
    {
      PrintConcat(v, End, owed);
      WriteTokens(Print(v, End), owed);
    }

    /** A key and its value. */
    method PutField(first: bool, name: string, v: Value, ghost rest: Fields)
      requires OwesFields(Field(name, v, rest), first)
      modifies this
      ensures OwesFields(rest, false)
    {
      ghost var owed := PrintFields(rest, false, CLOSE);
      HeadingConcat(first, name, End, Print(v, owed));
      WriteTokens(Separated(first, Tok(Str(name), Tok(Colon, End))), Print(v, owed));
      Put(v, owed);
    }

    /** A comma, a key, and an array written one element at a time. */
    method StreamArray(name: string, rows: seq<Value>, ghost rest: Fields)
      requires OwesFields(Field(name, ArrayOf(rows), rest), false)
      modifies this
      ensures OwesFields(rest, false)
    {
      ghost var owed := PrintFields(rest, false, CLOSE);
      ghost var elements := PrintItems(ItemsOf(rows), true, Tok(BracketClose, owed));
      HeadingConcat(false, name, Tok(BracketOpen, End), elements);
      assert Concat(Tok(BracketOpen, End), elements) == Tok(BracketOpen, elements);
      assert Print(ArrayOf(rows), owed) == Tok(BracketOpen, elements);
      assert PrintFields(Field(name, ArrayOf(rows), rest), false, CLOSE)
          == Tok(Comma, Tok(Str(name), Tok(Colon, Tok(BracketOpen, elements))));
      WriteTokens(Separated(false, Tok(Str(name), Tok(Colon, Tok(BracketOpen, End)))), elements);
      assert rows[0..] == rows;
      var n := 0;
      while n < |rows|
        invariant n <= |rows|
        invariant Owes(PrintItems(ItemsOf(rows[n..]), n == 0, Tok(BracketClose, owed)))
      {
        assert rows[n..][1..] == rows[n + 1..];
        ghost var later := PrintItems(ItemsOf(rows[n + 1..]), false, Tok(BracketClose, owed));
        if n > 0 {
          WriteTokens(Tok(Comma, End), Print(rows[n], later));
        }
        Put(rows[n], later);
        n := n + 1;
      }
      WriteTokens(Tok(BracketClose, End), owed);
    }

    method StreamExtras(x: Extras, ghost rest: Fields)
      requires OwesFields(WithExtras(x, rest), false)
      modifies this
      ensures OwesFields(rest, false)
    {
      match x
      case NoDatabase =>
      case Extras(trips, recaps, analyses, milestones) =>
        ghost var last := Field("milestones", ArrayOf(milestones), rest);
        ghost var third := Field("drive_analyses", ArrayOf(analyses), last);
        StreamArray("saved_trips", trips, Field("drive_recaps", ArrayOf(recaps), third));
        StreamArray("drive_recaps", recaps, third);
        StreamArray("drive_analyses", analyses, last);
        StreamArray("milestones", milestones, rest);
    }

    method PutHeader(b: Backup, ghost rest: Fields)
      requires OwesFields(Field("version", b.version,
                 Field("created_at", b.createdAt, Field("user_settings", b.settings,
                          Field("vehicle_profiles", b.profiles, Field("derived_omitted", b.omitted, rest))))), true)
      modifies this
      ensures OwesFields(rest, false)
    {
      ghost var omitted := Field("derived_omitted", b.omitted, rest);
      ghost var profiles := Field("vehicle_profiles", b.profiles, omitted);
      ghost var settings := Field("user_settings", b.settings, profiles);
      PutField(true, "version", b.version, Field("created_at", b.createdAt, settings));
      PutField(false, "created_at", b.createdAt, settings);
      PutField(false, "user_settings", b.settings, profiles);
      PutField(false, "vehicle_profiles", b.profiles, omitted);
      PutField(false, "derived_omitted", b.omitted, rest);
    }
  }

  /** The hand-written envelope is a well-formed JSON object with exactly the backup's fields. */
  method WriteBackup(b: Backup) returns (text: Stream)
    ensures text == Print(Object(Contents(b)), End) && Pairs(Contents(b)) == Listed(b)
  {
    PairsOfContents(b);
    var w := new Writer(Print(Object(Contents(b)), End));
    w.WriteTokens(Tok(BraceOpen, End), PrintFields(Contents(b), true, CLOSE));
    w.PutHeader(b, RowFields(b));
    w.StreamArray("drives", b.drives, Field("charges", ArrayOf(b.charges), WithExtras(b.extras, SampleFields(b))));
    w.StreamArray("charges", b.charges, WithExtras(b.extras, SampleFields(b)));
    w.StreamExtras(b.extras, SampleFields(b));
    ghost var reduced :=
      if b.reduced == [] then NoFields else Field("samples_reduced_months", ArrayOf(b.reduced), NoFields);
    w.StreamArray("samples", b.samples, reduced);
    if |b.reduced| > 0 {
      w.PutField(false, "samples_reduced_months", ArrayOf(b.reduced), NoFields);
    }
    w.WriteTokens(CLOSE, End);
    ConcatEnd(w.out);
    text := w.out;
  }

  lemma {:induction false} ConcatEnd(a: Stream)
    ensures Concat(a, End) == a
  {
    if a.Tok? {
      ConcatEnd(a.tail);
    }
  }
}
