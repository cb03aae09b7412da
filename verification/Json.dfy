/** JSON texts as token streams: printing, reading a value, and that reading undoes printing.
  *
  * Strings, numbers and literals are single tokens: lexing and escaping are not modelled.
  */
module Json {
  import opened Options

  datatype Token = BraceOpen | BraceClose | BracketOpen | BracketClose | Comma | Colon
                 | Str(text: string) | Scalar(literal: string) | NullTok

  /** What is left to read. End is where the text stops, complete or cut off. */
  datatype Stream = End | Tok(head: Token, tail: Stream)

  datatype Value = Null | Text(text: string) | Literal(literal: string) | Array(items: Items) | Object(fields: Fields)

  datatype Items = NoItems | Item(head: Value, tail: Items)

  datatype Fields = NoFields | Field(name: string, value: Value, rest: Fields)

  function Length(ts: Stream): nat {
    match ts
    case End => 0
    case Tok(_, tail) => 1 + Length(tail)
  }

  // ---------------------------------------------------------------------------------------------
  // The grammar of RFC 8259, sections 4 and 5: a value's tokens, followed by k
  // ---------------------------------------------------------------------------------------------

  function Print(v: Value, k: Stream): Stream
    decreases v
  {
    match v
    case Null => Tok(NullTok, k)
    case Text(s) => Tok(Str(s), k)
    case Literal(l) => Tok(Scalar(l), k)
    case Array(items) => Tok(BracketOpen, PrintItems(items, true, Tok(BracketClose, k)))
    case Object(fields) => Tok(BraceOpen, PrintFields(fields, true, Tok(BraceClose, k)))
  }

  function Separated(first: bool, ts: Stream): Stream { if first then ts else Tok(Comma, ts) }

  function PrintItems(items: Items, first: bool, k: Stream): Stream
    decreases items
  {
    match items
    case NoItems => k
    case Item(v, tail) => Separated(first, Print(v, PrintItems(tail, false, k)))
  }

  function PrintFields(fields: Fields, first: bool, k: Stream): Stream
    decreases fields
  {
    match fields
    case NoFields => k
    case Field(name, v, rest) => Separated(first, Tok(Str(name), Tok(Colon, Print(v, PrintFields(rest, false, k)))))
  }

  // ---------------------------------------------------------------------------------------------
  // Reading one complete value: the value and what follows it, or None when malformed or cut off
  // ---------------------------------------------------------------------------------------------

  function Read(ts: Stream): (r: Option<(Value, Stream)>)
    ensures r.Some? ==> Length(r.value.1) < Length(ts)
    decreases Length(ts), 0
  {
    match ts
    case Tok(NullTok, k) => Some((Null, k))
    case Tok(Str(s), k) => Some((Text(s), k))
    case Tok(Scalar(l), k) => Some((Literal(l), k))
    case Tok(BracketOpen, k) =>
      var r := ReadItems(k, true);
      if r.None? then None else Some((Array(r.value.0), r.value.1))
    case Tok(BraceOpen, k) =>
      var r := ReadFields(k, true);
      if r.None? then None else Some((Object(r.value.0), r.value.1))
    case _ => None
  }

  /** Every element but the first follows a comma. */
  function Skip(ts: Stream, first: bool): (r: Option<Stream>)
    ensures r.Some? ==> Length(r.value) <= Length(ts)
  {
    if first then Some(ts) else if ts.Tok? && ts.head == Comma then Some(ts.tail) else None
  }

  /** The elements of an array and its closing bracket. */
  function ReadItems(ts: Stream, first: bool): (r: Option<(Items, Stream)>)
    ensures r.Some? ==> Length(r.value.1) < Length(ts)
    decreases Length(ts), 1
  {
    if ts.Tok? && ts.head == BracketClose then Some((NoItems, ts.tail))
    else
      var at := Skip(ts, first);
      if at.None? then None
      else
        var v := Read(at.value);
        if v.None? then None
        else
          var tail := ReadItems(v.value.1, false);
          if tail.None? then None else Some((Item(v.value.0, tail.value.0), tail.value.1))
  }

  /** A field's name and colon, after the comma that every field but the first needs. */
  function ReadName(ts: Stream, first: bool): (r: Option<(string, Stream)>)
    ensures r.Some? ==> Length(r.value.1) < Length(ts)
  {
    var at := Skip(ts, first);
    if at.Some? && at.value.Tok? && at.value.head.Str? && at.value.tail.Tok? && at.value.tail.head == Colon then
      assert Length(at.value.tail) == 1 + Length(at.value.tail.tail);
      Some((at.value.head.text, at.value.tail.tail))
    else None
  }

  function ReadFields(ts: Stream, first: bool): (r: Option<(Fields, Stream)>)
    ensures r.Some? ==> Length(r.value.1) < Length(ts)
    decreases Length(ts), 1
  {
    if ts.Tok? && ts.head == BraceClose then Some((NoFields, ts.tail))
    else
      var name := ReadName(ts, first);
      if name.None? then None
      else
        var v := Read(name.value.1);
        if v.None? then None
        else
          var rest := ReadFields(v.value.1, false);
          if rest.None? then None else Some((Field(name.value.0, v.value.0, rest.value.0), rest.value.1))
  }

  // ---------------------------------------------------------------------------------------------
  // Reading undoes printing
  // ---------------------------------------------------------------------------------------------

  lemma {:induction false} ReadPrint(v: Value, k: Stream)
    ensures Read(Print(v, k)) == Some((v, k))
    decreases v
  {
    match v
    case Array(items) => ReadPrintItems(items, true, k);
    case Object(fields) => ReadPrintFields(fields, true, k);
    case _ =>
  }

  lemma {:induction false} ReadPrintItems(items: Items, first: bool, k: Stream)
    ensures ReadItems(PrintItems(items, first, Tok(BracketClose, k)), first) == Some((items, k))
    decreases items
  {
    match items
    case NoItems =>
    case Item(v, tail) =>
      ReadPrint(v, PrintItems(tail, false, Tok(BracketClose, k)));
      ReadPrintItems(tail, false, k);
  }

  lemma {:induction false} ReadPrintFields(fields: Fields, first: bool, k: Stream)
    ensures ReadFields(PrintFields(fields, first, Tok(BraceClose, k)), first) == Some((fields, k))
    decreases fields
  {
    match fields
    case NoFields =>
    case Field(_, v, rest) =>
      ReadPrint(v, PrintFields(rest, false, Tok(BraceClose, k)));
      ReadPrintFields(rest, false, k);
  }

  // ---------------------------------------------------------------------------------------------
  // A text that was cut off
  // ---------------------------------------------------------------------------------------------

  /** p is ts cut off somewhere. */
  predicate CutOf(p: Stream, ts: Stream) {
    p.End? || (ts.Tok? && p.head == ts.head && CutOf(p.tail, ts.tail))
  }

  /** What reads completely from a cut text reads the same from the whole one. */
  lemma {:induction false} ReadCut(p: Stream, ts: Stream)
    requires CutOf(p, ts) && Read(p).Some?
    ensures Read(ts).Some? && Read(ts).value.0 == Read(p).value.0 && CutOf(Read(p).value.1, Read(ts).value.1)
    decreases Length(p), 0
  {
    match p.head
    case BracketOpen => ReadItemsCut(p.tail, ts.tail, true);
    case BraceOpen => ReadFieldsCut(p.tail, ts.tail, true);
    case _ =>
  }

  lemma {:induction false} ReadItemsCut(p: Stream, ts: Stream, first: bool)
    requires CutOf(p, ts) && ReadItems(p, first).Some?
    ensures ReadItems(ts, first).Some? && ReadItems(ts, first).value.0 == ReadItems(p, first).value.0
    ensures CutOf(ReadItems(p, first).value.1, ReadItems(ts, first).value.1)
    decreases Length(p), 1
  {
    if p.head != BracketClose {
      var p', ts' := Skip(p, first).value, Skip(ts, first).value;
      ReadCut(p', ts');
      ReadItemsCut(Read(p').value.1, Read(ts').value.1, false);
    }
  }

  lemma {:induction false} ReadFieldsCut(p: Stream, ts: Stream, first: bool)
    requires CutOf(p, ts) && ReadFields(p, first).Some?
    ensures ReadFields(ts, first).Some? && ReadFields(ts, first).value.0 == ReadFields(p, first).value.0
    ensures CutOf(ReadFields(p, first).value.1, ReadFields(ts, first).value.1)
    decreases Length(p), 1
  {
    if p.head != BraceClose {
      NameCut(p, ts, first);
      var p', ts' := ReadName(p, first).value.1, ReadName(ts, first).value.1;
      ReadCut(p', ts');
      ReadFieldsCut(Read(p').value.1, Read(ts').value.1, false);
    }
  }

  lemma NameCut(p: Stream, ts: Stream, first: bool)
    requires CutOf(p, ts) && ReadName(p, first).Some?
    ensures ReadName(ts, first).Some? && ReadName(ts, first).value.0 == ReadName(p, first).value.0
    ensures CutOf(ReadName(p, first).value.1, ReadName(ts, first).value.1)
  {
    var p', ts' := Skip(p, first).value, Skip(ts, first).value;
    assert CutOf(p', ts') && CutOf(p'.tail, ts'.tail);
  }
}
