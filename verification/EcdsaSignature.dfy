/** An ECDSA signature from its DER form (ITU-T X.690, sections 8.1.3 and 8.3) to the fixed form of JSON Web
  * Signatures (RFC 7518, section 3.4): R and S, 32 big-endian bytes each.
  */
module EcdsaSignature {
  import opened Options

  type Byte = b: int | 0 <= b < 256

  const SEQUENCE: Byte := 0x30
  const INTEGER: Byte := 0x02

  function Power(n: nat): nat { if n == 0 then 1 else 256 * Power(n - 1) }

  /** What big-endian bytes mean. */
  function Value(bs: seq<Byte>): nat {
    if bs == [] then 0 else Value(bs[..|bs| - 1]) * 256 + bs[|bs| - 1]
  }

  // ---------------------------------------------------------------------------------------------
  // The two encodings
  // ---------------------------------------------------------------------------------------------

  /** v on exactly n big-endian bytes (its low n bytes). */
  function Fixed(v: nat, n: nat): (bs: seq<Byte>)
    ensures |bs| == n
  {
    if n == 0 then [] else Fixed(v / 256, n - 1) + [v % 256]
  }

  /** v on as few bytes as it takes, at least one. */
  function Digits(v: nat): (bs: seq<Byte>)
    ensures |bs| > 0 && (v > 0 ==> bs[0] != 0)
  {
    if v < 256 then [v] else Digits(v / 256) + [v % 256]
  }

  /** The contents of a DER INTEGER: two's complement, so a leading zero where the first bit is set. */
  function Contents(v: nat): seq<Byte> {
    if Digits(v)[0] >= 128 then [0] + Digits(v) else Digits(v)
  }

  function DerInteger(v: nat): seq<Byte>
    requires |Contents(v)| < 128
  {
    [0x02, |Contents(v)|] + Contents(v)
  }

  /** SEQUENCE { INTEGER r, INTEGER s }, with a short length. */
  function Der(r: nat, s: nat): seq<Byte>
    requires |Contents(r)| + |Contents(s)| + 4 < 128
  {
    [0x30, |Contents(r)| + |Contents(s)| + 4] + DerInteger(r) + DerInteger(s)
  }

  // ---------------------------------------------------------------------------------------------
  // The conversion
  // ---------------------------------------------------------------------------------------------

  function Stripped(bs: seq<Byte>): seq<Byte> {
    if bs != [] && bs[0] == 0 then Stripped(bs[1..]) else bs
  }

  function Zeros(n: int): (bs: seq<Byte>)
    ensures |bs| == if n < 0 then 0 else n
    ensures forall i :: 0 <= i < |bs| ==> bs[i] == 0
  {
    if n <= 0 then [] else Zeros(n - 1) + [0]
  }

  /** Padded to 32 bytes; a longer value is left as it is. */
  function Justified(bs: seq<Byte>): seq<Byte> { Zeros(32 - |bs|) + bs }

  function Slice(bs: seq<Byte>, from: nat, to: nat): seq<Byte>
    requires from <= to
  {
    if from >= |bs| then [] else if to > |bs| then bs[from..] else bs[from..to]
  }

  /** The contents of the integer at i, and where the next one starts; None where the script fails. */
  function ReadInteger(der: seq<Byte>, i: nat): Option<(seq<Byte>, nat)> {
    if i + 1 >= |der| || der[i] != INTEGER then None
    else Some((Slice(der, i + 2, i + 2 + der[i + 1]), i + 2 + der[i + 1]))
  }

  /** The next n integers from i on, each on 32 bytes. */
  function Integers(der: seq<Byte>, i: nat, n: nat): Option<seq<Byte>>
    decreases n
  {
    if n == 0 then Some([])
    else
      var here := ReadInteger(der, i);
      if here.None? then None
      else
        var rest := Integers(der, here.value.1, n - 1);
        if rest.None? then None else Some(Justified(Stripped(here.value.0)) + rest.value)
  }

  function Raw(der: seq<Byte>): Option<seq<Byte>> {
    if |der| < 2 || der[0] != SEQUENCE then None
    else Integers(der, if der[1] < 0x80 then 2 else 2 + (der[1] - 0x80), 2)
  }

  function Joined(out: seq<Byte>, rest: Option<seq<Byte>>): Option<seq<Byte>> {
    if rest.None? then None else Some(out + rest.value)
  }

  lemma JoinedTwice(a: seq<Byte>, b: seq<Byte>, rest: Option<seq<Byte>>)
    ensures Joined(a, Joined(b, rest)) == Joined(a + b, rest)
  {
    if rest.Some? {
      assert a + (b + rest.value) == a + b + rest.value;
    }
  }

  lemma JoinedNothing(rest: Option<seq<Byte>>)
    ensures Joined([], rest) == rest
  {
    assert rest.Some? ==> [] + rest.value == rest.value;
  }

  lemma IntegersStep(der: seq<Byte>, i: nat, n: nat, whole: Option<seq<Byte>>, out: seq<Byte>)
    requires n > 0 && whole == Joined(out, Integers(der, i, n))
    ensures ReadInteger(der, i).None? ==> whole == None
    ensures ReadInteger(der, i).Some? ==>
              var here := ReadInteger(der, i).value;
              whole == Joined(out + Justified(Stripped(here.0)), Integers(der, here.1, n - 1))
  {
    if ReadInteger(der, i).Some? {
      var here := ReadInteger(der, i).value;
      JoinedTwice(out, Justified(Stripped(here.0)), Integers(der, here.1, n - 1));
    }
  }

  lemma IntegersEnd(der: seq<Byte>, i: nat, out: seq<Byte>)
    ensures Joined(out, Integers(der, i, 0)) == Some(out)
  {
    assert out + [] == out;
  }

  /** An integer starts at i: its tag and its length are there, whether or not all of its bytes are. */
  predicate IntegerAt(der: seq<Byte>, i: nat) { i + 1 < |der| && der[i] == 0x02 }

  /** A sequence in which, after its length on one byte or on more, one integer follows another. */
  predicate TwoStart(der: seq<Byte>) {
    && |der| >= 2 && der[0] == 0x30
    && var i: nat := if der[1] < 128 then 2 else 2 + (der[1] - 128);
       IntegerAt(der, i) && IntegerAt(der, i + 2 + der[i + 1])
  }

  /** The script fails exactly when two integers do not start where they should. */
  lemma RawIffTwoStart(der: seq<Byte>)
    ensures Raw(der).Some? <==> TwoStart(der)
  {
    if |der| >= 2 && der[0] == SEQUENCE {
      var i: nat := if der[1] < 0x80 then 2 else 2 + (der[1] - 0x80);
      if IntegerAt(der, i) {
        var j := i + 2 + der[i + 1];
        assert ReadInteger(der, i).Some? && ReadInteger(der, i).value.1 == j;
        assert Integers(der, j, 1).Some? <==> ReadInteger(der, j).Some?;
      }
    }
  }

  method NextInteger(der: seq<Byte>, i: nat) returns (here: Option<(seq<Byte>, nat)>)
    ensures here == ReadInteger(der, i)
  {
    if i >= |der| || der[i] != INTEGER || i + 1 >= |der| {
      return None;
    }
    var len := der[i + 1];
    return Some((Slice(der, i + 2, i + 2 + len), i + 2 + len));
  }

  method DerToRaw(der: seq<Byte>) returns (raw: Option<seq<Byte>>)
    ensures raw == Raw(der)
  {
    if |der| < 2 || der[0] != SEQUENCE {
      return None;
    }
    var i: nat := if der[1] < 0x80 then 2 else 2 + (der[1] - 0x80);
    var out: seq<Byte> := [];
    ghost var whole := Raw(der);
    JoinedNothing(Integers(der, i, 2));
    for n := 0 to 2
      invariant whole == Joined(out, Integers(der, i, 2 - n))
    {
      IntegersStep(der, i, 2 - n, whole, out);
      var here := NextInteger(der, i);
      if here.None? {
        return None;
      }
      out, i := out + Justified(Stripped(here.value.0)), here.value.1;
    }
    IntegersEnd(der, i, out);
    return Some(out);
  }

  // ---------------------------------------------------------------------------------------------
  // Faithful
  // ---------------------------------------------------------------------------------------------

  lemma {:induction false} DigitsFit(v: nat, n: nat)
    requires n > 0 && v < Power(n)
    ensures |Digits(v)| <= n
  {
    if v >= 256 {
      DigitsFit(v / 256, n - 1);
    }
  }

  lemma {:induction false} FixedZero(n: nat)
    ensures Fixed(0, n) == Zeros(n)
  {
    if n > 0 {
      FixedZero(n - 1);
    }
  }

  /** The digits, padded, are the fixed form. */
  lemma {:induction false} PaddedDigits(v: nat, n: nat)
    requires |Digits(v)| <= n
    ensures Zeros(n - |Digits(v)|) + Digits(v) == Fixed(v, n)
  {
    if v < 256 {
      FixedZero(n - 1);
    } else {
      PaddedDigits(v / 256, n - 1);
    }
  }

  lemma ContentsJustified(v: nat)
    requires v < Power(32)
    ensures Justified(Stripped(Contents(v))) == Fixed(v, 32) && |Contents(v)| <= 33
  {
    DigitsFit(v, 32);
    if v == 0 {
      FixedZero(32);
      assert Zeros(32) + [] == Zeros(32);
    } else {
      PaddedDigits(v, 32);
    }
  }

  lemma SliceMiddle(a: seq<Byte>, b: seq<Byte>, c: seq<Byte>)
    ensures Slice(a + b + c, |a|, |a| + |b|) == b
  {
  }

  lemma ReadWritten(before: seq<Byte>, contents: seq<Byte>, after: seq<Byte>, n: Byte)
    requires |contents| == n
    ensures ReadInteger(before + [INTEGER, n] + contents + after, |before|) ==
            Some((contents, |before| + 2 + |contents|))
  {
    var der := before + [INTEGER, n] + contents + after;
    assert der[|before|] == INTEGER && der[|before| + 1] == n;
    SliceMiddle(before + [INTEGER, n], contents, after);
  }

  /** For all R and S below 2^256, the DER form converts to R and S on 32 bytes each. */
  lemma DerConvertsToFixed(r: nat, s: nat)
    requires r < Power(32) && s < Power(32)
    ensures |Contents(r)| <= 33 && |Contents(s)| <= 33
    ensures Raw(Der(r, s)) == Some(Fixed(r, 32) + Fixed(s, 32))
  {
    ContentsJustified(r);
    ContentsJustified(s);
    RawOfDer(r, s);
  }

  /** The tag of a sequence and its length in the short form, or in the long form with any number of bytes. */
  predicate SequenceHead(head: seq<Byte>) {
    |head| >= 2 && head[0] == 0x30 && |head| == if head[1] < 128 then 2 else 2 + (head[1] - 128)
  }

  /** The same after any length, in the short or the long form: the script does not look at its value. */
  lemma AnyLengthConverts(head: seq<Byte>, r: nat, s: nat)
    requires SequenceHead(head) && r < Power(32) && s < Power(32)
    ensures |Contents(r)| <= 33 && |Contents(s)| <= 33
    ensures Raw(head + DerInteger(r) + DerInteger(s)) == Some(Fixed(r, 32) + Fixed(s, 32))
  {
    ContentsJustified(r);
    ContentsJustified(s);
    ReadBoth(head, Contents(r), Contents(s), |Contents(r)|, |Contents(s)|);
  }

  lemma RawOfDer(r: nat, s: nat)
    requires |Contents(r)| <= 33 && |Contents(s)| <= 33
    ensures Raw(Der(r, s)) == Some(Justified(Stripped(Contents(r))) + Justified(Stripped(Contents(s))))
  {
    var t: Byte := |Contents(r)| + |Contents(s)| + 4;
    ReadBoth([SEQUENCE, t], Contents(r), Contents(s), |Contents(r)|, |Contents(s)|);
  }

  lemma ReadBoth(head: seq<Byte>, cr: seq<Byte>, cs: seq<Byte>, m: Byte, n: Byte)
    requires |cr| == m && |cs| == n && SequenceHead(head)
    ensures Raw(head + ([INTEGER, m] + cr) + ([INTEGER, n] + cs)) ==
            Some(Justified(Stripped(cr)) + Justified(Stripped(cs)))
  {
    var der := head + ([INTEGER, m] + cr) + ([INTEGER, n] + cs);
    assert der == head + [INTEGER, m] + cr + ([INTEGER, n] + cs);
    ReadWritten(head, cr, [INTEGER, n] + cs, m);
    var first := head + ([INTEGER, m] + cr);
    assert der == first + [INTEGER, n] + cs + [];
    ReadWritten(first, cs, [], n);
    var h := |head|;
    assert der[0] == head[0] && der[1] == head[1];
    TwoIntegers(der, h, cr, h + 2 + |cr|, cs, h + 4 + |cr| + |cs|);
  }

  lemma TwoIntegers(der: seq<Byte>, i: nat, cr: seq<Byte>, j: nat, cs: seq<Byte>, k: nat)
    requires ReadInteger(der, i) == Some((cr, j)) && ReadInteger(der, j) == Some((cs, k))
    ensures Integers(der, i, 2) == Some(Justified(Stripped(cr)) + Justified(Stripped(cs)))
  {
    assert Integers(der, k, 0) == Some([]);
    assert Justified(Stripped(cs)) + [] == Justified(Stripped(cs));
    assert Integers(der, j, 1) == Some(Justified(Stripped(cs)));
  }

  lemma {:induction false} FixedMeans(v: nat, n: nat)
    requires v < Power(n)
    ensures Value(Fixed(v, n)) == v
  {
    if n > 0 {
      FixedMeans(v / 256, n - 1);
      assert Fixed(v, n)[..n - 1] == Fixed(v / 256, n - 1);
    }
  }

  /** The 64 bytes give back R and S, so two signatures never convert to the same bytes. */
  lemma RawDetermines(r: nat, s: nat, r': nat, s': nat)
    requires r < Power(32) && s < Power(32) && r' < Power(32) && s' < Power(32)
    requires |Contents(r)| <= 33 && |Contents(s)| <= 33 && |Contents(r')| <= 33 && |Contents(s')| <= 33
    ensures Raw(Der(r, s)).Some? && |Raw(Der(r, s)).value| == 64
    ensures Value(Raw(Der(r, s)).value[..32]) == r && Value(Raw(Der(r, s)).value[32..]) == s
    ensures Raw(Der(r, s)) == Raw(Der(r', s')) <==> r == r' && s == s'
  {
    DerConvertsToFixed(r, s);
    DerConvertsToFixed(r', s');
    FixedMeans(r, 32);
    FixedMeans(s, 32);
    FixedMeans(r', 32);
    FixedMeans(s', 32);
    assert (Fixed(r, 32) + Fixed(s, 32))[..32] == Fixed(r, 32) && (Fixed(r, 32) + Fixed(s, 32))[32..] == Fixed(s, 32);
    assert (Fixed(r', 32) + Fixed(s', 32))[..32] == Fixed(r', 32)
           && (Fixed(r', 32) + Fixed(s', 32))[32..] == Fixed(s', 32);
  }
}
