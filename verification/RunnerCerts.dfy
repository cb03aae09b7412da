/** Choosing the signing certificates to revoke from a list of serial suffixes: all of them, or none. */
module RunnerCerts {
  import opened Options
  import opened Sets

  const SWEEP_NAME := "Created via API"
  const SWEEP_MIN_AGE := 2 * 3600
  const DEV_TYPES := {"DEVELOPMENT", "IOS_DEVELOPMENT"}

  datatype Cert = Cert(id: string, serial: string, kind: string, name: string, notBefore: Option<int>)

  /** Why a suffix is refused. */
  datatype Problem = BadSuffix(suffix: string) | NotOne(suffix: string, matches: nat) | NotOurs(suffix: string)
                   | TooYoung(suffix: string) | SameTwice

  predicate Hex(c: char) { '0' <= c <= '9' || 'A' <= c <= 'F' }

  function LeftStripped(s: string, c: char): string {
    if s != [] && s[0] == c then LeftStripped(s[1..], c) else s
  }

  /** How a text is trimmed of white space and put in upper case. */
  datatype Cleaning = Cleaning(trim: string -> string, upper: string -> string)

  /** A serial, trimmed, in upper case, without leading zeros. */
  function Norm(clean: Cleaning, serial: string): string { LeftStripped(clean.upper(clean.trim(serial)), '0') }

  const ELLIPSIS: char := '\U{2026}'

  /** A suffix as it is looked for: trimmed, without a leading ellipsis, in upper case. */
  function Tidied(clean: Cleaning, suffix: string): string { clean.upper(LeftStripped(clean.trim(suffix), ELLIPSIS)) }

  predicate EndsWith(s: string, suffix: string) { |suffix| <= |s| && s[|s| - |suffix|..] == suffix }

  predicate WellFormed(suffix: string) { |suffix| >= 6 && forall i :: 0 <= i < |suffix| ==> Hex(suffix[i]) }

  predicate Matches(clean: Cleaning, c: Cert, suffix: string) { EndsWith(Norm(clean, c.serial), suffix) }

  predicate Revocable(c: Cert, now: int) {
    c.kind in DEV_TYPES && c.name == SWEEP_NAME && c.notBefore.Some? && now - c.notBefore.value >= SWEEP_MIN_AGE
  }

  /** The indices of the certificates that match. */
  function Hits(clean: Cleaning, certs: seq<Cert>, suffix: string): (hits: seq<nat>)
    ensures forall h: nat :: h in hits <==> h < |certs| && Matches(clean, certs[h], suffix)
  {
    if certs == [] then []
    else
      var n := |certs| - 1;
      var rest := Hits(clean, certs[..n], suffix);
      assert forall h: nat :: h < n ==> certs[..n][h] == certs[h];
      if Matches(clean, certs[n], suffix) then rest + [n] else rest
  }

  /** A suffix, tidied, that names one certificate, and one that may be revoked. */
  ghost predicate Names(clean: Cleaning, certs: seq<Cert>, now: int, given: string, k: nat) {
    var suffix := Tidied(clean, given);
    && WellFormed(suffix) && k < |certs| && Matches(clean, certs[k], suffix) && Revocable(certs[k], now)
    && forall h :: 0 <= h < |certs| && Matches(clean, certs[h], suffix) ==> h == k
  }

  ghost predicate NamesNone(clean: Cleaning, certs: seq<Cert>, now: int, given: string) {
    forall k :: !Names(clean, certs, now, given, k)
  }

  // ---------------------------------------------------------------------------------------------
  // What it is to be named, in terms of the texts
  // ---------------------------------------------------------------------------------------------

  /** s is some number of c, then rest, which does not start with another. */
  ghost predicate StripsTo(s: string, c: char, rest: string) {
    && (rest != [] ==> rest[0] != c)
    && exists front: string :: s == front + rest && forall i :: 0 <= i < |front| ==> front[i] == c
  }

  lemma StripsCons(s: string, c: char, rest: string)
    requires StripsTo(s, c, rest)
    ensures StripsTo([c] + s, c, rest)
  {
    var front: string :| s == front + rest && forall i :: 0 <= i < |front| ==> front[i] == c;
    assert [c] + s == ([c] + front) + rest;
  }

  lemma {:induction false} StripsToStripped(s: string, c: char)
    ensures StripsTo(s, c, LeftStripped(s, c))
  {
    if s != [] && s[0] == c {
      StripsToStripped(s[1..], c);
      StripsCons(s[1..], c, LeftStripped(s[1..], c));
      assert s == [c] + s[1..];
    } else {
      assert s == [] + s;
    }
  }

  lemma {:induction false} StrippedOnce(s: string, c: char, rest: string)
    requires StripsTo(s, c, rest)
    ensures rest == LeftStripped(s, c)
  {
    var front: string :| s == front + rest && forall i :: 0 <= i < |front| ==> front[i] == c;
    if front != [] {
      assert s[1..] == front[1..] + rest;
      StrippedOnce(s[1..], c, rest);
    } else {
      assert s == rest;
    }
  }

  /** A serial, in upper case, trimmed and without leading zeros, is some text followed by the suffix. */
  ghost predicate SerialEnds(clean: Cleaning, serial: string, suffix: string) {
    exists front: string :: StripsTo(clean.upper(clean.trim(serial)), '0', front + suffix)
  }

  lemma MatchesIffEnds(clean: Cleaning, c: Cert, suffix: string)
    ensures Matches(clean, c, suffix) <==> SerialEnds(clean, c.serial, suffix)
  {
    var norm := Norm(clean, c.serial);
    StripsToStripped(clean.upper(clean.trim(c.serial)), '0');
    if Matches(clean, c, suffix) {
      assert norm == norm[..|norm| - |suffix|] + suffix;
    }
    if front: string :| StripsTo(clean.upper(clean.trim(c.serial)), '0', front + suffix) {
      StrippedOnce(clean.upper(clean.trim(c.serial)), '0', front + suffix);
    }
  }

  /** At least six hexadecimal digits, in upper case. */
  predicate SixDigits(s: string) {
    |s| >= 6 && forall i :: 0 <= i < |s| ==> s[i] in "0123456789ABCDEF"
  }

  /** A development certificate made through the API, at least two hours ago. */
  predicate MayGo(c: Cert, now: int) {
    && (c.kind == "DEVELOPMENT" || c.kind == "IOS_DEVELOPMENT") && c.name == "Created via API"
    && c.notBefore.Some? && c.notBefore.value <= now - 7200
  }

  /** The given text, trimmed and without leading ellipses, in upper case, is the suffix looked for. */
  ghost predicate Given(clean: Cleaning, given: string, suffix: string) {
    exists rest: string :: StripsTo(clean.trim(given), '\U{2026}', rest) && suffix == clean.upper(rest)
  }

  /** Certificate k, and no other, has a serial that ends so, and may go. */
  ghost predicate OnlyEnding(clean: Cleaning, certs: seq<Cert>, now: int, suffix: string, k: nat) {
    && SixDigits(suffix) && k < |certs| && MayGo(certs[k], now)
    && forall h :: 0 <= h < |certs| ==> (SerialEnds(clean, certs[h].serial, suffix) <==> h == k)
  }

  lemma GivenIsTidied(clean: Cleaning, given: string, suffix: string)
    ensures Given(clean, given, suffix) <==> suffix == Tidied(clean, given)
  {
    StripsToStripped(clean.trim(given), ELLIPSIS);
    if rest: string :| StripsTo(clean.trim(given), ELLIPSIS, rest) && suffix == clean.upper(rest) {
      StrippedOnce(clean.trim(given), ELLIPSIS, rest);
    }
  }

  lemma SixDigitsIff(s: string)
    ensures WellFormed(s) <==> SixDigits(s)
  {
    assert forall c: char :: Hex(c) <==> c in "0123456789ABCDEF" by {
      forall c: char ensures Hex(c) <==> c in "0123456789ABCDEF" {
        HexDigit(c);
      }
    }
  }

  lemma HexDigit(c: char)
    ensures Hex(c) <==> c in "0123456789ABCDEF"
  {
    assert "0123456789ABCDEF" == ['0', '1', '2', '3', '4', '5', '6', '7', '8', '9', 'A', 'B', 'C', 'D', 'E', 'F'];
  }

  /** A suffix names a certificate exactly when, tidied, it is six digits or more, that certificate alone ends
    * with it, and it may go. */
  lemma NamesIffOnlyEnding(clean: Cleaning, certs: seq<Cert>, now: int, given: string, k: nat)
    ensures Names(clean, certs, now, given, k) <==>
            exists suffix :: Given(clean, given, suffix) && OnlyEnding(clean, certs, now, suffix, k)
  {
    var suffix := Tidied(clean, given);
    GivenIsTidied(clean, given, suffix);
    SixDigitsIff(suffix);
    forall h | 0 <= h < |certs|
      ensures Matches(clean, certs[h], suffix) <==> SerialEnds(clean, certs[h].serial, suffix)
    {
      MatchesIffEnds(clean, certs[h], suffix);
    }
    assert Names(clean, certs, now, given, k) <==> OnlyEnding(clean, certs, now, suffix, k);
    if other :| Given(clean, given, other) && OnlyEnding(clean, certs, now, other, k) {
      GivenIsTidied(clean, given, other);
    }
  }

  ghost function MatchSet(clean: Cleaning, certs: seq<Cert>, suffix: string): set<nat> {
    set k: nat | k < |certs| && Matches(clean, certs[k], suffix)
  }

  /** Certificate k alone matches. */
  ghost predicate OneMatch(clean: Cleaning, certs: seq<Cert>, suffix: string, k: nat) {
    k < |certs| && forall h: nat :: h < |certs| ==> (Matches(clean, certs[h], suffix) <==> h == k)
  }

  ghost predicate OneForeign(clean: Cleaning, certs: seq<Cert>, suffix: string, k: nat) {
    OneMatch(clean, certs, suffix, k)
    && !((certs[k].kind == "DEVELOPMENT" || certs[k].kind == "IOS_DEVELOPMENT") && certs[k].name == "Created via API")
  }

  ghost predicate OneYoung(clean: Cleaning, certs: seq<Cert>, suffix: string, now: int, k: nat) {
    OneMatch(clean, certs, suffix, k) && (certs[k].notBefore.None? || certs[k].notBefore.value > now - 7200)
  }

  /** What is wrong with a suffix that names none: it is malformed, or not one certificate ends with it, or the
    * one that does is not a development certificate made through the API, or is too young. */
  ghost predicate Wrong(clean: Cleaning, certs: seq<Cert>, now: int, suffix: string, p: Problem) {
    match p
    case BadSuffix(s) => s == suffix && !WellFormed(suffix)
    case NotOne(s, n) => s == suffix && WellFormed(suffix) && n == |MatchSet(clean, certs, suffix)| != 1
    case NotOurs(s) => s == suffix && WellFormed(suffix) && exists k :: OneForeign(clean, certs, suffix, k)
    case TooYoung(s) => s == suffix && WellFormed(suffix) && exists k :: OneYoung(clean, certs, suffix, now, k)
    case SameTwice => false
  }

  /** One suffix: the certificate it names, or the problem. */
  method Check(clean: Cleaning, certs: seq<Cert>, now: int, given: string)
      returns (hit: Option<nat>, problem: Option<Problem>)
    ensures hit.Some? ==> Names(clean, certs, now, given, hit.value)
    ensures hit.None? ==> NamesNone(clean, certs, now, given)
    ensures hit.None? <==> problem.Some?
    ensures problem.Some? ==> Wrong(clean, certs, now, Tidied(clean, given), problem.value)
  {
    var suffix := Tidied(clean, given);
    if |suffix| < 6 || exists i :: 0 <= i < |suffix| && !Hex(suffix[i]) {
      return None, Some(BadSuffix(suffix));
    }
    var hits := Hits(clean, certs, suffix);
    if |hits| != 1 {
      forall k ensures !Names(clean, certs, now, given, k) {
        if Names(clean, certs, now, given, k) {
          OnlyHit(clean, certs, suffix, k);
        }
      }
      HitsCount(clean, certs, suffix);
      return None, Some(NotOne(suffix, |hits|));
    }
    var k := hits[0];
    assert k in hits;
    assert forall h :: 0 <= h < |certs| && Matches(clean, certs[h], suffix) ==> h in hits;
    assert OneMatch(clean, certs, suffix, k) by {
      assert forall h: nat :: h in hits ==> h == k;
    }
    hit, problem := CheckOwn(clean, certs, now, given, k);
  }

  /** The one certificate that matches: is it one of ours, and old enough? */
  method CheckOwn(clean: Cleaning, certs: seq<Cert>, now: int, given: string, k: nat)
      returns (hit: Option<nat>, problem: Option<Problem>)
    requires WellFormed(Tidied(clean, given)) && OneMatch(clean, certs, Tidied(clean, given), k)
    ensures hit.Some? ==> Names(clean, certs, now, given, hit.value)
    ensures hit.None? ==> NamesNone(clean, certs, now, given)
    ensures hit.None? <==> problem.Some?
    ensures problem.Some? ==> Wrong(clean, certs, now, Tidied(clean, given), problem.value)
  {
    var (suffix, c) := (Tidied(clean, given), certs[k]);
    if c.kind !in DEV_TYPES || c.name != SWEEP_NAME {
      assert OneForeign(clean, certs, suffix, k);
      return None, Some(NotOurs(suffix));
    }
    if c.notBefore.None? || now - c.notBefore.value < SWEEP_MIN_AGE {
      assert OneYoung(clean, certs, suffix, now, k);
      return None, Some(TooYoung(suffix));
    }
    return Some(k), None;
  }

  lemma {:induction false} HitsDistinct(clean: Cleaning, certs: seq<Cert>, suffix: string)
    ensures Distinct(Hits(clean, certs, suffix))
  {
    if certs != [] {
      var n := |certs| - 1;
      var rest := Hits(clean, certs[..n], suffix);
      HitsDistinct(clean, certs[..n], suffix);
      DistinctSnoc(rest, n);
    }
  }

  lemma HitsCount(clean: Cleaning, certs: seq<Cert>, suffix: string)
    ensures |Hits(clean, certs, suffix)| == |MatchSet(clean, certs, suffix)|
  {
    HitsDistinct(clean, certs, suffix);
    DistinctSize(Hits(clean, certs, suffix), MatchSet(clean, certs, suffix));
  }

  lemma {:induction false} NoHits(clean: Cleaning, certs: seq<Cert>, suffix: string)
    requires forall h: nat :: h < |certs| ==> !Matches(clean, certs[h], suffix)
    ensures Hits(clean, certs, suffix) == []
  {
    if certs != [] {
      NoHits(clean, certs[..|certs| - 1], suffix);
    }
  }

  lemma {:induction false} OnlyHit(clean: Cleaning, certs: seq<Cert>, suffix: string, k: nat)
    requires k < |certs| && forall h: nat :: h < |certs| ==> (Matches(clean, certs[h], suffix) <==> h == k)
    ensures Hits(clean, certs, suffix) == [k]
  {
    var n := |certs| - 1;
    if k == n {
      NoHits(clean, certs[..n], suffix);
    } else {
      OnlyHit(clean, certs[..n], suffix, k);
    }
  }

  /** Every suffix names one revocable certificate, and no two name the same. */
  ghost predicate Agreed(clean: Cleaning, certs: seq<Cert>, now: int, suffixes: seq<string>, picked: seq<nat>) {
    && |picked| == |suffixes|
    && (forall i :: 0 <= i < |picked| ==> Names(clean, certs, now, suffixes[i], picked[i]))
    && (forall i, j :: 0 <= i < j < |picked| ==> certs[picked[i]].id != certs[picked[j]].id)
  }

  function IdsOf(certs: seq<Cert>, picked: seq<nat>): (ids: seq<string>)
    requires forall i :: 0 <= i < |picked| ==> picked[i] < |certs|
    ensures |ids| == |picked| && forall i :: 0 <= i < |ids| ==> ids[i] == certs[picked[i]].id
  {
    seq(|picked|, i requires 0 <= i < |picked| => certs[picked[i]].id)
  }

  /** All suffixes checked: the certificates they name, or the problems. */
  method CheckAll(clean: Cleaning, certs: seq<Cert>, suffixes: seq<string>, now: int)
    returns (picked: seq<nat>, problems: seq<Problem>)
    ensures forall i :: 0 <= i < |picked| ==> picked[i] < |certs|
    ensures problems == [] ==> |picked| == |suffixes| && forall i :: 0 <= i < |picked| ==>
            Names(clean, certs, now, suffixes[i], picked[i])
    ensures problems != [] ==> exists i :: 0 <= i < |suffixes| && NamesNone(clean, certs, now, suffixes[i])
  {
    picked, problems := [], [];
    for n := 0 to |suffixes|
      invariant problems == [] ==> |picked| == n && forall i :: 0 <= i < n ==>
                Names(clean, certs, now, suffixes[i], picked[i])
      invariant problems != [] ==> exists i :: 0 <= i < n && NamesNone(clean, certs, now, suffixes[i])
      invariant forall i :: 0 <= i < |picked| ==> picked[i] < |certs|
    {
      var hit, problem := Check(clean, certs, now, suffixes[n]);
      if hit.None? {
        problems := problems + [problem.value];
      } else {
        picked := picked + [hit.value];
      }
    }
  }

  /** All or nothing: without a problem, exactly the certificates the suffixes name are chosen, one each; with a
    * problem, none. There is no problem exactly when every suffix names one, and no two the same. */
  method SelectListed(clean: Cleaning, certs: seq<Cert>, suffixes: seq<string>, now: int)
    returns (ids: seq<string>, problems: seq<Problem>)
    ensures problems != [] ==> ids == [] && forall agreed :: !Agreed(clean, certs, now, suffixes, agreed)
    ensures problems == [] ==>
            exists agreed :: Agreed(clean, certs, now, suffixes, agreed) && ids == IdsOf(certs, agreed)
  {
    var picked;
    picked, problems := CheckAll(clean, certs, suffixes, now);
    ids := IdsOf(certs, picked);
    if exists i, j :: 0 <= i < j < |ids| && ids[i] == ids[j] {
      problems := problems + [SameTwice];
    }
    if problems != [] {
      ids := [];
    } else {
      assert Agreed(clean, certs, now, suffixes, picked);
    }
  }
}
