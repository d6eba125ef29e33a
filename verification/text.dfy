/** Decimal rendering of natural numbers (Python's `str(int)` for a
    non-negative int), its inverse (`int(s)` on a digit string), and the
    `"u-v"` edge keys that calibration data uses for a qubit pair. */
module Text {
  import opened Wrappers

  predicate IsDigit(c: char) {
    '0' <= c <= '9'
  }

  predicate AllDigits(s: string) {
    forall i :: 0 <= i < |s| ==> IsDigit(s[i])
  }

  function DigitChar(d: nat): (c: char)
    requires d < 10
    ensures IsDigit(c)
    ensures (c as int) - ('0' as int) == d
  {
    ('0' as int + d) as char
  }

  function DigitValue(c: char): (d: nat)
    requires IsDigit(c)
    ensures d < 10
    ensures DigitChar(d) == c
  {
    (c as int) - ('0' as int)
  }

  /** `str(n)`: no sign, no leading zeros, at least one digit. */
  function NatToString(n: nat): (s: string)
    ensures |s| >= 1
    ensures AllDigits(s)
    ensures n < 10 <==> |s| == 1
    ensures |s| > 1 ==> s[0] != '0'
    decreases n
  {
    if n < 10 then [DigitChar(n)] else NatToString(n / 10) + [DigitChar(n % 10)]
  }

  /** `int(s)` on a string of decimal digits. */
  function ParseNat(s: string): (n: nat)
    requires AllDigits(s)
    decreases |s|
  {
    if |s| == 0 then 0 else ParseNat(s[..|s| - 1]) * 10 + DigitValue(s[|s| - 1])
  }

  lemma {:induction false} ParseNatOfNatToString(n: nat)
    ensures ParseNat(NatToString(n)) == n
    decreases n
  {
    if n >= 10 {
      var s := NatToString(n);
      assert s[..|s| - 1] == NatToString(n / 10);
      ParseNatOfNatToString(n / 10);
    }
  }

  /** Different qubits print differently, so edge keys never collide. */
  lemma NatToStringInjective(a: nat, b: nat)
    ensures NatToString(a) == NatToString(b) <==> a == b
  {
    if NatToString(a) == NatToString(b) {
      ParseNatOfNatToString(a);
      ParseNatOfNatToString(b);
    }
  }

  /** The calibration key of the directed pair (u, v): `"-".join([str(u), str(v)])`. */
  function EdgeKey(u: nat, v: nat): (k: string)
    ensures '-' in k
    ensures |k| >= 3
  {
    NatToString(u) + "-" + NatToString(v)
  }

  /** Index of the first occurrence of `c` in `s`, if any. */
  function IndexOf(s: string, c: char): (r: Option<nat>)
    ensures r.None? <==> c !in s
    ensures r.Some? ==> r.value < |s| && s[r.value] == c && c !in s[..r.value]
    ensures r.Some? ==> forall j :: 0 <= j < r.value ==> s[j] != c
  {
    if |s| == 0 then None
    else if s[0] == c then Some(0)
    else
      match IndexOf(s[1..], c)
      case None => None
      case Some(i) =>
        assert s[1..][..i] == s[1..i + 1];
        assert s[..i + 1] == [s[0]] + s[1..i + 1];
        Some(i + 1)
  }

  /** The text before the first `c` and the text after it up to the next
      `c` (or the end): the first two fields of `s.split(c)`. */
  function FirstTwoFields(s: string, c: char): (r: Option<(string, string)>)
    ensures r.None? <==> c !in s
    ensures r.Some? ==> c !in r.value.0 && c !in r.value.1
  {
    match IndexOf(s, c)
    case None => None
    case Some(i) =>
      var rest := s[i + 1..];
      match IndexOf(rest, c)
      case None => Some((s[..i], rest))
      case Some(j) => Some((s[..i], rest[..j]))
  }

  /** Reading an edge key back into a qubit pair: split on '-', keep the
      first two fields, and convert each with `int`.  A field that is not a
      non-empty digit string is an `int` conversion error (None). */
  function ParseEdgeKey(k: string): (r: Option<(nat, nat)>)
    ensures r.Some? ==> '-' in k
  {
    match FirstTwoFields(k, '-')
    case None => None
    case Some((a, b)) =>
      if |a| > 0 && |b| > 0 && AllDigits(a) && AllDigits(b) then Some((ParseNat(a), ParseNat(b)))
      else None
  }

  lemma DigitsHaveNoDash(n: nat)
    ensures '-' !in NatToString(n)
  {
    var s := NatToString(n);
    assert forall i :: 0 <= i < |s| ==> IsDigit(s[i]) && s[i] != '-';
  }

  /** Round trip: the key written for (u, v) is read back as (u, v). */
  lemma ParseEdgeKeyOfEdgeKey(u: nat, v: nat)
    ensures ParseEdgeKey(EdgeKey(u, v)) == Some((u, v))
  {
    var su, sv := NatToString(u), NatToString(v);
    var k := EdgeKey(u, v);
    DigitsHaveNoDash(u);
    DigitsHaveNoDash(v);
    IndexOfAfterPrefix(su, sv);
    assert k[|su| + 1..] == sv;
    assert k[..|su|] == su;
    ParseNatOfNatToString(u);
    ParseNatOfNatToString(v);
  }

  lemma IndexOfAfterPrefix(a: string, b: string)
    requires '-' !in a
    ensures IndexOf(a + "-" + b, '-') == Some(|a|)
  {
    var k := a + "-" + b;
    assert k[|a|] == '-';
    assert forall j :: 0 <= j < |a| ==> k[j] == a[j] && a[j] != '-';
  }

  /** Edge keys determine their pair: distinct pairs never share a key. */
  lemma EdgeKeyInjective(u1: nat, v1: nat, u2: nat, v2: nat)
    ensures EdgeKey(u1, v1) == EdgeKey(u2, v2) <==> (u1, v1) == (u2, v2)
  {
    if EdgeKey(u1, v1) == EdgeKey(u2, v2) {
      ParseEdgeKeyOfEdgeKey(u1, v1);
      ParseEdgeKeyOfEdgeKey(u2, v2);
    }
  }

  /** `sep.join(parts)`. */
  function Join(parts: seq<string>, sep: string): (r: string)
    ensures |parts| == 0 ==> r == ""
    ensures |parts| == 1 ==> r == parts[0]
  {
    if |parts| == 0 then ""
    else if |parts| == 1 then parts[0]
    else parts[0] + sep + Join(parts[1..], sep)
  }

  /** Joining one more part adds the separator and the part at the end. */
  lemma {:induction false} JoinAppend(parts: seq<string>, p: string, sep: string)
    ensures Join(parts + [p], sep) == if |parts| == 0 then p else Join(parts, sep) + sep + p
    decreases |parts|
  {
    if |parts| > 1 {
      assert (parts + [p])[1..] == parts[1..] + [p];
      JoinAppend(parts[1..], p, sep);
    } else if |parts| == 1 {
      assert parts + [p] == [parts[0], p];
      assert [parts[0], p][1..] == [p];
    }
  }

  function LowerChar(ch: char): char {
    if 'A' <= ch <= 'Z' then (ch as int + 32) as char else ch
  }

  /** `s.lower()` on ASCII letters; other characters are unchanged. */
  function Lower(s: string): (r: string)
    ensures |r| == |s|
    ensures forall i :: 0 <= i < |s| ==> r[i] == LowerChar(s[i])
    ensures forall i :: 0 <= i < |r| ==> !('A' <= r[i] <= 'Z')
    ensures forall i :: 0 <= i < |s| && 'A' <= s[i] <= 'Z' ==> 'a' <= r[i] <= 'z' && r[i] as int == s[i] as int + 32
    ensures forall i :: 0 <= i < |s| && !('A' <= s[i] <= 'Z') ==> r[i] == s[i]
  {
    seq(|s|, i requires 0 <= i < |s| => LowerChar(s[i]))
  }

  /** Lower-casing twice is lower-casing once. */
  lemma LowerIdempotent(s: string)
    ensures Lower(Lower(s)) == Lower(s)
  {
    var once := Lower(s);
    assert forall i :: 0 <= i < |once| ==> Lower(once)[i] == once[i];
  }

  /** A string without ASCII capitals is its own lower case. */
  lemma LowerWithoutCapitals(s: string)
    requires forall i :: 0 <= i < |s| ==> !('A' <= s[i] <= 'Z')
    ensures Lower(s) == s
  {
    assert forall i :: 0 <= i < |s| ==> Lower(s)[i] == s[i];
  }
}
