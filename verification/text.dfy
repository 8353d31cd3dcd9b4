/** Text helpers shared by the display code: decimal rendering of integers the
    way JavaScript's `Number.prototype.toString` prints an integral number,
    `padStart` with zeros, and the parsers used to state round trips. */
module Text {
  import opened Wrappers

  predicate IsDigit(c: char) {
    '0' <= c <= '9'
  }

  predicate AllDigits(s: string) {
    forall i | 0 <= i < |s| :: IsDigit(s[i])
  }

  function DigitChar(d: nat): (c: char)
    requires d < 10
    ensures IsDigit(c)
  {
    (('0' as int) + d) as char
  }

  function DigitValue(c: char): (d: nat)
    requires IsDigit(c)
    ensures d < 10
    ensures DigitChar(d) == c
  {
    (c as int) - ('0' as int)
  }

  /** Decimal digits of `n`, most significant first, without leading zeros. */
  function NatToString(n: nat): (s: string)
    ensures 1 <= |s|
    ensures AllDigits(s)
    ensures s[0] == '0' ==> n == 0
    decreases n
  {
    if n < 10 then [DigitChar(n)] else NatToString(n / 10) + [DigitChar(n % 10)]
  }

  /** The value of a string of decimal digits (leading zeros allowed). */
  function ParseNat(s: string): nat
    requires AllDigits(s)
    decreases |s|
  {
    if |s| == 0 then 0 else ParseNat(s[..|s| - 1]) * 10 + DigitValue(s[|s| - 1])
  }

  /** JavaScript rendering of an integral number: a minus sign for negatives. */
  function IntToString(i: int): (s: string)
    ensures 1 <= |s|
    ensures i >= 0 ==> s == NatToString(i)
    ensures i < 0 ==> s[0] == '-' && s[1..] == NatToString(-i)
  {
    if i < 0 then "-" + NatToString(-i) else NatToString(i)
  }

  function Repeat(c: char, k: nat): (s: string)
    ensures |s| == k
    ensures forall i | 0 <= i < k :: s[i] == c
  {
    if k == 0 then [] else Repeat(c, k - 1) + [c]
  }

  /** `s.padStart(width, '0')`: zeros in front up to `width`, never truncating. */
  function PadStartZero(s: string, width: nat): (r: string)
    ensures |r| == if |s| >= width then |s| else width
    ensures r[|r| - |s|..] == s
    ensures forall i | 0 <= i < |r| - |s| :: r[i] == '0'
  {
    if |s| >= width then s else Repeat('0', width - |s|) + s
  }

  /** Index of the first occurrence of `c` in `s`, if any. */
  function FindChar(s: string, c: char): (r: Option<nat>)
    ensures r.Some? ==> r.value < |s| && s[r.value] == c
    ensures r.Some? ==> forall j | 0 <= j < r.value :: s[j] != c
    ensures r.None? ==> forall j | 0 <= j < |s| :: s[j] != c
    decreases |s|
  {
    if |s| == 0 then None
    else if s[0] == c then Some(0)
    else match FindChar(s[1..], c)
      case None => None
      case Some(k) => Some(k + 1)
  }

  /** Parsing inverts rendering. */
  lemma {:induction false} ParseNatToString(n: nat)
    ensures ParseNat(NatToString(n)) == n
    decreases n
  {
    if n >= 10 {
      var s := NatToString(n);
      assert s[..|s| - 1] == NatToString(n / 10);
      ParseNatToString(n / 10);
    }
  }

  /** Distinct numbers render to distinct strings. */
  lemma NatToStringInjective(a: nat, b: nat)
    ensures NatToString(a) == NatToString(b) ==> a == b
  {
    ParseNatToString(a);
    ParseNatToString(b);
  }

  lemma {:induction false} ParseNatZeros(k: nat)
    ensures ParseNat(Repeat('0', k)) == 0
    decreases k
  {
    if k > 0 {
      var z := Repeat('0', k - 1);
      assert Repeat('0', k) == z + ['0'];
      assert (z + ['0'])[..k - 1] == z;
      ParseNatZeros(k - 1);
    }
  }

  /** Leading zeros do not change the parsed value. */
  lemma {:induction false} ParseNatLeadingZeros(k: nat, s: string)
    requires AllDigits(s)
    ensures AllDigits(Repeat('0', k) + s)
    ensures ParseNat(Repeat('0', k) + s) == ParseNat(s)
    decreases |s|
  {
    var z := Repeat('0', k);
    if |s| == 0 {
      assert z + s == z;
      ParseNatZeros(k);
    } else {
      var init := s[..|s| - 1];
      assert (z + s)[..|z + s| - 1] == z + init;
      ParseNatLeadingZeros(k, init);
    }
  }

  /** Zero padding is invisible to the parser. */
  lemma PadStartZeroParse(s: string, width: nat)
    requires AllDigits(s)
    ensures AllDigits(PadStartZero(s, width))
    ensures ParseNat(PadStartZero(s, width)) == ParseNat(s)
  {
    if |s| < width {
      ParseNatLeadingZeros(width - |s|, s);
    }
  }

  /** The first `c` of `l + [c] + r` is the separator when `l` holds no `c`. */
  lemma FindCharAfter(l: string, c: char, r: string)
    requires forall i | 0 <= i < |l| :: l[i] != c
    ensures FindChar(l + [c] + r, c) == Some(|l|)
  {
    var s := l + [c] + r;
    assert s[|l|] == c;
    var f := FindChar(s, c);
    if f.None? {
      assert false;
    }
  }
}
