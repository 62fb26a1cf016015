/**
 * The two java.lang text operations the product form relies on: String.trim and
 * Integer.parseInt (decimal, ASCII digits, 32-bit range). Both work on index ranges of the text.
 */
module JavaText {
  import opened Wrappers

  const MinInt: int := -0x8000_0000
  const MaxInt: int := 0x7FFF_FFFF

  /** The characters String.trim strips: every code point up to and including the space. */
  predicate IsTrimmed(c: char) {
    c <= ' '
  }

  /** The first index from `i` on that holds a character trim keeps, or |s| when there is none. */
  function KeptFrom(s: string, i: nat): (r: nat)
    requires i <= |s|
    ensures i <= r <= |s|
    ensures forall k :: i <= k < r ==> IsTrimmed(s[k])
    ensures r < |s| ==> !IsTrimmed(s[r])
    decreases |s| - i
  {
    if i < |s| && IsTrimmed(s[i]) then KeptFrom(s, i + 1) else i
  }

  /** The end, at most `j` and at least `lo`, of the kept text: only trimmed characters follow it up to `j`. */
  function KeptUntil(s: string, lo: nat, j: nat): (r: nat)
    requires lo <= j <= |s|
    ensures lo <= r <= j
    ensures forall k :: r <= k < j ==> IsTrimmed(s[k])
    ensures r > lo ==> !IsTrimmed(s[r - 1])
    decreases j
  {
    if j > lo && IsTrimmed(s[j - 1]) then KeptUntil(s, lo, j - 1) else j
  }

  /** String.trim: the text without its leading and trailing characters up to the space. */
  function Trim(s: string): (r: string)
    ensures |r| <= |s|
    ensures r == [] || (!IsTrimmed(r[0]) && !IsTrimmed(r[|r| - 1]))
  {
    var i := KeptFrom(s, 0);
    var j := KeptUntil(s, i, |s|);
    assert i < |s| ==> j > i;
    s[i..j]
  }

  /**
   * `s.trim().isEmpty()` holds exactly for text made of nothing but characters up to the space,
   * and a non-empty trimmed text neither starts nor ends with such a character.
   */
  lemma TrimEmptyIff(s: string)
    ensures Trim(s) == [] <==> forall k :: 0 <= k < |s| ==> IsTrimmed(s[k])
    ensures Trim(s) == [] || (!IsTrimmed(Trim(s)[0]) && !IsTrimmed(Trim(s)[|Trim(s)| - 1]))
  {
    var i := KeptFrom(s, 0);
    var j := KeptUntil(s, i, |s|);
    if i < |s| {
      assert j > i;
    }
  }

  /**
   * What trim cuts off: the result is an infix of the text, with only characters up to the space
   * before and after it.
   */
  lemma TrimIsInfix(s: string)
    ensures exists i, j ::
              && 0 <= i <= j <= |s| && Trim(s) == s[i..j]
              && (forall k :: 0 <= k < i ==> IsTrimmed(s[k]))
              && (forall k :: j <= k < |s| ==> IsTrimmed(s[k]))
  {
    var i := KeptFrom(s, 0);
    var j := KeptUntil(s, i, |s|);
    assert Trim(s) == s[i..j];
  }

  /** Trimming twice is trimming once. */
  lemma TrimIdempotent(s: string)
    ensures Trim(Trim(s)) == Trim(s)
  {
    var t := Trim(s);
    TrimEmptyIff(s);
    if t != [] {
      assert KeptFrom(t, 0) == 0;
      assert KeptUntil(t, 0, |t|) == |t|;
    }
  }

  predicate IsDigit(c: char) {
    '0' <= c <= '9'
  }

  predicate DigitsIn(s: string, i: nat, j: nat)
    requires i <= j <= |s|
  {
    forall k :: i <= k < j ==> IsDigit(s[k])
  }

  /** The value of the decimal digits s[i..j], most significant first. */
  function DigitsValue(s: string, i: nat, j: nat): nat
    requires i <= j <= |s| && DigitsIn(s, i, j)
    decreases j
  {
    if j == i then 0 else DigitsValue(s, i, j - 1) * 10 + (s[j - 1] as int - '0' as int)
  }

  /** Where the digits begin: after a leading sign, if there is one. */
  function DigitsStart(s: string): (i: nat)
    requires s != []
    ensures i <= 1
  {
    if s[0] == '-' || s[0] == '+' then 1 else 0
  }

  /**
   * Integer.parseInt(s) for decimal text: an optional sign and at least one digit, with a value
   * that fits in an int; `None` where Java throws NumberFormatException.
   */
  function ParseInt(s: string): (r: Option<int>)
    ensures r.Some? ==> MinInt <= r.value <= MaxInt
    ensures s == [] || s == "-" || s == "+" ==> r.None?
    ensures r.Some? ==> IsDigit(s[|s| - 1])
    ensures r.Some? ==> DigitsStart(s) < |s| && DigitsIn(s, DigitsStart(s), |s|)
  {
    if s == [] then None
    else
      var i := DigitsStart(s);
      if i == |s| || !DigitsIn(s, i, |s|) then None
      else
        var magnitude: int := DigitsValue(s, i, |s|);
        var v := if s[0] == '-' then -magnitude else magnitude;
        if MinInt <= v <= MaxInt then Some(v) else None
  }

  function DigitChar(d: nat): (c: char)
    requires d < 10
    ensures IsDigit(c) && c as int - '0' as int == d
  {
    ('0' as int + d) as char
  }

  /** Integer.toString for a non-negative value. */
  function NatToString(n: nat): (s: string)
    decreases n
  {
    if n < 10 then [DigitChar(n)] else NatToString(n / 10) + [DigitChar(n % 10)]
  }

  /** Integer.toString. */
  function IntToString(n: int): string {
    if n < 0 then "-" + NatToString(-n) else NatToString(n)
  }

  /** The value of a digit range depends on nothing but the characters in it. */
  lemma {:induction false} DigitsValueShift(s: string, i: nat, t: string, d: nat)
    requires i <= |s| && DigitsIn(s, i, |s|) && t == s[i..]
    ensures d <= |t| ==> DigitsIn(t, 0, d) && DigitsValue(s, i, i + d) == DigitsValue(t, 0, d)
    decreases d
  {
    if 0 < d <= |t| {
      DigitsValueShift(s, i, t, d - 1);
      assert s[i + d - 1] == t[d - 1];
    }
  }

  lemma {:induction false} NatToStringDigits(n: nat)
    ensures var s := NatToString(n);
      s != [] && DigitsIn(s, 0, |s|) && s[0] != '-' && s[0] != '+' && DigitsValue(s, 0, |s|) == n
    decreases n
  {
    var s := NatToString(n);
    if n >= 10 {
      NatToStringDigits(n / 10);
      var p := NatToString(n / 10);
      assert s == p + [DigitChar(n % 10)];
      DigitsValueShift(s, 0, s, |p|);
      assert s[..|p|] == p;
      DigitsValueSame(s, p, |p|);
    }
  }

  /** Two texts that agree on their first `d` characters give those digits the same value. */
  lemma {:induction false} DigitsValueSame(s: string, p: string, d: nat)
    requires d <= |s| && d <= |p| && s[..d] == p[..d] && DigitsIn(p, 0, d)
    ensures DigitsIn(s, 0, d) && DigitsValue(s, 0, d) == DigitsValue(p, 0, d)
    decreases d
  {
    if d > 0 {
      assert s[..d - 1] == p[..d - 1];
      assert s[d - 1] == s[..d][d - 1];
      DigitsValueSame(s, p, d - 1);
    }
  }

  /** parseInt reads back every int that toString writes. */
  lemma ParseIntOfToString(n: int)
    requires MinInt <= n <= MaxInt
    ensures ParseInt(IntToString(n)) == Some(n)
  {
    if n < 0 {
      var t := NatToString(-n);
      NatToStringDigits(-n);
      var s := IntToString(n);
      assert s[1..] == t;
      DigitsValueShift(s, 1, t, |t|);
    } else {
      NatToStringDigits(n);
    }
  }

  /** Leading zeros add nothing to the value of a digit range. */
  lemma {:induction false} ZerosValue(s: string, n: nat)
    requires n <= |s| && forall k :: 0 <= k < n ==> s[k] == '0'
    ensures DigitsIn(s, 0, n) && DigitsValue(s, 0, n) == 0
    decreases n
  {
    if n > 0 {
      ZerosValue(s, n - 1);
    }
  }

  lemma {:induction false} ZeroPrefixValue(s: string, z: nat, n: nat)
    requires z <= n <= |s| && DigitsIn(s, 0, n) && forall k :: 0 <= k < z ==> s[k] == '0'
    ensures DigitsValue(s, 0, n) == DigitsValue(s, z, n)
    decreases n
  {
    if n == z {
      ZerosValue(s, z);
    } else {
      ZeroPrefixValue(s, z, n - 1);
    }
  }

  /** Text padded with leading zeros parses to the same int as the text itself. */
  lemma ParseIntLeadingZeros(z: nat, t: string)
    requires t != [] && DigitsIn(t, 0, |t|)
    ensures ParseInt(seq(z, _ => '0') + t) == ParseInt(t)
  {
    var s := seq(z, _ => '0') + t;
    if z > 0 {
      assert s[0] == '0' && DigitsIn(s, 0, |s|);
      assert s[z..] == t;
      ZeroPrefixValue(s, z, |s|);
      DigitsValueShift(s, z, t, |t|);
    } else {
      assert s == t;
    }
  }

  /** A leading '+' is accepted and changes nothing. */
  lemma ParseIntPlusSign(t: string)
    requires t != [] && DigitsIn(t, 0, |t|)
    ensures ParseInt("+" + t) == ParseInt(t)
  {
    var s := "+" + t;
    assert s[1..] == t;
    DigitsValueShift(s, 1, t, |t|);
  }

  /** A value outside the int range is refused, as Java refuses it with an exception. */
  lemma ParseIntRejectsOverflow(n: int)
    requires n > MaxInt || n < MinInt
    ensures ParseInt(IntToString(n)) == None
  {
    if n < 0 {
      var t := NatToString(-n);
      NatToStringDigits(-n);
      var s := IntToString(n);
      assert s[1..] == t;
      DigitsValueShift(s, 1, t, |t|);
    } else {
      NatToStringDigits(n);
    }
  }
}
