/**
 * Python's `str.strip()` and `int(text)` for base 10 on ASCII text. `int()`
 * ignores surrounding white space (a narrower set than `strip()` removes),
 * then reads one optional sign and decimal digits in which single
 * underscores may separate digits. Anything else raises ValueError,
 * modelled as None.
 */
module PyText {
  import opened Wrappers

  /** The ASCII characters for which Python's `str.isspace()` holds: what `str.strip()` removes. */
  predicate IsSpace(c: char) {
    var n := c as int;
    n == 32 || 9 <= n <= 13 || 28 <= n <= 31
  }

  /**
   * The ASCII white space `int()` skips around the number: tab, line feed,
   * vertical tab, form feed, carriage return and space. The separators
   * 28..31, white space to `str.isspace()`, make `int()` raise.
   */
  predicate IsIntSpace(c: char) {
    var n := c as int;
    n == 32 || 9 <= n <= 13
  }

  predicate IsDigit(c: char) {
    '0' <= c <= '9'
  }

  function DigitOf(c: char): (d: nat)
    requires IsDigit(c)
    ensures d < 10
  {
    c as int - '0' as int
  }

  function DigitChar(d: nat): (c: char)
    requires d < 10
    ensures IsDigit(c) && DigitOf(c) == d
  {
    (d + '0' as int) as char
  }

  /** Drops the leading characters that ws calls white space. */
  function TrimStart(s: string, ws: char -> bool): string {
    if s != [] && ws(s[0]) then TrimStart(s[1..], ws) else s
  }

  /** Drops the trailing characters that ws calls white space. */
  function TrimEnd(s: string, ws: char -> bool): string {
    if s != [] && ws(s[|s| - 1]) then TrimEnd(s[..|s| - 1], ws) else s
  }

  /** TrimStart removes exactly the white space in front: a suffix remains, starting with no space. */
  lemma {:induction false} TrimStartSpec(s: string, ws: char -> bool)
    ensures var r := TrimStart(s, ws);
      && |r| <= |s| && r == s[|s| - |r|..]
      && (forall k :: 0 <= k < |s| - |r| ==> ws(s[k]))
      && (r == [] || !ws(r[0]))
  {
    if s != [] && ws(s[0]) {
      var t, r := s[1..], TrimStart(s, ws);
      TrimStartSpec(t, ws);
      assert r == t[|t| - |r|..];
      assert s[1..][|t| - |r|..] == s[|s| - |r|..];
      forall k | 0 <= k < |s| - |r| ensures ws(s[k]) {
        if k > 0 { assert s[k] == t[k - 1]; }
      }
    }
  }

  /** TrimEnd removes exactly the white space behind: a prefix remains, ending with no space. */
  lemma {:induction false} TrimEndSpec(s: string, ws: char -> bool)
    ensures var r := TrimEnd(s, ws);
      && |r| <= |s| && r == s[..|r|]
      && (forall k :: |r| <= k < |s| ==> ws(s[k]))
      && (r == [] || !ws(r[|r| - 1]))
  {
    if s != [] && ws(s[|s| - 1]) {
      TrimEndSpec(s[..|s| - 1], ws);
    }
  }

  /** Both ends trimmed. */
  function StripBy(s: string, ws: char -> bool): string {
    TrimEnd(TrimStart(s, ws), ws)
  }

  /** `str.strip()` with no argument, on ASCII text. */
  function Strip(s: string): string {
    StripBy(s, IsSpace)
  }

  /** Text of white space only strips to nothing. */
  lemma {:induction false} StripBlank(s: string, ws: char -> bool)
    requires forall k :: 0 <= k < |s| ==> ws(s[k])
    ensures TrimStart(s, ws) == [] && StripBy(s, ws) == []
  {
    if s != [] {
      assert ws(s[0]);
      StripBlank(s[1..], ws);
    }
  }

  /** A prefix b of a suffix a of s, each cut at white space, is the slice of s around a character k that is not white space. */
  lemma SliceAround(s: string, a: string, b: string, ws: char -> bool, k: nat)
    requires k < |s| && !ws(s[k])
    requires |a| <= |s| && a == s[|s| - |a|..] && forall m :: 0 <= m < |s| - |a| ==> ws(s[m])
    requires a == [] || !ws(a[0])
    requires |b| <= |a| && b == a[..|b|] && forall m :: |b| <= m < |a| ==> ws(a[m])
    requires b == [] || !ws(b[|b| - 1])
    ensures var i, j := |s| - |a|, |s| - |a| + |b|;
      && 0 <= i <= k < j <= |s| && b == s[i..j]
      && !ws(s[i]) && !ws(s[j - 1])
      && (forall m :: 0 <= m < i ==> ws(s[m]))
      && (forall m :: j <= m < |s| ==> ws(s[m]))
  {
    var i := |s| - |a|;
    assert i <= k;
    assert a[k - i] == s[k];
    assert |b| > k - i;
    var j := i + |b|;
    assert a[..|b|] == s[i..j];
    assert s[i] == a[0] && s[j - 1] == b[|b| - 1];
    forall m | j <= m < |s| ensures ws(s[m]) {
      assert s[m] == a[m - i];
    }
  }

  /**
   * Stripping keeps exactly the stretch from the first to the last
   * character that is not white space, and leaves nothing when there is none.
   */
  lemma StripSpec(s: string, ws: char -> bool)
    ensures (forall k :: 0 <= k < |s| ==> ws(s[k])) ==> StripBy(s, ws) == []
    ensures (exists k :: 0 <= k < |s| && !ws(s[k])) ==>
      exists i, j :: 0 <= i < j <= |s| && StripBy(s, ws) == s[i..j]
        && !ws(s[i]) && !ws(s[j - 1])
        && (forall k :: 0 <= k < i ==> ws(s[k]))
        && (forall k :: j <= k < |s| ==> ws(s[k]))
  {
    if exists k :: 0 <= k < |s| && !ws(s[k]) {
      var k :| 0 <= k < |s| && !ws(s[k]);
      var a := TrimStart(s, ws);
      TrimStartSpec(s, ws);
      TrimEndSpec(a, ws);
      SliceAround(s, a, TrimEnd(a, ws), ws, k);
      var i := |s| - |a|;
      assert StripBy(s, ws) == s[i..i + |TrimEnd(a, ws)|];
    } else {
      StripBlank(s, ws);
    }
  }

  /**
   * Digits in which single underscores may separate two digits, read from
   * the back as the grammar `digit ("_"? digit)*`.
   */
  predicate WellFormedDigits(s: string)
    decreases |s|
  {
    if |s| <= 1 then |s| == 1 && IsDigit(s[0])
    else if !IsDigit(s[|s| - 1]) then false
    else if s[|s| - 2] == '_' then WellFormedDigits(s[..|s| - 2])
    else WellFormedDigits(s[..|s| - 1])
  }

  /**
   * The same grammar stated over the whole text: digits and underscores,
   * a digit at both ends, and a digit on either side of every underscore.
   */
  predicate DigitGroups(s: string) {
    && |s| > 0 && IsDigit(s[0]) && IsDigit(s[|s| - 1])
    && (forall k :: 0 <= k < |s| ==> IsDigit(s[k]) || s[k] == '_')
    && (forall k :: 0 < k < |s| - 1 && s[k] == '_' ==> IsDigit(s[k - 1]) && IsDigit(s[k + 1]))
  }

  /** The recursive reading from the back accepts exactly the texts of the flat grammar. */
  lemma {:induction false} WellFormedDigitsGrammar(s: string)
    ensures WellFormedDigits(s) <==> DigitGroups(s)
    decreases |s|
  {
    if |s| >= 2 && IsDigit(s[|s| - 1]) {
      var n := |s|;
      var cut := if s[n - 2] == '_' then n - 2 else n - 1;
      var t := s[..cut];
      WellFormedDigitsGrammar(t);
      assert forall k :: 0 <= k < cut ==> t[k] == s[k];
      if DigitGroups(s) {
        if cut == n - 2 {
          assert n >= 3 && IsDigit(s[n - 3]);
        }
        assert DigitGroups(t);
      }
      if DigitGroups(t) {
        forall k | 0 < k < n - 1 && s[k] == '_' ensures IsDigit(s[k - 1]) && IsDigit(s[k + 1]) {
          if k < cut - 1 {
            assert t[k] == '_';
          }
        }
        assert DigitGroups(s);
      }
    }
  }

  /** The value of a well-formed digit string, underscores skipped. */
  function ValueOf(s: string): nat
    requires WellFormedDigits(s)
    decreases |s|
  {
    if |s| == 1 then DigitOf(s[0])
    else if s[|s| - 2] == '_' then 10 * ValueOf(s[..|s| - 2]) + DigitOf(s[|s| - 1])
    else 10 * ValueOf(s[..|s| - 1]) + DigitOf(s[|s| - 1])
  }

  function ParseUnsigned(s: string): (r: Option<nat>)
    ensures r.Some? <==> WellFormedDigits(s)
  {
    if WellFormedDigits(s) then Some(ValueOf(s)) else None
  }

  function ParseInt(s: string): Option<int> {
    var t := StripBy(s, IsIntSpace);
    if |t| > 0 && (t[0] == '+' || t[0] == '-') then
      match ParseUnsigned(t[1..])
      case None => None
      case Some(n) => Some(if t[0] == '-' then -(n as int) else n as int)
    else
      match ParseUnsigned(t)
      case None => None
      case Some(n) => Some(n as int)
  }

  /** The shortest decimal spelling of a natural number. */
  function NatDigits(n: nat): (r: string)
    ensures |r| > 0
    ensures forall k :: 0 <= k < |r| ==> IsDigit(r[k])
    ensures WellFormedDigits(r) && ValueOf(r) == n
  {
    if n < 10 then [DigitChar(n)]
    else
      var init := NatDigits(n / 10);
      var r := init + [DigitChar(n % 10)];
      assert r[..|r| - 1] == init;
      assert r[|r| - 2] == init[|init| - 1];
      r
  }

  /** `str(n)` for an integer n. */
  function ToDecimal(n: int): (r: string)
    ensures |r| > 0 && IsDigit(r[|r| - 1])
    ensures r[0] == '-' <==> n < 0
    ensures forall k :: 0 <= k < |r| ==> IsDigit(r[k]) || (k == 0 && r[k] == '-')
  {
    if n < 0 then "-" + NatDigits(-n) else NatDigits(n)
  }

  lemma StripDecimal(n: int)
    ensures StripBy(ToDecimal(n), IsIntSpace) == ToDecimal(n)
  {
    var t := ToDecimal(n);
    assert !IsIntSpace(t[0]) by {
      if n >= 0 { assert IsDigit(t[0]); }
    }
    assert TrimStart(t, IsIntSpace) == t;
  }

  lemma ParseNatDigits(n: nat)
    ensures ParseUnsigned(NatDigits(n)) == Some(n)
  {
    var d := NatDigits(n);
    assert WellFormedDigits(d);
  }

  /** Reading back what `str` writes gives the number again. */
  lemma ParseIntOfDecimal(n: int)
    ensures ParseInt(ToDecimal(n)) == Some(n)
  {
    var t := ToDecimal(n);
    StripDecimal(n);
    assert StripBy(t, IsIntSpace) == t;
    if n < 0 {
      assert t[1..] == NatDigits(-n);
      ParseNatDigits(-n);
    } else {
      ParseNatDigits(n);
      assert IsDigit(t[0]);
    }
  }

  /**
   * The separators 28..31 are white space to `str.strip()` but not to
   * `int()`: stripping removes one, while `int()` raises on it.
   */
  lemma SeparatorIsNoIntSpace()
    ensures Strip([28 as char, '1']) == "1"
    ensures ParseInt([28 as char, '1']) == None
  {
    var s: string := [28 as char, '1'];
    assert IsSpace(s[0]) && !IsIntSpace(s[0]);
    assert s[1..] == "1";
    assert TrimStart("1", IsSpace) == "1";
    assert TrimEnd("1", IsSpace) == "1";
    assert TrimStart(s, IsSpace) == "1";
    assert TrimStart(s, IsIntSpace) == s;
    assert TrimEnd(s, IsIntSpace) == s;
    assert s[..1] == [28 as char];
    assert !WellFormedDigits(s);
  }

  /** No single character other than a digit is a number: a sign or a space alone leaves no digits, the menu letters are no digits. */
  lemma LetterIsNotNumber(c: char)
    requires !IsDigit(c)
    ensures ParseInt([c]) == None
  {
    var t: string := [c];
    if IsIntSpace(c) {
      assert TrimStart(t[1..], IsIntSpace) == [];
      assert TrimStart(t, IsIntSpace) == [];
      assert StripBy(t, IsIntSpace) == [];
    } else {
      assert TrimStart(t, IsIntSpace) == t;
      assert TrimEnd(t, IsIntSpace) == t;
      assert !WellFormedDigits(t);
      assert !WellFormedDigits(t[1..]);
    }
  }
}
