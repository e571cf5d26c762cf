/**
 * The pieces of Python's built-in text handling that the backend relies on:
 * `str.strip()` with no argument, `str(n)` of an integer (also what an
 * f-string renders), and `int(s)` of a string in base 10.
 */
module PyText {
  import opened Maybe

  /** Python's `str.isspace()` for one character. */
  predicate IsSpace(c: char) {
    var n := c as int;
    (9 <= n <= 13) || (28 <= n <= 32) || n == 0x85 || n == 0xA0 || n == 0x1680
    || (0x2000 <= n <= 0x200A) || n == 0x2028 || n == 0x2029 || n == 0x202F
    || n == 0x205F || n == 0x3000
  }

  /**
   * The two kinds of whitespace the backend strips. `str.strip()` removes
   * every `str.isspace()` character. `int()` of a `str` skips fewer: CPython
   * hands ASCII characters unchanged to a parser that skips only the ASCII
   * blanks, so the separators U+001C..U+001F, although `isspace()`, make
   * `int()` raise.
   */
  datatype Blanks = StrBlanks | IntBlanks

  predicate IsBlank(b: Blanks, c: char) {
    IsSpace(c) && (b == IntBlanks ==> !(28 <= c as int <= 31))
  }

  predicate AllBlank(b: Blanks, s: string) {
    forall k :: 0 <= k < |s| ==> IsBlank(b, s[k])
  }

  /** How many blanks `s` starts with. */
  function Leading(s: string, b: Blanks): (n: nat)
    ensures n <= |s|
    ensures forall k :: 0 <= k < n ==> IsBlank(b, s[k])
    ensures n < |s| ==> !IsBlank(b, s[n])
  {
    if s != [] && IsBlank(b, s[0]) then 1 + Leading(s[1..], b) else 0
  }

  /** How many blanks `s` ends with. */
  function Trailing(s: string, b: Blanks): (n: nat)
    ensures n <= |s|
    ensures forall k :: |s| - n <= k < |s| ==> IsBlank(b, s[k])
    ensures n < |s| ==> !IsBlank(b, s[|s| - n - 1])
  {
    if s != [] && IsBlank(b, s[|s| - 1]) then 1 + Trailing(s[..|s| - 1], b) else 0
  }

  /**
   * `s` without the blanks at either end: the slice `s[i..j]` where
   * everything before `i` and from `j` on is blank, and the result neither
   * starts nor ends with a blank. It is empty exactly when `s` is all blanks.
   */
  function Trim(s: string, b: Blanks): (r: string)
    ensures var i := Leading(s, b);
      && i + |r| <= |s| && r == s[i..i + |r|]
      && (forall k :: 0 <= k < i ==> IsBlank(b, s[k]))
      && (forall k :: i + |r| <= k < |s| ==> IsBlank(b, s[k]))
    ensures r != [] ==> !IsBlank(b, r[0]) && !IsBlank(b, r[|r| - 1])
    ensures r == [] <==> AllBlank(b, s)
  {
    var i := Leading(s, b);
    if i == |s| then []
    else
      var n := Trailing(s, b);
      assert i < |s| - n;
      s[i..|s| - n]
  }

  /** `s.strip()` with no argument. */
  function Strip(s: string): string {
    Trim(s, StrBlanks)
  }

  /** A string that has no blank at either end is left as it is. */
  lemma TrimUntouched(s: string, b: Blanks)
    requires s == [] || (!IsBlank(b, s[0]) && !IsBlank(b, s[|s| - 1]))
    ensures Trim(s, b) == s
  {
    assert Leading(s, b) == 0;
    assert Trailing(s, b) == 0;
  }

  /** Trimming twice is the same as trimming once. */
  lemma TrimIdempotent(s: string, b: Blanks)
    ensures Trim(Trim(s, b), b) == Trim(s, b)
  {
    TrimUntouched(Trim(s, b), b);
  }

  /** A separator such as U+001C is removed by `str.strip()` but not skipped by `int()`. */
  lemma SeparatorOnlyStripped()
    ensures Strip([28 as char] + "5") == "5"
    ensures Trim([28 as char] + "5", IntBlanks) == [28 as char] + "5"
  {
    var s := [28 as char] + "5";
    assert Leading(s[1..], StrBlanks) == 0;
    assert Trailing(s, StrBlanks) == 0;
    TrimUntouched(s, IntBlanks);
  }

  predicate IsDigit(c: char) {
    '0' <= c <= '9'
  }

  predicate AllDigits(s: string) {
    forall k :: 0 <= k < |s| ==> IsDigit(s[k])
  }

  function DigitChar(d: nat): (c: char)
    requires d < 10
    ensures IsDigit(c) && c as int - '0' as int == d
  {
    ('0' as int + d) as char
  }

  /** Decimal digits of a natural number, without leading zeros. */
  function NatToString(n: nat): (r: string)
    ensures |r| >= 1 && AllDigits(r)
    ensures |r| > 1 ==> r[0] != '0'
    decreases n
  {
    if n < 10 then [DigitChar(n)] else NatToString(n / 10) + [DigitChar(n % 10)]
  }

  /** `str(n)` for a Python int. */
  function IntToString(n: int): string {
    if n < 0 then "-" + NatToString(-n) else NatToString(n)
  }

  /** The number a string of decimal digits denotes (leading zeros allowed). */
  function DecimalValue(ds: string): nat
    requires AllDigits(ds)
  {
    if ds == [] then 0
    else DecimalValue(ds[..|ds| - 1]) * 10 + (ds[|ds| - 1] as int - '0' as int)
  }

  /** The digits of `s` with its underscores taken out. */
  function DropUnderscores(s: string): (r: string)
    ensures |r| <= |s|
    ensures forall k :: 0 <= k < |r| ==> r[k] != '_' && r[k] in s
  {
    if s == [] then []
    else (if s[0] == '_' then [] else [s[0]]) + DropUnderscores(s[1..])
  }

  /**
   * The digit part Python's `int()` accepts in base 10: one or more digits,
   * where single underscores may separate two digits.
   */
  predicate DigitGroups(s: string) {
    && |s| > 0 && IsDigit(s[0]) && IsDigit(s[|s| - 1])
    && (forall k :: 0 <= k < |s| ==> IsDigit(s[k]) || s[k] == '_')
    && NoDoubleUnderscore(s)
  }

  /** No two adjacent underscores. */
  predicate NoDoubleUnderscore(s: string) {
    |s| < 2 || (!(s[0] == '_' && s[1] == '_') && NoDoubleUnderscore(s[1..]))
  }

  function GroupsValue(s: string): nat
    requires DigitGroups(s)
  {
    var ds := DropUnderscores(s);
    assert AllDigits(ds) by {
      forall k | 0 <= k < |ds| ensures IsDigit(ds[k]) {
        var c := ds[k];
        assert c in s;
        var j :| 0 <= j < |s| && s[j] == c;
      }
    }
    DecimalValue(ds)
  }

  /**
   * CPython's limit on the digits of a base-10 int/str conversion
   * (`sys.int_info.default_max_str_digits`, since Python 3.11): `int()`
   * of a string with more digits raises `ValueError`, underscores not
   * counted.
   */
  const MaxStrDigits: nat := 4300

  function Pow10(k: nat): (r: nat)
    ensures r >= 1
  {
    if k == 0 then 1 else 10 * Pow10(k - 1)
  }

  /**
   * `int(s)` for a `str` in base 10: the blanks `int()` skips are ignored at either end, then
   * an optional sign, then digit groups of at most `MaxStrDigits` digits;
   * anything else is a `ValueError`, here `None`.
   */
  function ParseInt(s: string): Option<int> {
    ParseSigned(Trim(s, IntBlanks))
  }

  /** What `int()` accepts once the whitespace is gone: an optional sign, then digit groups. */
  function ParseSigned(t: string): Option<int> {
    if t != [] && (t[0] == '+' || t[0] == '-') then
      if WithinLimit(t[1..]) then
        var v: int := GroupsValue(t[1..]);
        Some(if t[0] == '-' then -v else v)
      else None
    else if WithinLimit(t) then Some(GroupsValue(t))
    else None
  }

  /** Digit groups of at most `MaxStrDigits` digits. */
  predicate WithinLimit(d: string) {
    DigitGroups(d) && |DropUnderscores(d)| <= MaxStrDigits
  }

  lemma {:induction false} DecimalValueOfNatToString(n: nat)
    ensures DecimalValue(NatToString(n)) == n
    decreases n
  {
    if n >= 10 {
      var s := NatToString(n / 10);
      var t := s + [DigitChar(n % 10)];
      assert t[..|t| - 1] == s;
      DecimalValueOfNatToString(n / 10);
    }
  }

  lemma {:induction false} DropUnderscoresOfDigits(s: string)
    requires AllDigits(s)
    ensures DropUnderscores(s) == s && NoDoubleUnderscore(s)
  {
    if s != [] {
      assert AllDigits(s[1..]) by {
        forall k | 0 <= k < |s[1..]| ensures IsDigit(s[1..][k]) { assert s[1..][k] == s[k + 1]; }
      }
      DropUnderscoresOfDigits(s[1..]);
    }
  }

  /** A plain string of digits is one digit group, denoting its decimal value. */
  lemma {:induction false} DigitsAreGroups(ds: string)
    requires ds != [] && AllDigits(ds)
    ensures DigitGroups(ds) && GroupsValue(ds) == DecimalValue(ds)
  {
    DropUnderscoresOfDigits(ds);
  }

  /** Digits, with or without a minus sign in front, have no whitespace to strip. */
  lemma {:induction false} DigitsUnpadded(ds: string)
    requires ds != [] && AllDigits(ds)
    ensures Trim(ds, IntBlanks) == ds && Trim("-" + ds, IntBlanks) == "-" + ds
  {
    assert IsDigit(ds[0]) && IsDigit(ds[|ds| - 1]);
    TrimUntouched(ds, IntBlanks);
    NegativeUnpadded(ds);
  }

  lemma {:induction false} NegativeUnpadded(ds: string)
    requires ds != [] && IsDigit(ds[|ds| - 1])
    ensures Trim("-" + ds, IntBlanks) == "-" + ds
  {
    var t := "-" + ds;
    assert t[|t| - 1] == ds[|ds| - 1];
    TrimUntouched(t, IntBlanks);
  }

  lemma {:induction false} ParseDigits(ds: string)
    requires ds != [] && AllDigits(ds) && |ds| <= MaxStrDigits
    ensures ParseInt(ds) == Some(DecimalValue(ds) as int)
  {
    DigitsUnpadded(ds);
    SignedDigits(ds);
  }

  lemma {:induction false} SignedDigits(ds: string)
    requires ds != [] && AllDigits(ds) && |ds| <= MaxStrDigits
    ensures ParseSigned(ds) == Some(DecimalValue(ds) as int)
  {
    GroupsOfDigits(ds);
    assert IsDigit(ds[0]);
  }

  lemma {:induction false} GroupsOfDigits(ds: string)
    requires ds != [] && AllDigits(ds) && |ds| <= MaxStrDigits
    ensures WithinLimit(ds) && GroupsValue(ds) == DecimalValue(ds)
  {
    DigitsAreGroups(ds);
    DropUnderscoresOfDigits(ds);
  }

  lemma {:induction false} ParseNegativeDigits(ds: string)
    requires ds != [] && AllDigits(ds) && |ds| <= MaxStrDigits
    ensures ParseInt("-" + ds) == Some(-(DecimalValue(ds) as int))
  {
    NegativeUnpadded(ds);
    GroupsOfDigits(ds);
    SignedNegative(ds);
  }

  lemma {:induction false} SignedNegative(d: string)
    requires WithinLimit(d)
    ensures ParseSigned("-" + d) == Some(-(GroupsValue(d) as int))
  {
    assert ("-" + d)[1..] == d;
  }

  /**
   * `int(str(n)) == n` for every integer whose `str()` CPython can produce:
   * one of at most `MaxStrDigits` digits.
   */
  lemma ParseIntOfIntToString(n: int)
    requires |NatToString(if n < 0 then -n else n)| <= MaxStrDigits
    ensures ParseInt(IntToString(n)) == Some(n)
  {
    var m: nat := if n < 0 then -n else n;
    var ds := NatToString(m);
    DecimalValueOfNatToString(m);
    if n < 0 {
      assert IntToString(n) == "-" + ds;
      ParseNegativeDigits(ds);
    } else {
      assert IntToString(n) == ds;
      ParseDigits(ds);
    }
  }

  /** Past the digit limit `int()` raises, with or without a sign. */
  lemma {:induction false} TooManyDigits(ds: string)
    requires AllDigits(ds) && |ds| > MaxStrDigits
    ensures ParseInt(ds) == None && ParseInt("-" + ds) == None
  {
    DigitsUnpadded(ds);
    GroupsTooLong(ds);
    assert IsDigit(ds[0]);
    assert ("-" + ds)[1..] == ds;
  }

  lemma {:induction false} GroupsTooLong(ds: string)
    requires AllDigits(ds) && |ds| > MaxStrDigits
    ensures !WithinLimit(ds)
  {
    DropUnderscoresOfDigits(ds);
  }

  lemma {:induction false} DecimalValueBelow(ds: string)
    requires AllDigits(ds)
    ensures DecimalValue(ds) < Pow10(|ds|)
    decreases |ds|
  {
    if ds != [] {
      var init := ds[..|ds| - 1];
      assert AllDigits(init) by {
        forall k | 0 <= k < |init| ensures IsDigit(init[k]) { assert init[k] == ds[k]; }
      }
      DecimalValueBelow(init);
    }
  }

  lemma {:induction false} Pow10Grows(j: nat, k: nat)
    requires j <= k
    ensures Pow10(j) <= Pow10(k)
    decreases k
  {
    if j < k {
      Pow10Grows(j, k - 1);
    }
  }

  /** Every integer `int()` returns has fewer than `MaxStrDigits + 1` digits. */
  lemma {:induction false} ParseIntBounded(s: string)
    ensures ParseInt(s).Some? ==> -(Pow10(MaxStrDigits) as int) < ParseInt(s).value < Pow10(MaxStrDigits)
  {
    var t := Trim(s, IntBlanks);
    var d := if t != [] && (t[0] == '+' || t[0] == '-') then t[1..] else t;
    if WithinLimit(d) {
      GroupsBelow(d);
    }
  }

  lemma {:induction false} GroupsBelow(d: string)
    requires WithinLimit(d)
    ensures GroupsValue(d) < Pow10(MaxStrDigits)
  {
    var ds := DropUnderscores(d);
    assert AllDigits(ds) by {
      forall k | 0 <= k < |ds| ensures IsDigit(ds[k]) {
        var c := ds[k];
        assert c in d;
        var j :| 0 <= j < |d| && d[j] == c;
      }
    }
    DecimalValueBelow(ds);
    Pow10Grows(|ds|, MaxStrDigits);
  }
}
