/** Python's `int(s)` on a string, base 10, as a partial parse: surrounding
    whitespace is ignored, an optional `+` or `-` sign is followed by ASCII
    digits, and single underscores may separate digits. `None` stands for the
    `ValueError` Python raises. `Show` renders an integer in decimal, giving the
    parse a right inverse. */
module PyInt {
  import opened Wrappers

  /** The characters `int()` skips around a number. Below U+007F these are
      only tab, line feed, vertical tab, form feed, carriage return and space
      (the C-level ASCII whitespace test); the separators U+001C-U+001F, which
      `str.isspace()` accepts, are not skipped. From U+007F up they are the
      characters `str.isspace()` accepts. */
  predicate IsSpace(ch: char)
  {
    var k := ch as int;
    (0x09 <= k <= 0x0D) || k == 0x20 || k == 0x85 || k == 0xA0 || k == 0x1680 ||
    (0x2000 <= k <= 0x200A) || k == 0x2028 || k == 0x2029 || k == 0x202F || k == 0x205F || k == 0x3000
  }

  predicate IsDigit(ch: char)
  {
    '0' <= ch <= '9'
  }

  function DigitValue(ch: char): nat
    requires IsDigit(ch)
  {
    ch as int - '0' as int
  }

  function DigitChar(d: nat): (ch: char)
    requires d < 10
    ensures IsDigit(ch) && DigitValue(ch) == d
  {
    ('0' as int + d) as char
  }

  /** Drops leading whitespace. */
  function TrimStart(s: string): (r: string)
    decreases |s|
  {
    if |s| > 0 && IsSpace(s[0]) then TrimStart(s[1..]) else s
  }

  /** Drops trailing whitespace. */
  function TrimEnd(s: string): (r: string)
    decreases |s|
  {
    if |s| > 0 && IsSpace(s[|s| - 1]) then TrimEnd(s[..|s| - 1]) else s
  }

  /** What is left after trimming the end is a prefix of the string. */
  lemma {:induction false} TrimEndPrefix(s: string)
    ensures TrimEnd(s) <= s
    decreases |s|
  {
    if |s| > 0 && IsSpace(s[|s| - 1]) {
      TrimEndPrefix(s[..|s| - 1]);
    }
  }

  /** The whitespace `int()` ignores, removed from both ends. */
  function Strip(s: string): string
  {
    TrimEnd(TrimStart(s))
  }

  /** A digit run as `int()` accepts it: it starts with a digit, and every
      underscore sits directly before a digit (so none is doubled or last). */
  predicate ValidDigits(d: string)
  {
    |d| > 0 && IsDigit(d[0]) && forall i :: 0 <= i < |d| ==> DigitOrJoiner(d, i)
  }

  /** Position `i` of `d` holds a digit, or an underscore followed by a digit. */
  predicate DigitOrJoiner(d: string, i: nat)
    requires i < |d|
  {
    IsDigit(d[i]) || (d[i] == '_' && i + 1 < |d| && IsDigit(d[i + 1]))
  }

  /** The decimal value of a run of digits and underscores, underscores ignored. */
  function Value(d: string): nat
  {
    if |d| == 0 then 0
    else if IsDigit(d[|d| - 1]) then Value(d[..|d| - 1]) * 10 + DigitValue(d[|d| - 1])
    else Value(d[..|d| - 1])
  }

  /** Python's `int(s)`; `None` where Python raises `ValueError`. */
  function ParseInt(s: string): Option<int>
  {
    var b := Strip(s);
    if |b| > 0 && (b[0] == '+' || b[0] == '-') then
      var v: int := Value(b[1..]);
      if ValidDigits(b[1..]) then Some(if b[0] == '-' then -v else v) else None
    else if ValidDigits(b) then Some(Value(b))
    else None
  }

  /** The decimal digits of a natural number, without leading zeros. */
  function ShowNat(n: nat): (r: string)
    ensures |r| > 0
    ensures forall i :: 0 <= i < |r| ==> IsDigit(r[i])
  {
    if n < 10 then [DigitChar(n)] else ShowNat(n / 10) + [DigitChar(n % 10)]
  }

  /** Python's `str(n)` for an integer. */
  function Show(n: int): (r: string)
    ensures forall i :: 0 <= i < |r| ==> IsDigit(r[i]) || (i == 0 && r[i] == '-')
  {
    if n < 0 then "-" + ShowNat(-n) else ShowNat(n)
  }

  lemma {:induction false} ValueShowNat(n: nat)
    ensures Value(ShowNat(n)) == n
  {
    if n >= 10 {
      var s := ShowNat(n);
      assert s[..|s| - 1] == ShowNat(n / 10);
      ValueShowNat(n / 10);
    }
  }

  /** A string whose ends are not skipped whitespace is its own strip. */
  lemma StripUnchanged(s: string)
    requires |s| > 0 && !IsSpace(s[0]) && !IsSpace(s[|s| - 1])
    ensures Strip(s) == s
  {
  }

  /** The decimal rendering of a natural number is a digit run of that value. */
  lemma ShowNatDigits(n: nat)
    ensures ValidDigits(ShowNat(n)) && Value(ShowNat(n)) == n
  {
    var s := ShowNat(n);
    ValueShowNat(n);
    assert forall i :: 0 <= i < |s| ==> DigitOrJoiner(s, i);
  }

  /** A string that strips to a minus sign parses exactly when the rest is a
      digit run, to its value negated. */
  lemma ParseNegative(s: string)
    requires |Strip(s)| > 0 && Strip(s)[0] == '-'
    ensures ParseInt(s) == if ValidDigits(Strip(s)[1..]) then Some(-(Value(Strip(s)[1..]) as int)) else None
  {
  }

  /** A string that strips to a plus sign parses exactly when the rest is a
      digit run, to its value. */
  lemma ParsePositive(s: string)
    requires |Strip(s)| > 0 && Strip(s)[0] == '+'
    ensures ParseInt(s) == if ValidDigits(Strip(s)[1..]) then Some(Value(Strip(s)[1..]) as int) else None
  {
  }

  /** A string that strips to nothing, or to something starting with neither
      a digit nor a sign, does not parse. */
  lemma ParseNoNumber(s: string)
    requires |Strip(s)| == 0 || (!IsDigit(Strip(s)[0]) && Strip(s)[0] != '+' && Strip(s)[0] != '-')
    ensures ParseInt(s) == None
  {
  }

  /** Neither a digit, a minus sign nor an underscore is whitespace. */
  lemma DigitNotSpace(ch: char)
    requires IsDigit(ch) || ch == '-' || ch == '_'
    ensures !IsSpace(ch)
  {
  }

  /** The decimal rendering of a natural number parses back to it. */
  lemma ParseShowNat(n: nat)
    ensures ParseInt(ShowNat(n)) == Some(n)
  {
    var s := ShowNat(n);
    ShowNatDigits(n);
    DigitNotSpace(s[0]);
    DigitNotSpace(s[|s| - 1]);
    StripUnchanged(s);
    ParseUnsigned(s);
  }

  /** A decimal rendering with one extra leading zero parses to the same
      number. */
  lemma ParseZeroPadded(n: nat)
    ensures ParseInt("0" + ShowNat(n)) == Some(n)
  {
    var d := ShowNat(n);
    var s := "0" + d;
    ShowNatDigits(n);
    assert ValidDigits(s) by {
      assert forall i :: 0 <= i < |s| ==> DigitOrJoiner(s, i);
    }
    DigitNotSpace(s[0]);
    DigitNotSpace(s[|s| - 1]);
    StripUnchanged(s);
    ParseUnsigned(s);
    ValueLeadingZero(d);
  }

  /** Parsing the decimal rendering of any integer gives the integer back. */
  lemma ParseShow(n: int)
    ensures ParseInt(Show(n)) == Some(n)
  {
    if n < 0 {
      var s := Show(n);
      var d := ShowNat(-n);
      ShowNatDigits(-n);
      assert s[1..] == d;
      DigitNotSpace(s[0]);
      DigitNotSpace(s[|s| - 1]);
      StripUnchanged(s);
      ParseNegative(s);
    } else {
      ParseShowNat(n);
    }
  }

  /** A leading zero digit does not change the value. */
  lemma {:induction false} ValueLeadingZero(d: string)
    ensures Value("0" + d) == Value(d)
  {
    if |d| > 0 {
      var z := "0" + d;
      assert z[..|z| - 1] == "0" + d[..|d| - 1];
      ValueLeadingZero(d[..|d| - 1]);
    }
  }

  /** Trailing whitespace is stripped past a leading non-whitespace character. */
  lemma {:induction false} TrimEndCons(ch: char, t: string)
    requires !IsSpace(ch)
    ensures TrimEnd([ch] + t) == [ch] + TrimEnd(t)
    decreases |t|
  {
    var s := [ch] + t;
    if |t| > 0 && IsSpace(t[|t| - 1]) {
      assert s[..|s| - 1] == [ch] + t[..|t| - 1];
      TrimEndCons(ch, t[..|t| - 1]);
    }
  }

  /** Dropping a leading zero from a digit run whose next character is a
      digit keeps it a digit run. */
  lemma ValidDigitsTail(e: string)
    requires |e| > 0 && IsDigit(e[0]) && ValidDigits("0" + e)
    ensures ValidDigits(e)
  {
    var z := "0" + e;
    assert ValidDigits(z);
    forall i | 0 <= i < |e|
      ensures DigitOrJoiner(e, i)
    {
      var k := i + 1;
      assert DigitOrJoiner(z, k);
      assert e[i] == z[k];
      if k < |e| {
        assert e[k] == z[k + 1];
      }
    }
  }

  /** A string that strips to something starting with a digit parses as an
      unsigned digit run. */
  lemma ParseUnsigned(s: string)
    requires |Strip(s)| > 0 && IsDigit(Strip(s)[0])
    ensures ParseInt(s) == if ValidDigits(Strip(s)) then Some(Value(Strip(s))) else None
  {
  }

  /** After a leading zero, a digit run continues with a digit or an underscore. */
  lemma SecondOfDigits(e: string)
    requires |e| > 0 && ValidDigits("0" + e)
    ensures IsDigit(e[0]) || e[0] == '_'
  {
    var z := "0" + e;
    assert DigitOrJoiner(z, 1);
  }

  /** A leading zero survives stripping; only the tail's trailing whitespace goes. */
  lemma StripLeadingZero(t: string)
    ensures Strip("0" + t) == "0" + TrimEnd(t)
  {
    assert TrimStart("0" + t) == "0" + t;
    TrimEndCons('0', t);
  }

  /** A string starting with a digit or an underscore has no leading whitespace. */
  lemma NotSpace(t: string)
    requires |t| > 0 && (IsDigit(t[0]) || t[0] == '_')
    ensures TrimStart(t) == t
  {
    DigitNotSpace(t[0]);
  }

  /** A digit run cannot begin with an underscore. */
  lemma ParseUnderscore(s: string)
    requires |Strip(s)| > 0 && Strip(s)[0] == '_'
    ensures ParseInt(s) == None
  {
  }

  /** Whitespace alone does not parse. */
  lemma ParseBlank(s: string)
    requires TrimEnd(s) == ""
    ensures ParseInt(s) == None
  {
    TrimEndAllSpace(s);
    TrimStartSpaces(s);
  }

  /** Whenever both `t` and `"0" + t` parse, they parse to the same integer. */
  lemma ParseLeadingZero(t: string)
    requires ParseInt(t).Some? && ParseInt("0" + t).Some?
    ensures ParseInt("0" + t) == ParseInt(t)
  {
    var e := TrimEnd(t);
    StripLeadingZero(t);
    ParseUnsigned("0" + t);
    if |e| == 0 {
      ParseBlank(t);
      assert false;
    }
    SecondOfDigits(e);
    TrimEndPrefix(t);
    assert e[0] == t[0];
    NotSpace(t);
    assert Strip(t) == e;
    if !IsDigit(e[0]) {
      ParseUnderscore(t);
      assert false;
    }
    ValidDigitsTail(e);
    ParseUnsigned(t);
    ValueLeadingZero(e);
  }

  /** A string that strips to nothing at the end is all whitespace. */
  lemma {:induction false} TrimEndAllSpace(t: string)
    requires TrimEnd(t) == ""
    ensures forall i :: 0 <= i < |t| ==> IsSpace(t[i])
    decreases |t|
  {
    if |t| > 0 {
      var u := t[..|t| - 1];
      TrimEndAllSpace(u);
      assert forall i :: 0 <= i < |u| ==> t[i] == u[i];
    }
  }

  lemma {:induction false} TrimStartSpaces(t: string)
    requires forall i :: 0 <= i < |t| ==> IsSpace(t[i])
    ensures TrimStart(t) == ""
    decreases |t|
  {
    if |t| > 0 {
      TrimStartSpaces(t[1..]);
    }
  }

  /** The ASCII information separators are not skipped: a number behind a
      file separator (U+001C) or a unit separator (U+001F) does not parse,
      while one behind a tab or a non-breaking space does. */
  lemma ParseSeparatorExample()
    ensures ParseInt("\U{1C}7") == None
    ensures ParseInt("7\U{1F}") == None
    ensures ParseInt("\t7") == Some(7)
    ensures ParseInt("\U{A0}7") == Some(7)
  {
    StripUnchanged("\U{1C}7");
    StripUnchanged("7\U{1F}");
    assert !ValidDigits("7\U{1F}") by { assert !DigitOrJoiner("7\U{1F}", 1); }
    assert TrimStart("\t7") == "7";
    assert TrimStart("\U{A0}7") == "7";
    StripUnchanged("7");
  }
}
