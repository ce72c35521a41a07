/** JavaScript's `parseInt(text, 10)` on route parameters, and the decimal
    rendering of a page number that a template literal puts into a path. */
module ParseInt {
  import opened Wrappers

  predicate IsDigit(c: char) {
    '0' <= c <= '9'
  }

  predicate HasDigit(s: string) {
    exists i :: 0 <= i < |s| && IsDigit(s[i])
  }

  predicate AllDigits(s: string) {
    forall i :: 0 <= i < |s| ==> IsDigit(s[i])
  }

  /** The white space `parseInt` skips before the number (ECMAScript
      WhiteSpace and LineTerminator; of the Unicode "Zs" category only the
      space and the no-break space are listed). */
  predicate IsJsSpace(c: char) {
    c == ' ' || c == '\t' || c == '\n' || c == '\r' || c == '\U{B}' || c == '\U{C}' ||
    c == '\U{A0}' || c == '\U{2028}' || c == '\U{2029}' || c == '\U{FEFF}'
  }

  function DigitValue(c: char): (d: nat)
    requires IsDigit(c)
    ensures d < 10
  {
    (c as int) - ('0' as int)
  }

  function DigitChar(d: nat): (c: char)
    requires d < 10
    ensures IsDigit(c) && DigitValue(c) == d
  {
    ('0' as int + d) as char
  }

  /** The value of a string of decimal digits, most significant first. */
  function DigitsValue(ds: string): nat
    requires AllDigits(ds)
  {
    if ds == [] then 0 else DigitsValue(ds[..|ds| - 1]) * 10 + DigitValue(ds[|ds| - 1])
  }

  /** The white space at the front of `s` removed. */
  function TrimStart(s: string): (t: string)
    ensures |t| <= |s| && t == s[|s| - |t|..]
    ensures t == [] || !IsJsSpace(t[0])
    ensures forall i :: 0 <= i < |s| - |t| ==> IsJsSpace(s[i])
  {
    if s != [] && IsJsSpace(s[0]) then
      var t := TrimStart(s[1..]);
      assert forall i :: 1 <= i < |s| - |t| ==> s[i] == s[1..][i - 1];
      t
    else s
  }

  /** The longest run of digits at the front of `s`. */
  function DigitPrefix(s: string): (p: string)
    ensures |p| <= |s| && p == s[..|p|] && AllDigits(p)
    ensures |p| == |s| || !IsDigit(s[|p|])
  {
    if s != [] && IsDigit(s[0]) then [s[0]] + DigitPrefix(s[1..]) else []
  }

  /** The number at the front of `u`: the longest run of decimal digits,
      or NaN (`None`) when `u` does not start with a digit. */
  function LeadingNumber(u: string): Option<int> {
    var ds := DigitPrefix(u);
    if ds == [] then None else Some(DigitsValue(ds))
  }

  /** The number with a minus sign in front; NaN stays NaN. */
  function Negated(n: Option<int>): Option<int> {
    match n
    case Some(v) => Some(-v)
    case None => None
  }

  /** `parseInt(s, 10)`: skip leading white space, read an optional sign and
      then the longest run of decimal digits; everything after it is ignored.
      No digit at all gives NaN, written `None`. */
  function Parse(s: string): (r: Option<int>)
    ensures r.Some? ==> HasDigit(s)
  {
    var t := TrimStart(s);
    if t != [] && t[0] == '-' then
      Negated(LeadingNumber(t[1..]))
    else if t != [] && t[0] == '+' then LeadingNumber(t[1..])
    else LeadingNumber(t)
  }

  /** Removing a run of white space stops at the first other character. */
  lemma {:induction false} TrimStartSpaces(ws: string, u: string)
    requires forall i :: 0 <= i < |ws| ==> IsJsSpace(ws[i])
    requires u == [] || !IsJsSpace(u[0])
    ensures TrimStart(ws + u) == u
  {
    if ws == [] {
      assert ws + u == u;
    } else {
      assert (ws + u)[0] == ws[0];
      assert (ws + u)[1..] == ws[1..] + u;
      TrimStartSpaces(ws[1..], u);
    }
  }

  /** `parseInt` in general: white space, then an optional sign, then a
      non-empty run of digits (leading zeros allowed), then text that does
      not start with a digit, reads as the run's value with the sign. */
  lemma ParseDecimal(ws: string, ds: string, rest: string)
    requires forall i :: 0 <= i < |ws| ==> IsJsSpace(ws[i])
    requires ds != [] && AllDigits(ds)
    requires rest == [] || !IsDigit(rest[0])
    ensures Parse(ws + ds + rest) == Some(DigitsValue(ds))
    ensures Parse(ws + "+" + ds + rest) == Some(DigitsValue(ds))
  {
    var u := ds + rest;
    LeadingDigits(ds, rest);
    assert Parse(ws + ds + rest) == Some(DigitsValue(ds)) by {
      assert ws + ds + rest == ws + u;
      ParseUnsigned(ws, u);
    }
    assert Parse(ws + "+" + ds + rest) == Some(DigitsValue(ds)) by {
      Regroup(ws, "+", ds, rest);
      assert ws + "+" + ds + rest == ws + ("+" + u);
      ParsePlus(ws, u);
      assert Parse(ws + ("+" + u)) == LeadingNumber(u);
    }
  }

  /** With a minus sign, after the same white space, the value is negated. */
  lemma ParseDecimalNegative(ws: string, ds: string, rest: string)
    requires forall i :: 0 <= i < |ws| ==> IsJsSpace(ws[i])
    requires ds != [] && AllDigits(ds)
    requires rest == [] || !IsDigit(rest[0])
    ensures Parse(ws + "-" + ds + rest) == Negated(Parse(ws + ds + rest))
  {
    var u := ds + rest;
    LeadingDigits(ds, rest);
    assert Parse(ws + ds + rest) == LeadingNumber(u) by {
      assert ws + ds + rest == ws + u;
      ParseUnsigned(ws, u);
    }
    assert Parse(ws + "-" + ds + rest) == Negated(LeadingNumber(u)) by {
      Regroup(ws, "-", ds, rest);
      ParseMinus(ws, u);
    }
  }

  /** The converse of `ParseDecimal`: when what follows the white space and
      at most one sign does not start with a digit, the result is NaN, even
      if digits come later (`"x5"`, `"-x1"`, `"+-5"`). */
  lemma ParseNotANumber(ws: string, sign: string, u: string)
    requires forall i :: 0 <= i < |ws| ==> IsJsSpace(ws[i])
    requires sign == "" || sign == "+" || sign == "-"
    requires u == [] || !IsDigit(u[0])
    requires sign == "" ==> u == [] || (!IsJsSpace(u[0]) && u[0] != '+' && u[0] != '-')
    ensures Parse(ws + sign + u) == None
  {
    assert LeadingNumber(u) == None by {
      assert DigitPrefix(u) == [];
    }
    assert ws + sign + u == ws + (sign + u);
    if sign == "+" {
      ParsePlus(ws, u);
    } else if sign == "-" {
      ParseMinus(ws, u);
    } else {
      assert sign + u == u;
      ParseBare(ws, u);
    }
  }

  lemma ParseBare(ws: string, u: string)
    requires forall i :: 0 <= i < |ws| ==> IsJsSpace(ws[i])
    requires u == [] || (!IsJsSpace(u[0]) && u[0] != '+' && u[0] != '-')
    ensures Parse(ws + u) == LeadingNumber(u)
  {
    TrimStartSpaces(ws, u);
  }

  lemma Regroup(a: string, b: string, c: string, d: string)
    ensures a + b + c + d == a + (b + (c + d))
  {
  }

  /** A non-empty run of digits followed by a non-digit is the number read. */
  lemma LeadingDigits(ds: string, rest: string)
    requires ds != [] && AllDigits(ds)
    requires rest == [] || !IsDigit(rest[0])
    ensures (ds + rest) != [] && IsDigit((ds + rest)[0])
    ensures LeadingNumber(ds + rest) == Some(DigitsValue(ds))
  {
    DigitPrefixOfDigits(ds, rest);
    assert (ds + rest)[0] == ds[0];
  }

  lemma ParseUnsigned(ws: string, u: string)
    requires forall i :: 0 <= i < |ws| ==> IsJsSpace(ws[i])
    requires u != [] && IsDigit(u[0])
    ensures Parse(ws + u) == LeadingNumber(u)
  {
    TrimStartSpaces(ws, u);
  }

  lemma ParsePlus(ws: string, u: string)
    requires forall i :: 0 <= i < |ws| ==> IsJsSpace(ws[i])
    ensures Parse(ws + ("+" + u)) == LeadingNumber(u)
  {
    var t := "+" + u;
    assert t[0] == '+';
    TrimStartSpaces(ws, t);
    assert t[1..] == u;
  }

  lemma ParseMinus(ws: string, u: string)
    requires forall i :: 0 <= i < |ws| ==> IsJsSpace(ws[i])
    ensures Parse(ws + ("-" + u)) ==
      Negated(LeadingNumber(u))
  {
    var t := "-" + u;
    assert t[0] == '-';
    TrimStartSpaces(ws, t);
    assert t[1..] == u;
  }

  /** A few inputs read as `parseInt` reads them: leading white space and
      zeros are skipped, a sign must touch the digits, and with radix 10 a
      `0x` prefix reads as 0. */
  lemma ParseExamples()
    ensures Parse("  007x") == Some(7)
    ensures Parse("+5") == Some(5)
    ensures Parse("0x10") == Some(0)
    ensures Parse("- 5") == None
  {
    ParseLeadingZeros();
    ParseSignedFive();
    ParseHexPrefix("10");
    assert "0x" + "10" == "0x10";
    ParseDetachedSign();
  }

  lemma ParseLeadingZeros()
    ensures Parse("  007x") == Some(7)
  {
    assert "  " + "007" + "x" == "  007x";
    assert AllDigits("007") && DigitsValue("007") == 7 by {
      assert "007"[..2] == "00" && "00"[..1] == "0" && "0"[..0] == [];
    }
    ParseDecimal("  ", "007", "x");
  }

  lemma ParseSignedFive()
    ensures Parse("+5") == Some(5)
  {
    var ws: string := [];
    assert ws + "+" + "5" + [] == "+5";
    assert DigitsValue("5") == 5 by { assert "5"[..0] == []; }
    ParseDecimal(ws, "5", []);
  }

  /** A sign separated from the digits by a space is NaN. */
  lemma ParseDetachedSign()
    ensures Parse("- 5") == None
  {
    assert TrimStart("- 5") == "- 5";
    assert "- 5"[1..] == " 5";
    assert DigitPrefix(" 5") == [];
  }

  /** With radix 10, a `0x` prefix stops the digits after the zero. */
  lemma ParseHexPrefix(hex: string)
    ensures Parse("0x" + hex) == Some(0)
  {
    var s := "0x" + hex;
    assert s[0] == '0' && IsDigit(s[0]) && !IsJsSpace(s[0]);
    assert TrimStart(s) == s;
    assert s == "0" + ("x" + hex);
    DigitPrefixOfDigits("0", "x" + hex);
    assert DigitsValue("0") == 0 by { assert "0"[..0] == []; }
  }

  /** The decimal rendering of a natural number, as `${n}` writes it. */
  function Show(n: nat): (s: string)
    ensures s != [] && AllDigits(s)
    ensures s[0] != '0' || n == 0
  {
    if n < 10 then [DigitChar(n)] else Show(n / 10) + [DigitChar(n % 10)]
  }

  /** Reading back a rendered number gives the number. */
  lemma {:induction false} ShowValue(n: nat)
    ensures DigitsValue(Show(n)) == n
  {
    if n >= 10 {
      var s := Show(n);
      assert s[..|s| - 1] == Show(n / 10);
      ShowValue(n / 10);
    }
  }

  /** A run of digits followed by a non-digit is what `DigitPrefix` reads. */
  lemma {:induction false} DigitPrefixOfDigits(ds: string, rest: string)
    requires AllDigits(ds)
    requires rest == [] || !IsDigit(rest[0])
    ensures DigitPrefix(ds + rest) == ds
  {
    if ds != [] {
      assert (ds + rest)[1..] == ds[1..] + rest;
      DigitPrefixOfDigits(ds[1..], rest);
    } else {
      assert ds + rest == rest;
    }
  }

  /** A string of digits followed by a non-digit starts with `n`. */
  lemma LeadingNumberShow(n: nat, rest: string)
    requires rest == [] || !IsDigit(rest[0])
    ensures LeadingNumber(Show(n) + rest) == Some(n)
  {
    DigitPrefixOfDigits(Show(n), rest);
    ShowValue(n);
  }

  /** `parseInt(String(n), 10) == n`, and trailing text that does not start
      with a digit (such as "5abc" or "5/") is ignored. */
  lemma ParseShow(n: nat, rest: string)
    requires rest == [] || !IsDigit(rest[0])
    ensures Parse(Show(n) + rest) == Some(n)
  {
    var s := Show(n) + rest;
    assert s[0] == Show(n)[0];
    assert IsDigit(s[0]);
    assert TrimStart(s) == s;
    LeadingNumberShow(n, rest);
  }

  lemma ParseOne()
    ensures Parse("1") == Some(1)
  {
    ParseShow(1, []);
    assert Show(1) + [] == "1";
  }

  /** Text that holds no digit after the white space and sign is NaN. */
  lemma ParseNoDigits(s: string)
    requires forall i :: 0 <= i < |s| ==> !IsDigit(s[i])
    ensures Parse(s) == None
  {
    var t := TrimStart(s);
    if t != [] {
      assert t[0] == s[|s| - |t|];
      if |t| > 1 {
        assert t[1] == s[|s| - |t| + 1];
      }
    }
  }

  /** A leading minus sign negates: `parseInt("-" + String(n), 10) == -n`. */
  lemma ParseNegative(n: nat)
    ensures Parse("-" + Show(n)) == Some(-(n as int))
  {
    var s := "-" + Show(n);
    assert s[0] == '-' && !IsJsSpace(s[0]);
    assert TrimStart(s) == s;
    assert s[1..] == Show(n) + [];
    LeadingNumberShow(n, []);
    assert LeadingNumber(s[1..]) == Some(n);
  }
}
