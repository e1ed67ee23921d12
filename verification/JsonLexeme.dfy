/** The lexical grammar the printer and the parser share, stated as in RFC 8259. */
module JsonLexeme {
  import opened Text
  import opened Json

  /** Section 2: the four white space characters. */
  lemma SpaceExact(c: char)
    ensures IsSpace(c) <==> c as int in {0x20, 0x09, 0x0A, 0x0D}
  {
  }

  /** Section 7: the eight two-character escapes. */
  lemma EscapesExact(rest: string)
    ensures ParseEscape("\"" + rest) == Some((0x22 as char, rest))
    ensures ParseEscape("\\" + rest) == Some((0x5C as char, rest))
    ensures ParseEscape("/" + rest) == Some((0x2F as char, rest))
    ensures ParseEscape("b" + rest) == Some((0x08 as char, rest))
    ensures ParseEscape("f" + rest) == Some((0x0C as char, rest))
    ensures ParseEscape("n" + rest) == Some((0x0A as char, rest))
    ensures ParseEscape("r" + rest) == Some((0x0D as char, rest))
    ensures ParseEscape("t" + rest) == Some((0x09 as char, rest))
  {
    forall c: char ensures ([c] + rest)[1..] == rest {}
  }

  /** A hexadecimal digit of an escape, in either case. */
  lemma HexDigitExact(c: char, v: nat)
    ensures HexValue(c) == Some(v) <==>
            (v <= 9 && c as int == 48 + v) || (10 <= v <= 15 && (c as int == 87 + v || c as int == 55 + v))
  {
  }

  // ----- section 6: numbers -----

  /** `int`: zero, or digits that do not begin with it. */
  predicate IntPart(s: string) { s != "" && AllDigits(s) && (|s| == 1 || s[0] != '0') }

  /** `[ frac ]` */
  predicate FracPart(s: string) { s == "" || (|s| >= 2 && s[0] == '.' && AllDigits(s[1..])) }

  /** `[ exp ]` */
  ghost predicate ExpPart(s: string) { s == "" || exists mark, sign, digits :: IsExp(s, mark, sign, digits) }

  predicate IsExp(s: string, mark: string, sign: string, digits: string) {
    && s == mark + sign + digits && (mark == "e" || mark == "E") && (sign == "" || sign == "+" || sign == "-")
    && digits != "" && AllDigits(digits)
  }

  /** A number with a fraction or an exponent, or both. */
  ghost predicate IsFloatText(s: string) { exists sign, i, frac, exp :: FloatParts(s, sign, i, frac, exp) }

  ghost predicate FloatParts(s: string, sign: string, i: string, frac: string, exp: string) {
    && s == sign + (i + (frac + exp)) && (sign == "" || sign == "-") && IntPart(i) && FracPart(frac) && ExpPart(exp)
    && frac + exp != ""
  }

  lemma {:induction false} RunStops(s: string)
    ensures DigitRun(s) == |s| || !IsDigit(s[DigitRun(s)])
  {
    if s != "" && IsDigit(s[0]) {
      RunStops(s[1..]);
    }
  }

  lemma {:induction false} RunOf(digits: string, rest: string)
    requires AllDigits(digits) && (rest == "" || !IsDigit(rest[0]))
    ensures DigitRun(digits + rest) == |digits|
  {
    if digits == "" {
      assert digits + rest == rest;
    } else {
      assert (digits + rest)[1..] == digits[1..] + rest;
      RunOf(digits[1..], rest);
    }
  }

  lemma ExponentExact(s: string)
    requires s != ""
    ensures IsExponent(s) <==> ExpPart(s)
  {
    if IsExponent(s) {
      var signed := |s| > 1 && (s[1] == '+' || s[1] == '-');
      var sign, digits := if signed then [s[1]] else "", if signed then s[2..] else s[1..];
      assert IsExp(s, [s[0]], sign, digits);
    }
    if ExpPart(s) {
      var mark, sign, digits :| IsExp(s, mark, sign, digits);
      assert s[0] == mark[0] && s[1..] == sign + digits;
      if sign == "" {
        assert s[1..] == digits && s[1] == digits[0];
      } else {
        assert s[1] == sign[0] && s[2..] == digits;
      }
    }
  }

  lemma TailExact(s: string)
    requires s != ""
    ensures IsFractionOrExponent(s) <==> exists frac, exp :: s == frac + exp && FracPart(frac) && ExpPart(exp)
  {
    hide IsExponent, ExpPart;
    if IsFractionOrExponent(s) {
      var n := if s[0] == '.' then 1 + DigitRun(s[1..]) else 0;
      assert s == s[..n] + s[n..];
      assert ExpPart(s[n..]) by { if s[n..] != "" { ExponentExact(s[n..]); } else { EmptyExp(); } }
      assert n > 0 ==> s[..n][1..] == s[1..][..n - 1];
      assert FracPart(s[..n]);
    }
    if frac, exp :| s == frac + exp && FracPart(frac) && ExpPart(exp) {
      ExpHead(exp);
      if frac == "" {
        assert s == exp;
        ExponentExact(s);
      } else {
        assert s[1..] == frac[1..] + exp;
        RunOf(frac[1..], exp);
        assert s[|frac|..] == exp;
        if exp != "" {
          ExponentExact(exp);
        }
      }
    }
  }

  lemma EmptyExp()
    ensures ExpPart("")
  {
  }

  lemma ExpHead(exp: string)
    requires ExpPart(exp)
    ensures exp == "" || exp[0] == 'e' || exp[0] == 'E'
    ensures forall i :: 0 <= i < |exp| ==> NumChar(exp[i])
  {
  }

  /** A float lexeme is exactly a number of the grammar with a fraction or an exponent. */
  lemma FloatLexemeExact(s: string)
    ensures IsFloatLexeme(s) <==> IsFloatText(s)
  {
    if IsFloatLexeme(s) {
      LexemeIsText(s);
    }
    if IsFloatText(s) {
      var sign, i, frac, exp :| FloatParts(s, sign, i, frac, exp);
      TextIsLexeme(s, sign, i, frac, exp);
    }
  }

  lemma LexemeIsText(s: string)
    requires IsFloatLexeme(s)
    ensures IsFloatText(s)
  {
    hide IsFractionOrExponent, ExpPart, FracPart, IsIntLexeme;
    var u := Unsigned(s);
    var n := DigitRun(u);
    TailExact(u[n..]) by { NotEmptyTail(u[n..]); }
    var frac, exp :| u[n..] == frac + exp && FracPart(frac) && ExpPart(exp);
    NotEmptyTail(u[n..]);
    var sign := if s[0] == '-' then "-" else "";
    assert u == u[..n] + u[n..] && s == sign + u;
    assert FloatParts(s, sign, u[..n], frac, exp);
  }

  lemma NotEmptyTail(s: string)
    requires IsFractionOrExponent(s)
    ensures s != ""
  {
  }

  lemma TextIsLexeme(s: string, sign: string, i: string, frac: string, exp: string)
    requires FloatParts(s, sign, i, frac, exp)
    ensures IsFloatLexeme(s)
  {
    var u, tail := i + (frac + exp), frac + exp;
    ExpHead(exp);
    assert tail[0] == if frac != "" then '.' else exp[0];
    TailExact(tail);
    RunOf(i, tail);
    hide IsFractionOrExponent, ExpPart, DigitRun;
    assert s == sign + u && u[0] == i[0] && u[|i|..] == tail && u[|i|] == tail[0];
    assert Unsigned(s) == u by {
      if sign == "" { assert s == u; } else { assert s[1..] == u; }
    }
    assert !IsIntLexeme(s) by { assert !IsDigit(u[|i|]); }
    assert forall k :: 0 <= k < |frac| ==> NumChar(frac[k]) by {
      assert forall k :: 1 <= k < |frac| ==> frac[k] == frac[1..][k - 1];
    }
    forall k | 0 <= k < |s| ensures NumChar(s[k]) {
      var m := k - |sign|;
      if m >= 0 {
        assert s[k] == u[m];
        if m >= |i| {
          assert u[m] == tail[m - |i|];
          assert tail[m - |i|] == if m - |i| < |frac| then frac[m - |i|] else exp[m - |i| - |frac|];
        }
      }
    }
  }
}
