/** `Handler._read_body`: a Content-Length (section 8.6 of RFC 9110) decided on its decimal text. */
module ContentLength {
  import opened Text
  import Counting

  // ----- decimal text and its value -----

  function Pow10(n: nat): (p: nat)
    ensures p >= 1
  {
    if n == 0 then 1 else 10 * Pow10(n - 1)
  }

  lemma {:induction false} ValueSplit(s: string)
    requires AllDigits(s) && s != ""
    ensures NatValue(s) == DigitValue(s[0]) * Pow10(|s| - 1) + NatValue(s[1..])
  {
    if |s| == 1 {
      assert s[..0] == "" && s[1..] == "";
    } else {
      var front := s[..|s| - 1];
      ValueSplit(front);
      assert front[1..] == s[1..][..|s| - 2];
      assert DigitValue(s[0]) * Pow10(|s| - 1) == 10 * (DigitValue(s[0]) * Pow10(|s| - 2));
    }
  }

  lemma {:induction false} ValueBound(s: string)
    requires AllDigits(s)
    ensures NatValue(s) < Pow10(|s|)
  {
    if s != "" {
      ValueBound(s[..|s| - 1]);
    }
  }

  lemma LeadingDigit(d: nat, e: nat, p: nat, x: nat, y: nat)
    requires d < e && x < p
    ensures d * p + x < e * p + y
  {
    Counting.FarFromZero(e - d, p);
    assert (e - d) * p == e * p - d * p;
  }

  /** Digit strings of one length are ordered as text exactly as they are as numbers. */
  lemma {:induction false} SameLengthOrder(a: string, b: string)
    requires AllDigits(a) && AllDigits(b) && |a| == |b|
    ensures LexLess(a, b) <==> NatValue(a) < NatValue(b)
  {
    if a != "" {
      ValueSplit(a);
      ValueSplit(b);
      ValueBound(a[1..]);
      ValueBound(b[1..]);
      var p := Pow10(|a| - 1);
      if a[0] < b[0] {
        LeadingDigit(DigitValue(a[0]), DigitValue(b[0]), p, NatValue(a[1..]), NatValue(b[1..]));
      } else if b[0] < a[0] {
        LeadingDigit(DigitValue(b[0]), DigitValue(a[0]), p, NatValue(b[1..]), NatValue(a[1..]));
      } else {
        SameLengthOrder(a[1..], b[1..]);
      }
    }
  }

  /** No leading zero, except in "0" itself. */
  predicate Normal(s: string) { s != "" && AllDigits(s) && (s[0] == '0' ==> |s| == 1) }

  lemma {:induction false} PowMonotone(m: nat, n: nat)
    requires m <= n
    ensures Pow10(m) <= Pow10(n)
  {
    if m < n {
      PowMonotone(m, n - 1);
    }
  }

  lemma ShorterIsSmaller(a: string, b: string)
    requires Normal(a) && Normal(b) && |a| < |b|
    ensures NatValue(a) < NatValue(b)
  {
    ValueBound(a);
    PowMonotone(|a|, |b| - 1);
    ValueSplit(b);
    Counting.FarFromZero(DigitValue(b[0]), Pow10(|b| - 1));
  }

  /** The comparison the handler makes, on normalized text, is the comparison of the numbers. */
  lemma CompareExact(digits: string, limit: string)
    requires Normal(digits) && Normal(limit)
    ensures (|digits| > |limit| || (|digits| == |limit| && LexLess(limit, digits)))
       <==> NatValue(digits) > NatValue(limit)
  {
    if |digits| > |limit| {
      ShorterIsSmaller(limit, digits);
    } else if |digits| < |limit| {
      ShorterIsSmaller(digits, limit);
    } else {
      SameLengthOrder(limit, digits);
    }
  }

  function Strip(s: string): string { if s != "" && s[0] == '0' then Strip(s[1..]) else s }

  /** `raw.lstrip("0") or "0"` */
  function Normalize(s: string): string { if Strip(s) == "" then "0" else Strip(s) }

  lemma {:induction false} StripKeepsValue(s: string)
    requires AllDigits(s)
    ensures AllDigits(Strip(s)) && NatValue(Strip(s)) == NatValue(s) && (Strip(s) != "" ==> Strip(s)[0] != '0')
  {
    if s != "" && s[0] == '0' {
      StripKeepsValue(s[1..]);
      ValueSplit(s);
    }
  }

  lemma NormalizeExact(s: string)
    requires AllDigits(s)
    ensures Normal(Normalize(s)) && NatValue(Normalize(s)) == NatValue(s)
  {
    StripKeepsValue(s);
    assert "0"[..0] == "" && NatValue("0") == 0;
  }

  // ----- the decision -----

  /** HTTP optional whitespace around a field value. */
  function TrimLeft(s: string): string { if s != "" && (s[0] == ' ' || s[0] == '\t') then TrimLeft(s[1..]) else s }

  function TrimRight(s: string): string {
    if s != "" && (s[|s| - 1] == ' ' || s[|s| - 1] == '\t') then TrimRight(s[..|s| - 1]) else s
  }

  predicate BlankChar(c: char) { c == ' ' || c == '\t' }

  predicate Blank(s: string) { forall i :: 0 <= i < |s| ==> BlankChar(s[i]) }

  predicate NoBlankEnds(s: string) {
    s != "" ==> !BlankChar(s[0]) && !BlankChar(s[|s| - 1])
  }

  lemma {:induction false} TrimLeftExact(s: string) returns (l: string)
    ensures Blank(l) && s == l + TrimLeft(s)
    ensures TrimLeft(s) != "" ==> !BlankChar(TrimLeft(s)[0])
  {
    l := "";
    if s != "" && BlankChar(s[0]) {
      var rest := TrimLeftExact(s[1..]);
      l := [s[0]] + rest;
    }
  }

  lemma {:induction false} TrimRightExact(s: string) returns (r: string)
    ensures Blank(r) && s == TrimRight(s) + r && TrimRight(s) <= s
    ensures TrimRight(s) != "" ==> !BlankChar(TrimRight(s)[|TrimRight(s)| - 1])
    decreases |s|
  {
    r := "";
    if s != "" && BlankChar(s[|s| - 1]) {
      var rest := TrimRightExact(s[..|s| - 1]);
      r := rest + [s[|s| - 1]];
    }
  }

  /** Trimming removes the blanks at both ends and nothing else. */
  lemma TrimExact(s: string) returns (l: string, r: string)
    ensures Blank(l) && Blank(r) && s == l + TrimRight(TrimLeft(s)) + r && NoBlankEnds(TrimRight(TrimLeft(s)))
  {
    l := TrimLeftExact(s);
    r := TrimRightExact(TrimLeft(s));
  }

  /** The field value is the decimal number `n`, with blanks around it or not. */
  ghost predicate Declares(s: string, n: nat) { exists l, d, r :: IsNumber(s, l, d, r, n) }

  predicate IsNumber(s: string, l: string, d: string, r: string, n: nat) {
    s == l + d + r && Blank(l) && Blank(r) && d != "" && AllDigits(d) && NatValue(d) == n
  }

  lemma BlanksEnd(l: string, x: string, l': string, x': string)
    requires l + x == l' + x' && Blank(l') && x != "" && !BlankChar(x[0])
    ensures |l'| <= |l|
  {
    assert x[0] == (l + x)[|l|] == (l' + x')[|l|];
  }

  lemma BlanksBegin(x: string, r: string, x': string, r': string)
    requires x + r == x' + r' && Blank(r') && x != "" && !BlankChar(x[|x| - 1])
    ensures |r'| <= |r|
  {
    assert x[|x| - 1] == (x + r)[|x| - 1] == (x' + r')[|x| - 1];
  }

  lemma NotAllBlank(l: string, d: string, r: string, blank: string)
    requires l + d + r == blank && Blank(blank)
    ensures d == "" || BlankChar(d[0])
  {
    if d != "" {
      assert d[0] == (l + d + r)[|l|];
    }
  }

  /** There is one way to cut a text into blanks, something without blank ends, and blanks. */
  lemma CutOnce(l: string, d: string, r: string, l': string, d': string, r': string)
    requires l + d + r == l' + d' + r' && Blank(l) && Blank(r) && Blank(l') && Blank(r')
    requires d != "" && NoBlankEnds(d) && NoBlankEnds(d')
    ensures d == d'
  {
    var s := l + d + r;
    if d' == "" {
      NotAllBlank(l, d, r, l' + d' + r');
    } else {
      assert s == l + (d + r) == l' + (d' + r') == (l + d) + r == (l' + d') + r';
      BlanksEnd(l, d + r, l', d' + r');
      BlanksEnd(l', d' + r', l, d + r);
      BlanksBegin(l + d, r, l' + d', r');
      BlanksBegin(l' + d', r', l + d, r);
      assert d == s[|l|..|s| - |r|] == d';
    }
  }

  lemma DeclaresExact(s: string, n: nat)
    ensures var raw := TrimRight(TrimLeft(s));
            Declares(s, n) <==> raw != "" && AllDigits(raw) && NatValue(raw) == n
  {
    var l, r := TrimExact(s);
    var raw := TrimRight(TrimLeft(s));
    if raw != "" && AllDigits(raw) && NatValue(raw) == n {
      assert IsNumber(s, l, raw, r, n);
    }
    if Declares(s, n) {
      var l', d, r' :| IsNumber(s, l', d, r', n);
      assert !BlankChar(d[0]) && !BlankChar(d[|d| - 1]);
      CutOnce(l', d, r', l, raw, r);
    }
  }

  datatype Decision = NoBody | Read(length: nat) | LengthRequired | BadLength | TooLarge

  /** What the header fields mean, number by number. */
  function Meaning(post: bool, transferEncoding: bool, lengths: seq<string>, max: int): Decision {
    if transferEncoding then LengthRequired
    else if lengths == [] then if post then LengthRequired else NoBody
    else if |lengths| > 1 then BadLength
    else
      var raw := TrimRight(TrimLeft(lengths[0]));
      if raw == "" || !AllDigits(raw) then BadLength
      else if NatValue(raw) > max then TooLarge
      else if NatValue(raw) == 0 then NoBody
      else Read(NatValue(raw))
  }

  /** The decisions, told from the header fields: only a POST, or a request that names a length, can have a body,
      and it is read exactly if one field declares a positive number within the bound. */
  lemma MeaningExact(post: bool, transferEncoding: bool, lengths: seq<string>, max: int, n: nat)
    ensures var d := Meaning(post, transferEncoding, lengths, max);
            var one := !transferEncoding && |lengths| == 1;
            && (d == LengthRequired <==> transferEncoding || (lengths == [] && post))
            && (d == BadLength <==>
                  && !transferEncoding && lengths != []
                  && (|lengths| > 1 || forall m: nat :: !Declares(lengths[0], m)))
            && (one && Declares(lengths[0], n) ==>
                  d == if n > max then TooLarge else if n == 0 then NoBody else Read(n))
            && (d.TooLarge? || d.Read? ==> one) && (d.NoBody? ==> one || (!transferEncoding && lengths == [] && !post))
  {
    hide Declares, TrimLeft, TrimRight, AllDigits, NatValue;
    if |lengths| == 1 {
      forall m: nat
        ensures var raw := TrimRight(TrimLeft(lengths[0]));
                Declares(lengths[0], m) <==> raw != "" && AllDigits(raw) && NatValue(raw) == m
      {
        DeclaresExact(lengths[0], m);
      }
      var raw := TrimRight(TrimLeft(lengths[0]));
      assert raw != "" && AllDigits(raw) ==> Declares(lengths[0], NatValue(raw));
    }
  }

  /** The decision as the handler makes it, without converting before the bound is known to hold; `converted`
      are the texts handed to `int()`. */
  method ReadBody(post: bool, transferEncoding: bool, lengths: seq<string>, max: int)
    returns (d: Decision, converted: seq<string>)
    ensures d == Meaning(post, transferEncoding, lengths, max)
    ensures converted != [] <==> d.Read? || (d.NoBody? && lengths != [])
    ensures converted == [] || (max >= 0 && exists s :: converted == [s] && Normal(s) && |s| <= |NatText(max)|)
  {
    converted := [];
    if transferEncoding {
      return LengthRequired, converted;
    }
    if lengths == [] {
      return if post then LengthRequired else NoBody, converted;
    }
    if |lengths| != 1 {
      return BadLength, converted;
    }
    var raw := TrimRight(TrimLeft(lengths[0]));
    if raw == "" || !AllDigits(raw) {
      return BadLength, converted;
    }
    var digits := Normalize(raw);
    NormalizeExact(raw);
    if max < 0 {
      return TooLarge, converted;
    }
    var limit := NatText(max);
    CompareExact(digits, limit);
    if |digits| > |limit| || (|digits| == |limit| && LexLess(limit, digits)) {
      return TooLarge, converted;
    }
    converted := [digits];
    var length := NatValue(digits);
    return if length == 0 then NoBody else Read(length), converted;
  }
}
