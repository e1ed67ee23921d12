/** What the parser makes of damaged lines: a printed object that was cut short, and a printed object
    that landed behind the remains of an earlier line. */
module JsonFragment {
  import opened Text
  import opened Json
  import opened JsonRoundTrip

  // ----- text behind which an object was appended -----

  /** The text of one object, read completely, whose first key starts with a lower-case letter. */
  predicate ObjectText(r: string) {
    && |r| > 2 && r[0] == '{' && r[1] == '"' && 'a' <= r[2] <= 'z'
    && ParseValue(r).Some? && ParseValue(r).value.1 == ""
  }

  predicate EndsIn(s: string, r: string) { |r| <= |s| && s[|s| - |r|..] == r }

  lemma {:induction false} SpaceCut(s: string, r: string)
    requires ObjectText(r) && EndsIn(s, r)
    ensures EndsIn(SkipSpace(s), r)
  {
    hide ParseValue;
    if IsSpace(s[0]) {
      assert |s| > |r|;
      SpaceCut(s[1..], r);
    }
  }

  lemma {:induction false} NumRunCut(s: string, r: string)
    requires ObjectText(r) && EndsIn(s, r)
    ensures NumRun(s) + |r| <= |s|
  {
    hide ParseValue;
    if NumChar(s[0]) {
      assert |s| > |r|;
      NumRunCut(s[1..], r);
    }
  }

  lemma HexCut(s: string, r: string)
    requires ObjectText(r) && EndsIn(s, r) && ParseHex4(s).Some?
    ensures 4 + |r| <= |s|
  {
    hide ParseValue;
    assert s[|s| - |r|] == '{';
  }

  lemma EndsInAt(s: string, r: string, n: nat)
    requires EndsIn(s, r) && n + |r| <= |s|
    ensures EndsIn(s[n..], r)
  {
  }

  lemma StartsBefore(s: string, r: string)
    requires ObjectText(r) && EndsIn(s, r)
    ensures r[0] == '{' && s[|s| - |r|] == '{'
  {
    hide ParseValue;
  }

  lemma PairCut(s: string, r: string)
    requires ObjectText(r) && EndsIn(s, r) && |s| >= 7 && s[5] == '\\' && s[6] == 'u' && |s| >= 5 + |r|
    requires ParseHex4(s[7..]).Some?
    ensures 11 + |r| <= |s|
  {
    StartsBefore(s, r);
    EndsInAt(s, r, 7);
    HexCut(s[7..], r);
  }

  lemma EscapeCut(s: string, r: string)
    requires ObjectText(r) && EndsIn(s, r) && ParseEscape(s).Some?
    ensures EndsIn(ParseEscape(s).value.1, r)
  {
    StartsBefore(s, r);
    hide ObjectText, EndsIn, ParseHex4, JoinPair;
    assert |s| > |r|;
    EndsInAt(s, r, 1);
    if s[0] != 'u' {
      assert ParseEscape(s).value.1 == s[1..];
    } else {
      HexCut(s[1..], r);
      var n := ParseHex4(s[1..]).value;
      if 0xD800 <= n < 0xE000 {
        PairCut(s, r);
        EndsInAt(s, r, 11);
      } else {
        EndsInAt(s, r, 5);
      }
    }
  }

  /** A string that starts before the appended object ends before it, or at the quote of its first key. */
  lemma {:induction false} StringCut(s: string, r: string)
    requires ObjectText(r) && EndsIn(s, r) && ParseString(s).Some?
    ensures var rest := ParseString(s).value.1; EndsIn(rest, r) || rest == r[2..]
    decreases |s|
  {
    hide ParseValue, ParseEscape;
    if |s| == |r| {
      assert s == r && s[1..][1..] == r[2..];
    } else if s[0] == '"' {
    } else if s[0] == '\\' {
      EscapeCut(s[1..], r);
      StringCut(ParseEscape(s[1..]).value.1, r);
    } else {
      StringCut(s[1..], r);
    }
  }

  /** Where a value that starts before the appended object, or is that object, can end. */
  predicate Cut(s: string, rest: string, r: string) {
    || EndsIn(rest, r)
    || (|r| > 2 && rest == r[2..])
    || (rest == "" && SkipSpace(s) == r)
  }

  lemma CutNext(rest: string, r: string)
    requires ObjectText(r) && (EndsIn(rest, r) || rest == r[2..] || rest == "")
    ensures var t := SkipSpace(rest);
            t != "" && (t[0] == ',' || t[0] == ':' || t[0] == ']' || t[0] == '}') ==> EndsIn(t[1..], r)
  {
    hide ParseValue;
    if EndsIn(rest, r) {
      SpaceCut(rest, r);
      assert SkipSpace(rest)[|SkipSpace(rest)| - |r|] == '{';
    }
  }

  lemma CutSolid(rest: string, r: string)
    requires ObjectText(r) && (EndsIn(rest, r) || rest == r[2..])
    ensures SkipSpace(rest) != ""
  {
    hide ParseValue;
    if EndsIn(rest, r) {
      SpaceCut(rest, r);
    }
  }

  lemma QuotedCut(s: string, r: string)
    requires ObjectText(r) && EndsIn(s, r) && ParseValue(s).Some?
    requires SkipSpace(s) != "" && SkipSpace(s)[0] == '"'
    ensures Cut(s, ParseValue(s).value.1, r)
  {
    SpaceCut(s, r);
    var t := SkipSpace(s);
    assert t[|t| - |r|] == '{' && |t| > |r|;
    StringCut(t[1..], r);
    hide ParseString, SkipSpace, ParseNumber, ParseItems, ParseMembers, NumChar, ObjectText;
    assert ParseValue(s).value.1 == ParseString(t[1..]).value.1;
  }

  lemma NumberCut(s: string, r: string)
    requires ObjectText(r) && EndsIn(s, r) && ParseValue(s).Some?
    requires SkipSpace(s) != "" && NumChar(SkipSpace(s)[0])
    ensures Cut(s, ParseValue(s).value.1, r)
  {
    SpaceCut(s, r);
    var t := SkipSpace(s);
    NumRunCut(t, r);
    EndsInAt(t, r, NumRun(t));
    hide SkipSpace, ParseString, ParseItems, ParseMembers, ObjectText, IsFloatLexeme, IsIntLexeme, IntValue, NumRun;
    hide EndsIn;
    assert t[0] != '"' && t[0] != '[' && t[0] != '{';
    hide NumChar;
    assert ParseValue(s) == ParseNumber(t);
  }

  lemma WordCut(s: string, r: string)
    requires ObjectText(r) && EndsIn(s, r) && ParseValue(s).Some?
    requires var t := SkipSpace(s);
             t != "" && t[0] != '[' && t[0] != '{' && t[0] != '"' && !NumChar(t[0])
    ensures Cut(s, ParseValue(s).value.1, r)
  {
    StartsBefore(s, r);
    SpaceCut(s, r);
    KeywordCut(SkipSpace(s), r);
    hide SkipSpace, ParseString, ParseNumber, ParseItems, ParseMembers, NumChar, ObjectText, EndsIn;
  }

  lemma KeywordCut(t: string, r: string)
    requires EndsIn(t, r) && r != "" && r[0] == '{'
    ensures "null" <= t ==> EndsIn(t[4..], r)
    ensures "true" <= t ==> EndsIn(t[4..], r)
    ensures "false" <= t ==> EndsIn(t[5..], r)
  {
    assert t[|t| - |r|] == '{';
    assert "null" <= t ==> t[0] == 'n' && t[1] == 'u' && t[2] == 'l' && t[3] == 'l';
    assert "true" <= t ==> t[0] == 't' && t[1] == 'r' && t[2] == 'u' && t[3] == 'e';
    assert "false" <= t ==> t[0] == 'f' && t[1] == 'a' && t[2] == 'l' && t[3] == 's' && t[4] == 'e';
  }

  lemma {:induction false} ValueCut(s: string, r: string)
    requires ObjectText(r) && EndsIn(s, r) && ParseValue(s).Some?
    ensures Cut(s, ParseValue(s).value.1, r)
    decreases |s|, 2
  {
    hide SkipSpace, ParseString, ParseNumber, ParseItems, ParseMembers, NumChar;
    SpaceCut(s, r);
    var t := SkipSpace(s);
    if t == r {
      assert ParseValue(s) == ParseValue(t) by { ValueAfterSpace(s); }
    } else if t[0] == '[' || t[0] == '{' {
      assert |t| > |r| by { assert |t| == |r| ==> t == r; }
      var u := SkipSpace(t[1..]);
      SpaceCut(t[1..], r);
      if t[0] == '[' && u[0] != ']' {
        ItemsCut(t[1..], r);
      }
      if t[0] == '{' && u[0] != '}' {
        MembersCut(t[1..], r);
      }
    } else if t[0] == '"' {
      QuotedCut(s, r);
    } else if NumChar(t[0]) {
      NumberCut(s, r);
    } else {
      WordCut(s, r);
    }
  }

  /** A list that starts before the appended object is closed before it, or never. */
  lemma {:induction false} ItemsCut(s: string, r: string)
    requires ObjectText(r) && EndsIn(s, r) && ParseItems(s).Some?
    ensures EndsIn(ParseItems(s).value.1, r)
    decreases |s|, 4
  {
    hide SkipSpace, ParseValue, ObjectText;
    ValueCut(s, r);
    var rest := ParseValue(s).value.1;
    CutNext(rest, r);
    if SkipSpace(rest)[0] == ',' {
      ItemsCut(SkipSpace(rest)[1..], r);
    }
  }

  lemma {:induction false} MemberCut(s: string, r: string)
    requires ObjectText(r) && EndsIn(s, r) && ParseMember(s).Some?
    ensures var rest := ParseMember(s).value.1; EndsIn(rest, r) || rest == r[2..] || rest == ""
    decreases |s|, 3
  {
    hide SkipSpace, ParseValue, ParseString;
    SpaceCut(s, r);
    var t := SkipSpace(s);
    assert |t| > |r|;
    StringCut(t[1..], r);
    var afterKey := ParseString(t[1..]).value.1;
    CutNext(afterKey, r);
    ValueCut(SkipSpace(afterKey)[1..], r);
  }

  lemma {:induction false} MembersCut(s: string, r: string)
    requires ObjectText(r) && EndsIn(s, r) && ParseMembers(s).Some?
    ensures EndsIn(ParseMembers(s).value.1, r)
    decreases |s|, 4
  {
    hide SkipSpace, ParseMember, ObjectText;
    MemberCut(s, r);
    var rest := ParseMember(s).value.1;
    CutNext(rest, r);
    if SkipSpace(rest)[0] == ',' {
      MembersCut(SkipSpace(rest)[1..], r);
    }
  }

  /** A line that ends in an object's text is JSON only if nothing but white space comes before it. */
  lemma MergedLine(front: string, r: string)
    requires ObjectText(r) && Parse(front + r).Some?
    ensures SkipSpace(front + r) == r
  {
    hide ParseValue, SkipSpace;
    var s := front + r;
    assert EndsIn(s, r);
    ValueCut(s, r);
    var rest := ParseValue(s).value.1;
    if SkipSpace(s) != r {
      CutSolid(rest, r);
    }
  }

  // ----- text that goes on: what was read stays read -----

  lemma {:induction false} SpaceMore(s: string, x: string)
    requires SkipSpace(s) != ""
    ensures SkipSpace(s + x) == SkipSpace(s) + x
  {
    if IsSpace(s[0]) {
      assert (s + x)[1..] == s[1..] + x;
      SpaceMore(s[1..], x);
    }
  }

  lemma HexMore(s: string, x: string)
    requires ParseHex4(s).Some?
    ensures ParseHex4(s + x) == ParseHex4(s)
  {
    hide HexValue;
  }

  lemma SliceMore(s: string, x: string, n: nat)
    requires n <= |s|
    ensures (s + x)[n..] == s[n..] + x
  {
  }

  lemma EscapeMore(s: string, x: string)
    requires ParseEscape(s).Some?
    ensures ParseEscape(s + x) == Some((ParseEscape(s).value.0, ParseEscape(s).value.1 + x))
  {
    hide ParseHex4, JoinPair;
    SliceMore(s, x, 1);
    if s[0] == 'u' {
      HexMore(s[1..], x);
      SliceMore(s, x, 5);
      var n := ParseHex4(s[1..]).value;
      if 0xD800 <= n < 0xE000 {
        SliceMore(s, x, 7);
        HexMore(s[7..], x);
        SliceMore(s, x, 11);
      }
    }
  }

  lemma {:induction false} StringMore(s: string, x: string)
    requires ParseString(s).Some?
    ensures ParseString(s + x) == Some((ParseString(s).value.0, ParseString(s).value.1 + x))
    decreases |s|
  {
    hide ParseEscape;
    SliceMore(s, x, 1);
    if s[0] == '\\' {
      EscapeMore(s[1..], x);
      StringMore(ParseEscape(s[1..]).value.1, x);
    } else if s[0] != '"' {
      StringMore(s[1..], x);
    }
  }

  lemma {:induction false} NumRunMore(s: string, x: string)
    requires NumRun(s) < |s| || Ends(x)
    ensures NumRun(s + x) == NumRun(s)
  {
    if s == "" {
      assert s + x == x;
    } else if NumChar(s[0]) {
      assert (s + x)[1..] == s[1..] + x;
      NumRunMore(s[1..], x);
    }
  }

  lemma NumberMore(s: string, x: string)
    requires s != "" && NumChar(s[0]) && ParseNumber(s).Some? && (ParseNumber(s).value.1 != "" || Ends(x))
    ensures ParseNumber(s + x) == Some((ParseNumber(s).value.0, ParseNumber(s).value.1 + x))
  {
    hide IsFloatLexeme, IsIntLexeme, IntValue;
    NumRunMore(s, x);
    SliceMore(s, x, NumRun(s));
    assert (s + x)[..NumRun(s)] == s[..NumRun(s)];
  }

  lemma KeywordMore(t: string, x: string)
    requires t != ""
    ensures "null" <= t ==> "null" <= t + x && (t + x)[4..] == t[4..] + x
    ensures "true" <= t ==> "true" <= t + x && (t + x)[4..] == t[4..] + x
    ensures "false" <= t ==> "false" <= t + x && (t + x)[5..] == t[5..] + x
  {
  }

  lemma ScalarMore(s: string, x: string)
    requires ParseValue(s).Some? && (ParseValue(s).value.1 != "" || Ends(x))
    requires var t := SkipSpace(s); t != "" && t[0] != '[' && t[0] != '{'
    ensures ParseValue(s + x) == Some((ParseValue(s).value.0, ParseValue(s).value.1 + x))
  {
    hide ParseString, ParseNumber, SkipSpace, NumChar, ParseItems, ParseMembers, Ends;
    SpaceMore(s, x);
    var t := SkipSpace(s);
    SliceMore(t, x, 1);
    assert (t + x)[0] == t[0];
    if t[0] == '"' {
      StringMore(t[1..], x);
    } else if NumChar(t[0]) {
      NumberMore(t, x);
    } else {
      KeywordMore(t, x);
    }
  }

  lemma ArrayMore(s: string, x: string)
    requires ParseValue(s).Some? && SkipSpace(s) != "" && SkipSpace(s)[0] == '['
    requires var b := SkipSpace(s)[1..]; ParseItems(b).Some? ==>
               ParseItems(b + x) == Some((ParseItems(b).value.0, ParseItems(b).value.1 + x))
    ensures ParseValue(s + x) == Some((ParseValue(s).value.0, ParseValue(s).value.1 + x))
  {
    hide ParseString, ParseNumber, SkipSpace, NumChar, ParseItems, ParseMembers;
    SpaceMore(s, x);
    var t := SkipSpace(s);
    var b := t[1..];
    SliceMore(t, x, 1);
    if SkipSpace(b) != "" {
      SpaceMore(b, x);
      SliceMore(SkipSpace(b), x, 1);
    } else {
      assert ParseItems(b).None? by { NothingToRead(b); }
    }
  }

  lemma NothingToRead(b: string)
    requires SkipSpace(b) == ""
    ensures ParseItems(b).None? && ParseMembers(b).None?
  {
  }

  lemma ObjectMore(s: string, x: string)
    requires ParseValue(s).Some? && SkipSpace(s) != "" && SkipSpace(s)[0] == '{'
    requires var b := SkipSpace(s)[1..]; ParseMembers(b).Some? ==>
               ParseMembers(b + x) == Some((ParseMembers(b).value.0, ParseMembers(b).value.1 + x))
    ensures ParseValue(s + x) == Some((ParseValue(s).value.0, ParseValue(s).value.1 + x))
  {
    hide ParseString, ParseNumber, SkipSpace, NumChar, ParseItems, ParseMembers;
    SpaceMore(s, x);
    var t := SkipSpace(s);
    var b := t[1..];
    SliceMore(t, x, 1);
    if SkipSpace(b) != "" {
      SpaceMore(b, x);
      SliceMore(SkipSpace(b), x, 1);
    } else {
      assert ParseMembers(b).None? by { NothingToRead(b); }
    }
  }

  predicate Closed(s: string) { SkipSpace(s) != "" && (SkipSpace(s)[0] == '[' || SkipSpace(s)[0] == '{') }

  /** A value read at the start of a text is read there too when the text goes on, unless it is a number
      or a word that the new text could continue. */
  lemma {:induction false} ValueMore(s: string, x: string)
    requires ParseValue(s).Some? && (ParseValue(s).value.1 != "" || Ends(x) || Closed(s))
    ensures ParseValue(s + x) == Some((ParseValue(s).value.0, ParseValue(s).value.1 + x))
    decreases |s|, 2
  {
    hide ParseValue, ParseItems, ParseMembers, Ends, SkipSpace;
    assert SkipSpace(s) != "" by { SomeText(s); }
    var t := SkipSpace(s);
    if t[0] == '[' {
      if ParseItems(t[1..]).Some? {
        ItemsMore(t[1..], x);
      }
      ArrayMore(s, x);
    } else if t[0] == '{' {
      if ParseMembers(t[1..]).Some? {
        MembersMore(t[1..], x);
      }
      ObjectMore(s, x);
    } else {
      ScalarMore(s, x);
    }
  }

  lemma SomeText(s: string)
    requires ParseValue(s).Some?
    ensures SkipSpace(s) != ""
  {
  }

  lemma {:induction false} ItemsMore(s: string, x: string)
    requires ParseItems(s).Some?
    ensures ParseItems(s + x) == Some((ParseItems(s).value.0, ParseItems(s).value.1 + x))
    decreases |s|, 4
  {
    hide ParseValue, SkipSpace, Ends, Closed;
    var rest := ParseValue(s).value.1;
    assert rest != "" by { assert SkipSpace(rest) != ""; }
    ValueMore(s, x);
    SpaceMore(rest, x);
    var t := SkipSpace(rest);
    SliceMore(t, x, 1);
    if t[0] == ',' {
      ItemsMore(t[1..], x);
    }
  }

  lemma {:induction false} MemberMore(s: string, x: string)
    requires ParseMember(s).Some? && ParseMember(s).value.1 != ""
    ensures ParseMember(s + x) == Some((ParseMember(s).value.0, ParseMember(s).value.1 + x))
    decreases |s|, 3
  {
    hide ParseValue, ParseString, SkipSpace, Ends, Closed;
    SpaceMore(s, x);
    var t := SkipSpace(s);
    SliceMore(t, x, 1);
    StringMore(t[1..], x);
    var afterKey := ParseString(t[1..]).value.1;
    SpaceMore(afterKey, x);
    var u := SkipSpace(afterKey);
    SliceMore(u, x, 1);
    ValueMore(u[1..], x);
  }

  lemma {:induction false} MembersMore(s: string, x: string)
    requires ParseMembers(s).Some?
    ensures ParseMembers(s + x) == Some((ParseMembers(s).value.0, ParseMembers(s).value.1 + x))
    decreases |s|, 4
  {
    hide ParseMember, SkipSpace, Ends, Closed;
    var rest := ParseMember(s).value.1;
    assert rest != "" by { assert SkipSpace(rest) != ""; }
    MemberMore(s, x);
    SpaceMore(rest, x);
    var t := SkipSpace(rest);
    SliceMore(t, x, 1);
    if t[0] == ',' {
      MembersMore(t[1..], x);
    }
  }

  /** No part cut off the end of an object's text leaves JSON. */
  lemma CutShort(r: string, k: nat)
    requires ObjectText(r) && k < |r|
    ensures Parse(r[..k]).None?
  {
    hide ParseValue, SkipSpace, Ends;
    var p := r[..k];
    assert p + r[k..] == r;
    if Parse(p).Some? {
      SomeText(p);
      assert SkipSpace(p) == p by { NoSpaceFirst(p); }
      ValueMore(p, r[k..]);
    }
  }

  lemma NoSpaceFirst(p: string)
    requires p != "" ==> p[0] == '{'
    ensures SkipSpace(p) == p
  {
  }

  // ----- a printed object is one line -----

  predicate Break(c: char) { c == '\n' || c == '\r' }

  /** Line feed and carriage return. */
  lemma BreakExact(c: char)
    ensures Break(c) <==> c as int == 10 || c as int == 13
  {
  }

  predicate OneLine(s: string) { forall i :: 0 <= i < |s| ==> !Break(s[i]) }

  /** One line that ends in a closing brace. */
  predicate Braced(s: string) { s != "" && s[|s| - 1] == '}' && OneLine(s) }

  lemma BracedAfter(a: string, s: string)
    requires OneLine(a) && Braced(s)
    ensures Braced(a + s)
  {
  }

  lemma EscapeOneLine(c: char, ascii: bool)
    ensures OneLine(EscapeChar(c, ascii))
  {
    hide HighUnit, LowUnit, Hex4;
    var n := c as int;
    if n < 0x1_0000 {
      Hex4OneLine(n);
    } else {
      JoinSplit(n);
      Hex4OneLine(HighUnit(n));
      Hex4OneLine(LowUnit(n));
    }
  }

  lemma Hex4OneLine(n: nat)
    requires n < 0x1_0000
    ensures OneLine(Hex4(n))
  {
    assert forall d: nat :: d < 16 ==> HexChar(d) > '\r';
  }

  lemma {:induction false} StringBraced(s: string, ascii: bool, tail: string)
    requires Braced(tail)
    ensures Braced(EmitString(s, ascii, tail))
  {
    assert OneLine("\"");
    hide Braced, OneLine, EscapeChar;
    if s == "" {
      BracedAfter("\"", tail);
    } else {
      StringBraced(s[1..], ascii, tail);
      EscapeOneLine(s[0], ascii);
      BracedAfter(EscapeChar(s[0], ascii), EmitString(s[1..], ascii, tail));
    }
  }

  lemma NumberOneLine(j: Json)
    requires j.Int? || (j.Float? && Valid(j))
    ensures OneLine(if j.Int? then IntText(j.n) else j.text)
  {
    hide IsFractionOrExponent, IsIntLexeme;
    if j.Int? {
      IntTextLexeme(j.n);
    }
  }

  lemma PunctuationOneLine(st: Style)
    ensures OneLine("\"") && OneLine("[") && OneLine("{") && OneLine("null") && OneLine("true") && OneLine("false")
    ensures OneLine(st.Comma()) && OneLine(st.Colon())
  {
  }

  lemma ClosingBraced(tail: string)
    requires Braced(tail)
    ensures Braced("]" + tail) && Braced("}" + tail)
  {
  }

  /** Printed text stays on one line: line breaks in strings are escaped. */
  lemma {:induction false} ValueBraced(j: Json, st: Style, tail: string)
    requires Valid(j) && Braced(tail)
    ensures Braced(Emit(j, st, tail))
    decreases j, 1
  {
    hide Braced, OneLine, IntText, EmitString, IsFloatLexeme, Style.Comma, Style.Colon;
    PunctuationOneLine(st);
    ClosingBraced(tail);
    match j
    case Null => BracedAfter("null", tail);
    case Bool(b) => BracedAfter(if b then "true" else "false", tail);
    case Int(n) =>
      NumberOneLine(j);
      BracedAfter(IntText(n), tail);
    case Float(text) =>
      NumberOneLine(j);
      BracedAfter(text, tail);
    case Str(s) =>
      StringBraced(s, st.ascii, tail);
      BracedAfter("\"", EmitString(s, st.ascii, tail));
    case Arr(items) =>
      ItemsBraced(items, st, "]" + tail);
      BracedAfter("[", EmitItems(items, st, "]" + tail));
    case Obj(ms) =>
      MembersBraced(ms, st, "}" + tail);
      BracedAfter("{", EmitMembers(ms, st, "}" + tail));
  }

  lemma {:induction false} ItemsBraced(items: seq<Json>, st: Style, tail: string)
    requires Braced(tail) && forall i :: 0 <= i < |items| ==> Valid(items[i])
    ensures Braced(EmitItems(items, st, tail))
    decreases items, 0
  {
    hide Braced, OneLine, Emit, Valid, Style.Comma;
    if |items| == 1 {
      ValueBraced(items[0], st, tail);
    } else if items != [] {
      PunctuationOneLine(st);
      ItemsBraced(items[1..], st, tail);
      BracedAfter(st.Comma(), EmitItems(items[1..], st, tail));
      ValueBraced(items[0], st, st.Comma() + EmitItems(items[1..], st, tail));
    }
  }

  lemma {:induction false} MembersBraced(ms: seq<Member>, st: Style, tail: string)
    requires Braced(tail) && forall i :: 0 <= i < |ms| ==> Valid(ms[i].value)
    ensures Braced(EmitMembers(ms, st, tail))
    decreases ms, 0
  {
    hide Braced, OneLine, Emit, Valid, Style.Comma, Style.Colon, EmitString;
    if ms != [] {
      PunctuationOneLine(st);
      MembersBraced(ms[1..], st, tail);
      BracedAfter(st.Comma(), EmitMembers(ms[1..], st, tail));
      var rest := if |ms| == 1 then tail else st.Comma() + EmitMembers(ms[1..], st, tail);
      ValueBraced(ms[0].value, st, rest);
      var v := Emit(ms[0].value, st, rest);
      BracedAfter(st.Colon(), v);
      StringBraced(ms[0].key, st.ascii, st.Colon() + v);
      BracedAfter("\"", EmitString(ms[0].key, st.ascii, st.Colon() + v));
    }
  }

  predicate LetterKey(m: Member) { m.key != "" && 'a' <= m.key[0] <= 'z' }

  /** A printed object whose keys start with letters is an object's text on one line. */
  lemma PrintedObject(ms: seq<Member>, st: Style)
    requires Valid(Obj(ms)) && ms != [] && LetterKey(ms[0])
    ensures ObjectText(Print(Obj(ms), st)) && Braced(Print(Obj(ms), st))
  {
    ValueRoundTrip(Obj(ms), st, "");
    FirstKey(ms, st);
    hide Valid, ParseValue, EmitMembers;
    assert Braced("}");
    MembersBraced(ms, st, "}");
    assert OneLine("{");
    assert "}" + "" == "}";
    BracedAfter("{", EmitMembers(ms, st, "}"));
  }

  lemma FirstKey(ms: seq<Member>, st: Style)
    requires ms != [] && LetterKey(ms[0])
    ensures var s := Print(Obj(ms), st); |s| > 2 && s[0] == '{' && s[1] == '"' && s[2] == ms[0].key[0]
  {
    hide Emit;
    var rest := if |ms| == 1 then "}" else st.Comma() + EmitMembers(ms[1..], st, "}");
    var e := EmitString(ms[0].key, st.ascii, st.Colon() + Emit(ms[0].value, st, rest));
    assert e[0] == ms[0].key[0];
    assert EmitMembers(ms, st, "}") == "\"" + e;
    PrintObject(ms, st);
  }

  lemma PrintObject(ms: seq<Member>, st: Style)
    ensures Print(Obj(ms), st) == "{" + EmitMembers(ms, st, "}")
  {
    assert "}" + "" == "}";
  }
}
