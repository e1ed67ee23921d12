/** Parsing what was printed gives the value back, for every value, style and following text. */
module JsonRoundTrip {
  import opened Text
  import opened Json

  /** What may follow a value without being read as part of a number. */
  predicate Ends(tail: string) { tail == "" || !NumChar(tail[0]) }

  // ----- strings -----

  lemma HexCharRoundTrip(d: nat)
    requires d < 16
    ensures HexValue(HexChar(d)) == Some(d)
  {
  }

  lemma Hex4RoundTrip(n: nat, tail: string)
    requires n < 0x1_0000
    ensures ParseHex4(Hex4(n) + tail) == Some(n)
  {
    var a := n / 16;
    var b := a / 16;
    var c := b / 16;
    HexCharRoundTrip(n % 16);
    HexCharRoundTrip(a % 16);
    HexCharRoundTrip(b % 16);
    HexCharRoundTrip(c);
    var s := Hex4(n) + tail;
    assert s[0] == HexChar(c) && s[1] == HexChar(b % 16) && s[2] == HexChar(a % 16) && s[3] == HexChar(n % 16);
  }

  /** A character of the basic plane written as one \u escape. */
  lemma UnitRoundTrip(n: nat, tail: string)
    requires n < 0xD800 || 0xE000 <= n < 0x1_0000
    ensures ParseEscape("u" + Hex4(n) + tail) == Some((n as char, tail))
  {
    var e := "u" + Hex4(n) + tail;
    Hex4RoundTrip(n, tail);
    assert e[1..] == Hex4(n) + tail && e[5..] == tail;
  }

  lemma JoinSplit(n: nat)
    requires 0x1_0000 <= n < 0x11_0000
    ensures 0xD800 <= HighUnit(n) < 0xDC00 <= LowUnit(n) < 0xE000
    ensures JoinPair(HighUnit(n), LowUnit(n)) == n as char
  {
  }

  /** A surrogate pair of escapes is read as one character. */
  lemma PairRoundTrip(hi: nat, lo: nat, tail: string)
    requires 0xD800 <= hi < 0xDC00 <= lo < 0xE000
    ensures ParseEscape("u" + Hex4(hi) + "\\u" + Hex4(lo) + tail) == Some((JoinPair(hi, lo), tail))
  {
    hide Hex4, ParseHex4, JoinPair;
    var e := "u" + Hex4(hi) + "\\u" + Hex4(lo) + tail;
    var t := "\\u" + Hex4(lo) + tail;
    Hex4RoundTrip(hi, t);
    Hex4RoundTrip(lo, tail);
    assert e[1..] == Hex4(hi) + t;
    assert e[5] == '\\' && e[6] == 'u';
    assert e[7..] == Hex4(lo) + tail && e[11..] == tail;
  }

  lemma EscapeRoundTrip(c: char, ascii: bool, tail: string)
    ensures var s := EscapeChar(c, ascii) + tail;
            if s[0] == '\\' then ParseEscape(s[1..]) == Some((c, tail))
            else s == [c] + tail && s[0] != '"' && s[0] >= ' '
  {
    var s := EscapeChar(c, ascii) + tail;
    var e := s[1..];
    var n := c as int;
    if c == '"' || c == '\\' || c == '\n' || c == '\r' || c == '\t' || c == 8 as char || c == 12 as char {
      assert e[1..] == tail;
    } else if n < 0x20 || (ascii && 0x7F <= n < 0x1_0000) {
      assert e == "u" + Hex4(n) + tail;
      UnitRoundTrip(n, tail);
    } else if ascii && 0x1_0000 <= n {
      JoinSplit(n);
      assert e == "u" + Hex4(HighUnit(n)) + "\\u" + Hex4(LowUnit(n)) + tail;
      PairRoundTrip(HighUnit(n), LowUnit(n), tail);
    }
  }

  lemma {:induction false} StringRoundTrip(s: string, ascii: bool, tail: string)
    ensures ParseString(EmitString(s, ascii, tail)) == Some((s, tail))
  {
    if s == "" {
      assert EmitString(s, ascii, tail)[1..] == tail;
    } else {
      var more := EmitString(s[1..], ascii, tail);
      EscapeRoundTrip(s[0], ascii, more);
      StringRoundTrip(s[1..], ascii, tail);
      assert s == [s[0]] + s[1..];
      var text := EscapeChar(s[0], ascii) + more;
      if text[0] != '\\' {
        assert text[1..] == more;
      }
    }
  }

  // ----- numbers -----

  lemma {:induction false} NumRunExact(s: string, tail: string)
    requires (forall i :: 0 <= i < |s| ==> NumChar(s[i])) && Ends(tail)
    ensures NumRun(s + tail) == |s|
  {
    if s != "" {
      NumRunExact(s[1..], tail);
      assert (s + tail)[1..] == s[1..] + tail;
    } else {
      assert s + tail == tail;
    }
  }

  lemma IntTextLexeme(n: int)
    ensures var s := IntText(n);
            s != "" && (forall i :: 0 <= i < |s| ==> NumChar(s[i])) && IsIntLexeme(s) && IntValue(s) == n
  {
    if n < 0 {
      assert IntText(n)[1..] == NatText(-n);
    }
  }

  /** A number lexeme followed by text that cannot extend it is read back exactly. */
  lemma NumberRoundTrip(j: Json, tail: string)
    requires j.Int? || (j.Float? && Valid(j))
    requires Ends(tail)
    ensures var s := (if j.Int? then IntText(j.n) else j.text) + tail;
            s != "" && NumChar(s[0]) && ParseNumber(s) == Some((j, tail))
  {
    if j.Int? {
      IntTextLexeme(j.n);
    }
    var s := if j.Int? then IntText(j.n) else j.text;
    NumRunExact(s, tail);
    assert (s + tail)[..|s|] == s && (s + tail)[|s|..] == tail;
  }

  // ----- values -----

  lemma NumberValueRoundTrip(j: Json, st: Style, tail: string)
    requires j.Int? || (j.Float? && Valid(j))
    requires Ends(tail)
    ensures var s := Emit(j, st, tail); s != "" && NumChar(s[0]) && ParseValue(s) == Some((j, tail))
  {
    NumberRoundTrip(j, tail);
  }

  lemma KeywordRoundTrip(j: Json, st: Style, tail: string)
    requires j.Null? || j.Bool?
    ensures var s := Emit(j, st, tail);
            ParseValue(s) == Some((j, tail)) && s != "" && (s[0] == 'n' || s[0] == 't' || s[0] == 'f')
  {
    var s := Emit(j, st, tail);
    if j.Null? {
      assert s[4..] == tail;
    } else if j.b {
      assert "true" <= s && s[4..] == tail;
    } else {
      assert "false" <= s && s[5..] == tail;
    }
  }

  lemma StrRoundTrip(cs: string, st: Style, tail: string)
    ensures var s := Emit(Str(cs), st, tail); s[0] == '"' && ParseValue(s) == Some((Str(cs), tail))
  {
    var s := Emit(Str(cs), st, tail);
    StringRoundTrip(cs, st.ascii, tail);
    assert s[1..] == EmitString(cs, st.ascii, tail);
  }

  lemma ParseArray(s: string, body: string)
    requires s == "[" + body && body != "" && !IsSpace(body[0])
    ensures ParseValue(s) ==
            if body[0] == ']' then Some((Arr([]), body[1..]))
            else match ParseItems(body) case None => None case Some(p) => Some((Arr(p.0), p.1))
  {
    assert s[1..] == body;
  }

  lemma ParseObject(s: string, body: string)
    requires s == "{" + body && body != "" && !IsSpace(body[0])
    ensures ParseValue(s) ==
            if body[0] == '}' then Some((Obj([]), body[1..]))
            else match ParseMembers(body) case None => None case Some(p) => Some((Obj(p.0), p.1))
  {
    assert s[1..] == body;
  }

  /** `Emit` and `ParseValue` are inverse, whatever follows the value. */
  lemma ValueRoundTrip(j: Json, st: Style, tail: string)
    requires Valid(j) && Ends(tail)
    ensures var s := Emit(j, st, tail);
            ParseValue(s) == Some((j, tail)) && s != "" && !IsSpace(s[0]) && s[0] != ']' && s[0] != '}'
    decreases j, 1
  {
    if j.Arr? {
      var body := EmitItems(j.items, st, "]" + tail);
      if j.items == [] {
        assert body[1..] == tail;
      } else {
        ItemsRoundTrip(j.items, st, tail);
      }
      ParseArray("[" + body, body);
    } else if j.Obj? {
      var body := EmitMembers(j.members, st, "}" + tail);
      if j.members == [] {
        assert body[1..] == tail;
      } else {
        MembersRoundTrip(j.members, st, tail);
      }
      ParseObject("{" + body, body);
    } else if j.Str? {
      StrRoundTrip(j.s, st, tail);
    } else if j.Int? || j.Float? {
      NumberValueRoundTrip(j, st, tail);
    } else {
      KeywordRoundTrip(j, st, tail);
    }
  }

  lemma ItemsStep(s: string, v: Json, rest: string)
    requires ParseValue(s) == Some((v, rest)) && rest != "" && (rest[0] == ']' || rest[0] == ',')
    ensures rest[0] == ']' ==> ParseItems(s) == Some(([v], rest[1..]))
    ensures rest[0] == ',' && ParseItems(rest[1..]).Some? ==>
              var p := ParseItems(rest[1..]).value; ParseItems(s) == Some(([v] + p.0, p.1))
  {
    assert SkipSpace(rest) == rest;
  }

  lemma ItemsRoundTrip(items: seq<Json>, st: Style, tail: string)
    requires items != [] && forall i :: 0 <= i < |items| ==> Valid(items[i])
    ensures var s := EmitItems(items, st, "]" + tail);
            s != "" && !IsSpace(s[0]) && s[0] != ']' && ParseItems(s) == Some((items, tail))
    decreases items, 0
  {
    hide ParseValue, ParseItems, SkipSpace, Emit, Valid, Style.Comma;
    var close := "]" + tail;
    var v := items[0];
    if |items| == 1 {
      ValueRoundTrip(v, st, close);
      ItemsStep(Emit(v, st, close), v, close);
      assert close[1..] == tail && items == [v];
    } else {
      var more := EmitItems(items[1..], st, close);
      var rest := st.Comma() + more;
      ItemsRoundTrip(items[1..], st, tail);
      CommaSkipped(st, more);
      ItemsAfterSpace(rest[1..]);
      ValueRoundTrip(v, st, rest);
      ItemsStep(Emit(v, st, rest), v, rest);
      assert items == [v] + items[1..];
    }
  }

  lemma ColonSkipped(st: Style, v: string)
    requires v != "" && !IsSpace(v[0])
    ensures var s := st.Colon() + v;
            s[0] == ':' && SkipSpace(s) == s && ParseValue(s[1..]) == ParseValue(v)
  {
    var s := st.Colon() + v;
    if st.spaced {
      assert s[1..] == " " + v && s[1..][1..] == v;
    } else {
      assert s[1..] == v;
    }
    ValueAfterSpace(s[1..]);
  }

  lemma MemberStep(s: string, key: string, afterKey: string, v: Json, rest: string)
    requires s != "" && s[0] == '"' && ParseString(s[1..]) == Some((key, afterKey))
    requires afterKey != "" && afterKey[0] == ':' && ParseValue(afterKey[1..]) == Some((v, rest))
    ensures ParseMember(s) == Some((Member(key, v), rest))
  {
    assert SkipSpace(s) == s && SkipSpace(afterKey) == afterKey;
  }

  lemma MemberRoundTrip(m: Member, st: Style, v: string, rest: string)
    requires ParseValue(v) == Some((m.value, rest)) && v != "" && !IsSpace(v[0])
    ensures ParseMember("\"" + EmitString(m.key, st.ascii, st.Colon() + v)) == Some((m, rest))
  {
    var afterKey := st.Colon() + v;
    ColonSkipped(st, v);
    StringRoundTrip(m.key, st.ascii, afterKey);
    var s := "\"" + EmitString(m.key, st.ascii, afterKey);
    assert s[1..] == EmitString(m.key, st.ascii, afterKey);
    MemberStep(s, m.key, afterKey, m.value, rest);
  }

  lemma MembersStep(s: string, m: Member, rest: string)
    requires ParseMember(s) == Some((m, rest)) && rest != "" && (rest[0] == '}' || rest[0] == ',')
    ensures rest[0] == '}' ==> ParseMembers(s) == Some(([m], rest[1..]))
    ensures rest[0] == ',' && ParseMembers(rest[1..]).Some? ==>
              var p := ParseMembers(rest[1..]).value; ParseMembers(s) == Some(([m] + p.0, p.1))
  {
    assert SkipSpace(rest) == rest;
  }

  lemma MembersRoundTrip(ms: seq<Member>, st: Style, tail: string)
    requires ms != [] && forall i :: 0 <= i < |ms| ==> Valid(ms[i].value)
    ensures var s := EmitMembers(ms, st, "}" + tail);
            s != "" && s[0] == '"' && ParseMembers(s) == Some((ms, tail))
    decreases ms, 0
  {
    hide ParseValue, ParseMembers, ParseMember, SkipSpace, Emit, Valid, EmitString, Style.Comma;
    var close := "}" + tail;
    var m := ms[0];
    if |ms| == 1 {
      ValueRoundTrip(m.value, st, close);
      MemberRoundTrip(m, st, Emit(m.value, st, close), close);
      MembersStep(EmitMembers(ms, st, close), m, close);
      assert close[1..] == tail && ms == [m];
    } else {
      var more := EmitMembers(ms[1..], st, close);
      var rest := st.Comma() + more;
      MembersRoundTrip(ms[1..], st, tail);
      CommaSkipped(st, more);
      MembersAfterSpace(rest[1..]);
      ValueRoundTrip(m.value, st, rest);
      MemberRoundTrip(m, st, Emit(m.value, st, rest), rest);
      MembersStep(EmitMembers(ms, st, close), m, rest);
      assert ms == [m] + ms[1..];
    }
  }

  // ----- white space before a value, an item list and a member list is ignored -----

  lemma {:induction false} SkipSpaceTwice(s: string)
    ensures SkipSpace(SkipSpace(s)) == SkipSpace(s)
  {
    if s != "" && IsSpace(s[0]) {
      SkipSpaceTwice(s[1..]);
    }
  }

  lemma ValueAfterSpace(s: string)
    ensures ParseValue(s) == ParseValue(SkipSpace(s))
  {
    SkipSpaceTwice(s);
  }

  lemma ItemsAfterSpace(s: string)
    ensures ParseItems(s) == ParseItems(SkipSpace(s))
  {
    ValueAfterSpace(s);
  }

  lemma MembersAfterSpace(s: string)
    ensures ParseMembers(s) == ParseMembers(SkipSpace(s))
  {
    SkipSpaceTwice(s);
    assert ParseMember(s) == ParseMember(SkipSpace(s));
  }

  lemma CommaSkipped(st: Style, more: string)
    requires more != "" && !IsSpace(more[0])
    ensures var rest := st.Comma() + more;
            rest[0] == ',' && SkipSpace(rest) == rest && SkipSpace(rest[1..]) == more
  {
    var rest := st.Comma() + more;
    assert rest[1..] == if st.spaced then " " + more else more;
    if st.spaced { assert rest[1..][1..] == more; }
  }

  // ----- whole texts -----

  function Print(j: Json, st: Style): string { Emit(j, st, "") }

  /** `json.loads(json.dumps(j)) == j`, for every style. */
  lemma PrintParse(j: Json, st: Style)
    requires Valid(j)
    ensures Parse(Print(j, st)) == Some(j)
  {
    ValueRoundTrip(j, st, "");
  }

  /** Two different values never print alike, even in different styles. */
  lemma PrintInjective(a: Json, b: Json, sa: Style, sb: Style)
    requires Valid(a) && Valid(b) && Print(a, sa) == Print(b, sb)
    ensures a == b
  {
    PrintParse(a, sa);
    PrintParse(b, sb);
  }
}
