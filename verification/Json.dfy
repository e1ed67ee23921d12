/** JSON values, the printer `json.dumps` is for them, and a parser (grammar: sections 2 to 7 of RFC 8259).

    An object keeps its members in insertion order, as a Python dict does. A float is kept as the
    text Python prints for it, which always has a '.', an 'e' or an 'E'. */
module Json {
  import opened Text

  datatype Json =
    | Null
    | Bool(b: bool)
    | Int(n: int)
    | Float(text: string)
    | Str(s: string)
    | Arr(items: seq<Json>)
    | Obj(members: seq<Member>)

  datatype Member = Member(key: string, value: Json)

  // ----- well-formed values -----

  predicate UniqueKeys(ms: seq<Member>) {
    forall i, j :: 0 <= i < j < |ms| ==> ms[i].key != ms[j].key
  }

  /** What every Python value that came from, or goes to, JSON satisfies. */
  predicate Valid(j: Json) {
    match j
    case Float(text) => IsFloatLexeme(text)
    case Arr(items) => forall i :: 0 <= i < |items| ==> Valid(items[i])
    case Obj(ms) => UniqueKeys(ms) && forall i :: 0 <= i < |ms| ==> Valid(ms[i].value)
    case _ => true
  }

  // ----- number lexemes -----

  predicate NumChar(c: char) { IsDigit(c) || c == '-' || c == '+' || c == '.' || c == 'e' || c == 'E' }

  /** Length of the longest prefix made of number characters. */
  function NumRun(s: string): (n: nat)
    ensures n <= |s|
  {
    if s != "" && NumChar(s[0]) then 1 + NumRun(s[1..]) else 0
  }

  function DigitRun(s: string): (n: nat)
    ensures n <= |s| && AllDigits(s[..n])
  {
    if s != "" && IsDigit(s[0]) then
      var n := DigitRun(s[1..]);
      assert s[..n + 1] == [s[0]] + s[1..][..n];
      1 + n
    else 0
  }

  function Unsigned(s: string): string { if s != "" && s[0] == '-' then s[1..] else s }

  predicate IsIntLexeme(s: string) {
    var u := Unsigned(s);
    u != "" && AllDigits(u) && (u[0] == '0' ==> |u| == 1)
  }

  predicate IsExponent(s: string) {
    s != "" && (s[0] == 'e' || s[0] == 'E')
    && var d := if |s| > 1 && (s[1] == '+' || s[1] == '-') then s[2..] else s[1..];
       d != "" && AllDigits(d)
  }

  predicate IsFractionOrExponent(s: string) {
    s != "" &&
    if s[0] == '.' then
      var n := DigitRun(s[1..]);
      n > 0 && (s[1 + n..] == "" || IsExponent(s[1 + n..]))
    else IsExponent(s)
  }

  predicate IsFloatLexeme(s: string) {
    && s != "" && (s[0] == '-' || IsDigit(s[0]))
    && (forall i :: 0 <= i < |s| ==> NumChar(s[i]))
    && !IsIntLexeme(s)
    && var u := Unsigned(s);
       var n := DigitRun(u);
       n > 0 && (u[0] == '0' ==> n == 1) && IsFractionOrExponent(u[n..])
  }

  /** Every float in `j` is a float lexeme; with unique keys throughout this is `Valid`. */
  predicate Numbers(j: Json) {
    match j
    case Float(text) => IsFloatLexeme(text)
    case Arr(items) => forall i :: 0 <= i < |items| ==> Numbers(items[i])
    case Obj(ms) => forall i :: 0 <= i < |ms| ==> Numbers(ms[i].value)
    case _ => true
  }

  function IntText(n: int): string { if n < 0 then "-" + NatText(-n) else NatText(n) }

  function IntValue(s: string): int
    requires IsIntLexeme(s)
  {
    if s[0] == '-' then -(NatValue(s[1..]) as int) else NatValue(s) as int
  }

  // ----- printing -----

  /** `ascii`: the `ensure_ascii` option. `spaced`: the default separators ", " and ": ". */
  datatype Style = Style(ascii: bool, spaced: bool) {
    function Comma(): string { if spaced then ", " else "," }
    function Colon(): string { if spaced then ": " else ":" }
  }

  function Hex4(n: nat): (s: string)
    requires n < 0x1_0000
    ensures |s| == 4
  {
    var (a, b, c) := (n / 16, n / 16 / 16, n / 16 / 16 / 16);
    [HexChar(c), HexChar(b % 16), HexChar(a % 16), HexChar(n % 16)]
  }

  /** The surrogate pair of a character beyond the basic plane, and back. */
  function HighUnit(n: nat): nat
    requires 0x1_0000 <= n < 0x11_0000
  {
    0xD800 + (n - 0x1_0000) / 0x400
  }

  function LowUnit(n: nat): nat
    requires 0x1_0000 <= n < 0x11_0000
  {
    0xDC00 + (n - 0x1_0000) % 0x400
  }

  function JoinPair(hi: nat, lo: nat): char
    requires 0xD800 <= hi < 0xDC00 <= lo < 0xE000
  {
    (0x1_0000 + (hi - 0xD800) * 0x400 + (lo - 0xDC00)) as char
  }

  function EscapeChar(c: char, ascii: bool): (s: string)
    ensures s != ""
  {
    if c == '"' then "\\\""
    else if c == '\\' then "\\\\"
    else if c == '\n' then "\\n"
    else if c == '\r' then "\\r"
    else if c == '\t' then "\\t"
    else if c == 8 as char then "\\b"
    else if c == 12 as char then "\\f"
    else
      var n := c as int;
      if n < 0x20 || (ascii && 0x7F <= n < 0x1_0000) then "\\u" + Hex4(n)
      else if ascii && 0x1_0000 <= n then
        "\\u" + Hex4(HighUnit(n)) + "\\u" + Hex4(LowUnit(n))
      else [c]
  }

  /** The escaped characters of `s`, the closing quote, then `tail`. */
  function EmitString(s: string, ascii: bool, tail: string): string {
    if s == "" then "\"" + tail else EscapeChar(s[0], ascii) + EmitString(s[1..], ascii, tail)
  }

  /** The text of `j` followed by `tail`, members in the order they are held. */
  function Emit(j: Json, st: Style, tail: string): string
    decreases j, 1
  {
    match j
    case Null => "null" + tail
    case Bool(b) => (if b then "true" else "false") + tail
    case Int(n) => IntText(n) + tail
    case Float(text) => text + tail
    case Str(s) => "\"" + EmitString(s, st.ascii, tail)
    case Arr(items) => "[" + EmitItems(items, st, "]" + tail)
    case Obj(ms) => "{" + EmitMembers(ms, st, "}" + tail)
  }

  function EmitItems(items: seq<Json>, st: Style, tail: string): string
    decreases items, 0
  {
    if items == [] then tail
    else if |items| == 1 then Emit(items[0], st, tail)
    else Emit(items[0], st, st.Comma() + EmitItems(items[1..], st, tail))
  }

  function EmitMembers(ms: seq<Member>, st: Style, tail: string): string
    decreases ms, 0
  {
    if ms == [] then tail
    else
      var rest := if |ms| == 1 then tail else st.Comma() + EmitMembers(ms[1..], st, tail);
      "\"" + EmitString(ms[0].key, st.ascii, st.Colon() + Emit(ms[0].value, st, rest))
  }

  // ----- parsing -----

  predicate IsSpace(c: char) { c == ' ' || c == '\t' || c == '\n' || c == '\r' }

  function SkipSpace(s: string): (t: string)
    ensures |t| <= |s|
  {
    if s != "" && IsSpace(s[0]) then SkipSpace(s[1..]) else s
  }

  function ParseHex4(s: string): (r: Option<nat>)
    ensures r.Some? ==> |s| >= 4 && r.value < 0x1_0000
  {
    if |s| < 4 then None
    else
      var a :- HexValue(s[0]);
      var b :- HexValue(s[1]);
      var c :- HexValue(s[2]);
      var d :- HexValue(s[3]);
      Some(4096 * a + 256 * b + 16 * c + d)
  }

  /** One escape sequence after its backslash: the character and the text after it. */
  function ParseEscape(s: string): (r: Option<(char, string)>)
    ensures r.Some? ==> |r.value.1| < |s|
  {
    if s == "" then None
    else match s[0]
      case '"' => Some(('"', s[1..]))
      case '\\' => Some(('\\', s[1..]))
      case '/' => Some(('/', s[1..]))
      case 'n' => Some(('\n', s[1..]))
      case 'r' => Some(('\r', s[1..]))
      case 't' => Some(('\t', s[1..]))
      case 'b' => Some((8 as char, s[1..]))
      case 'f' => Some((12 as char, s[1..]))
      case 'u' =>
        var n :- ParseHex4(s[1..]);
        if n < 0xD800 || 0xE000 <= n then Some((n as char, s[5..]))
        else if n < 0xDC00 && |s| >= 7 && s[5] == '\\' && s[6] == 'u' then
          var m :- ParseHex4(s[7..]);
          if 0xDC00 <= m < 0xE000 then Some((JoinPair(n, m), s[11..])) else None
        else None
      case _ => None
  }

  /** A string after its opening quote: its characters and the text after the closing quote. */
  function ParseString(s: string): (r: Option<(string, string)>)
    ensures r.Some? ==> |r.value.1| < |s|
    decreases |s|
  {
    if s == "" then None
    else if s[0] == '"' then Some(("", s[1..]))
    else if s[0] == '\\' then
      var (c, rest) :- ParseEscape(s[1..]);
      var (cs, rest') :- ParseString(rest);
      Some(([c] + cs, rest'))
    else if s[0] < ' ' then None
    else
      var (cs, rest) :- ParseString(s[1..]);
      Some(([s[0]] + cs, rest))
  }

  function ParseNumber(s: string): (r: Option<(Json, string)>)
    requires s != "" && NumChar(s[0])
    ensures r.Some? ==> |r.value.1| < |s| && Numbers(r.value.0)
  {
    var n := NumRun(s);
    if IsIntLexeme(s[..n]) then Some((Int(IntValue(s[..n])), s[n..]))
    else if IsFloatLexeme(s[..n]) then Some((Float(s[..n]), s[n..]))
    else None
  }

  /** One value at the start of `s`, and the text after it. Object members keep their text order,
      duplicates included: `Dict` and `AllUnique` say what Python does with those. */
  function ParseValue(s: string): (r: Option<(Json, string)>)
    ensures r.Some? ==> |r.value.1| < |s| && Numbers(r.value.0)
    decreases |s|, 2
  {
    var t := SkipSpace(s);
    if t == "" then None
    else if t[0] == '"' then
      var (cs, rest) :- ParseString(t[1..]);
      Some((Str(cs), rest))
    else if t[0] == '[' then
      var u := SkipSpace(t[1..]);
      if u != "" && u[0] == ']' then Some((Arr([]), u[1..]))
      else
        var (items, rest) :- ParseItems(t[1..]);
        Some((Arr(items), rest))
    else if t[0] == '{' then
      var u := SkipSpace(t[1..]);
      if u != "" && u[0] == '}' then Some((Obj([]), u[1..]))
      else
        var (ms, rest) :- ParseMembers(t[1..]);
        Some((Obj(ms), rest))
    else if NumChar(t[0]) then ParseNumber(t)
    else if "null" <= t then Some((Null, t[4..]))
    else if "true" <= t then Some((Bool(true), t[4..]))
    else if "false" <= t then Some((Bool(false), t[5..]))
    else None
  }

  function ParseItems(s: string): (r: Option<(seq<Json>, string)>)
    ensures r.Some? ==> |r.value.1| < |s| && forall i :: 0 <= i < |r.value.0| ==> Numbers(r.value.0[i])
    decreases |s|, 4
  {
    var (v, rest) :- ParseValue(s);
    var t := SkipSpace(rest);
    if t == "" then None
    else if t[0] == ']' then Some(([v], t[1..]))
    else if t[0] == ',' then
      var (vs, rest') :- ParseItems(t[1..]);
      Some(([v] + vs, rest'))
    else None
  }

  /** One member: a quoted key, a colon and a value. */
  function ParseMember(s: string): (r: Option<(Member, string)>)
    ensures r.Some? ==> |r.value.1| < |s| && Numbers(r.value.0.value)
    decreases |s|, 3
  {
    var t := SkipSpace(s);
    if t == "" || t[0] != '"' then None
    else
      var (key, afterKey) :- ParseString(t[1..]);
      var u := SkipSpace(afterKey);
      if u == "" || u[0] != ':' then None
      else
        var (v, rest) :- ParseValue(u[1..]);
        Some((Member(key, v), rest))
  }

  function ParseMembers(s: string): (r: Option<(seq<Member>, string)>)
    ensures r.Some? ==> |r.value.1| < |s| && forall i :: 0 <= i < |r.value.0| ==> Numbers(r.value.0[i].value)
    decreases |s|, 4
  {
    var (m, rest) :- ParseMember(s);
    var t := SkipSpace(rest);
    if t == "" then None
    else if t[0] == '}' then Some(([m], t[1..]))
    else if t[0] == ',' then
      var (ms, rest') :- ParseMembers(t[1..]);
      Some(([m] + ms, rest'))
    else None
  }

  /** `json.loads`: one value and nothing but white space after it. */
  function Parse(s: string): (r: Option<Json>)
    ensures r.Some? ==> Numbers(r.value)
  {
    var (j, rest) :- ParseValue(s);
    if SkipSpace(rest) == "" then Some(j) else None
  }
}
