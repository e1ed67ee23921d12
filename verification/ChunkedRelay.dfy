/** `H._relay`: an upstream body rewritten as HTTP chunks, against a decoder for chunked bodies
    (section 7.1 of RFC 9112). */
module ChunkedRelay {
  import opened Text

  type Bytes = seq<Byte>

  const CR: Byte := 13
  const LF: Byte := 10
  const SEMICOLON: Byte := 59
  const CRLF: Bytes := [CR, LF]
  const LAST: Bytes := [48] + CRLF + CRLF

  // ----- the decoder -----

  datatype Decoded = Complete(body: Bytes, rest: Bytes) | Incomplete | Malformed

  /** Where the first CRLF starts. */
  function LineEnd(s: Bytes): (r: Option<nat>)
    ensures r.Some? ==> r.value + 2 <= |s| && s[r.value] == CR && s[r.value + 1] == LF
  {
    if |s| < 2 then None
    else if s[0] == CR && s[1] == LF then Some(0)
    else match LineEnd(s[1..]) case Some(i) => Some(i + 1) case None => None
  }

  function HexDigit(b: Byte): Option<nat> { HexValue(b as char) }

  /** The value of the hexadecimal digits at the start of `s`, and how many there are. */
  function HexPrefix(s: Bytes, value: nat): (nat, nat)
  {
    if s == [] || HexDigit(s[0]).None? then (value, 0)
    else
      var (v, n) := HexPrefix(s[1..], value * 16 + HexDigit(s[0]).value);
      (v, n + 1)
  }

  /** chunk-size with an optional chunk-ext */
  function ChunkSize(line: Bytes): Option<nat> {
    var (value, digits) := HexPrefix(line, 0);
    if digits == 0 || digits > |line| then None
    else if digits == |line| || line[digits] == SEMICOLON then Some(value)
    else None
  }

  /** Field lines up to the empty line that ends the message. */
  function Trailers(s: Bytes): Decoded {
    match LineEnd(s)
    case None => Incomplete
    case Some(i) => if i == 0 then Complete([], s[2..]) else Trailers(s[i + 2..])
  }

  function Decode(s: Bytes): Decoded
    decreases |s|
  {
    match LineEnd(s)
    case None => Incomplete
    case Some(i) =>
      match ChunkSize(s[..i])
      case None => Malformed
      case Some(n) => if n == 0 then Trailers(s[i + 2..]) else DecodeData(s[i + 2..], n)
  }

  function DecodeData(s: Bytes, n: nat): Decoded
    requires n > 0
    decreases |s|
  {
    if |s| < n + 2 then Incomplete
    else if s[n..n + 2] != CRLF then Malformed
    else
      match Decode(s[n + 2..])
      case Complete(body, rest) => Complete(s[..n] + body, rest)
      case other => other
  }

  // ----- a proper prefix of a complete message is incomplete -----

  lemma {:induction false} LineEndPrefix(s: Bytes, n: nat)
    requires n <= |s|
    ensures LineEnd(s[..n]) == (match LineEnd(s) case Some(i) => if i + 2 <= n then Some(i) else None case None => None)
  {
    if n >= 2 && !(s[0] == CR && s[1] == LF) {
      LineEndPrefix(s[1..], n - 1);
      assert s[..n][1..] == s[1..][..n - 1];
    }
  }

  lemma {:induction false} TrailersPrefix(s: Bytes, n: nat)
    requires Trailers(s).Complete? && n + |Trailers(s).rest| < |s|
    ensures Trailers(s[..n]) == Incomplete
    decreases |s|
  {
    LineEndPrefix(s, n);
    var i := LineEnd(s).value;
    if i != 0 && i + 2 <= n {
      assert s[..n][i + 2..] == s[i + 2..][..n - (i + 2)];
      TrailersPrefix(s[i + 2..], n - (i + 2));
    }
  }

  /** No proper prefix of a complete chunked message is itself complete. */
  lemma {:induction false} PrefixIncomplete(s: Bytes, n: nat)
    requires Decode(s).Complete? && n + |Decode(s).rest| < |s|
    ensures Decode(s[..n]) == Incomplete
    decreases |s|, 1
  {
    hide ChunkSize, LineEnd, Trailers, DecodeData;
    LineEndPrefix(s, n);
    var i := LineEnd(s).value;
    if i + 2 <= n {
      assert s[..n][..i] == s[..i] && s[..n][i + 2..] == s[i + 2..][..n - (i + 2)];
      if ChunkSize(s[..i]).value == 0 {
        TrailersPrefix(s[i + 2..], n - (i + 2));
      } else {
        DataPrefix(s[i + 2..], ChunkSize(s[..i]).value, n - (i + 2));
      }
    }
  }

  lemma {:induction false} DataPrefix(s: Bytes, size: nat, n: nat)
    requires size > 0 && DecodeData(s, size).Complete? && n + |DecodeData(s, size).rest| < |s|
    ensures DecodeData(s[..n], size) == Incomplete
    decreases |s|, 0
  {
    hide Decode;
    if n >= size + 2 {
      assert s[..n][size..size + 2] == s[size..size + 2];
      assert s[..n][size + 2..] == s[size + 2..][..n - (size + 2)];
      PrefixIncomplete(s[size + 2..], n - (size + 2));
    }
  }

  // ----- the printer -----

  /** `f"{n:x}"` */
  function HexText(n: nat): (s: Bytes)
    ensures s != [] && forall k :: 0 <= k < |s| ==> HexDigit(s[k]).Some? && s[k] != CR
  {
    if n < 16 then [HexChar(n) as int] else HexText(n / 16) + [HexChar(n % 16) as int]
  }

  function Chunk(block: Bytes): Bytes { HexText(|block|) + CRLF + block + CRLF }

  function Framed(blocks: seq<Bytes>): Bytes { if blocks == [] then [] else Chunk(blocks[0]) + Framed(blocks[1..]) }

  function Flatten(blocks: seq<Bytes>): Bytes { if blocks == [] then [] else blocks[0] + Flatten(blocks[1..]) }

  lemma {:induction false} HexPrefixAppend(a: Bytes, d: Byte, value: nat)
    requires (forall k :: 0 <= k < |a| ==> HexDigit(a[k]).Some?) && HexDigit(d).Some?
    ensures HexPrefix(a, value).1 == |a|
    ensures HexPrefix(a + [d], value) == (HexPrefix(a, value).0 * 16 + HexDigit(d).value, |a| + 1)
  {
    hide HexDigit;
    if a == [] {
      assert [d][1..] == [];
    } else {
      HexPrefixAppend(a[1..], d, value * 16 + HexDigit(a[0]).value);
      assert (a + [d])[1..] == a[1..] + [d];
    }
  }

  lemma HexCharDigit(d: nat)
    requires d < 16
    ensures HexDigit(HexChar(d) as int) == Some(d)
  {
  }

  /** Reading back a printed size. */
  lemma {:induction false} HexRoundTrip(n: nat)
    ensures HexPrefix(HexText(n), 0) == (n, |HexText(n)|)
  {
    HexCharDigit(n % 16);
    hide HexDigit;
    if n < 16 {
      assert HexText(n)[1..] == [];
    } else {
      HexRoundTrip(n / 16);
      HexPrefixAppend(HexText(n / 16), HexChar(n % 16) as int, 0);
    }
  }

  lemma {:induction false} LineEndAt(a: Bytes, tail: Bytes)
    requires forall k :: 0 <= k < |a| ==> a[k] != CR
    ensures LineEnd(a + CRLF + tail) == Some(|a|)
  {
    var s := a + CRLF + tail;
    if a != [] {
      LineEndAt(a[1..], tail);
      assert s[1..] == a[1..] + CRLF + tail;
    }
  }

  /** One printed chunk is read back whole. */
  lemma DecodeChunk(block: Bytes, tail: Bytes)
    requires block != []
    ensures Decode(Chunk(block) + tail) == (match Decode(tail)
                                            case Complete(body, rest) => Complete(block + body, rest)
                                            case other => other)
  {
    hide HexText, LineEnd, ChunkSize;
    var size, data := HexText(|block|), block + CRLF + tail;
    var s := Chunk(block) + tail;
    assert s == size + CRLF + data;
    LineEndAt(size, data);
    SizeReads(|block|);
    assert s[..|size|] == size && s[|size| + 2..] == data;
    assert data[..|block|] == block && data[|block|..|block| + 2] == CRLF && data[|block| + 2..] == tail;
  }

  lemma SizeReads(n: nat)
    ensures ChunkSize(HexText(n)) == Some(n)
  {
    HexRoundTrip(n);
  }

  lemma {:induction false} HexPrefixStops(digits: Bytes, rest: Bytes, value: nat)
    requires HexPrefix(digits, value).1 == |digits| && (rest == [] || HexDigit(rest[0]).None?)
    ensures HexPrefix(digits + rest, value) == HexPrefix(digits, value)
  {
    hide HexDigit;
    if digits == [] {
      assert digits + rest == rest;
    } else {
      assert (digits + rest)[1..] == digits[1..] + rest;
      HexPrefixStops(digits[1..], rest, value * 16 + HexDigit(digits[0]).value);
    }
  }

  /** A size is read up to its extension, which begins with a semicolon; anything else after it is malformed. */
  lemma SizeExact(n: nat, rest: Bytes)
    requires rest == [] || HexDigit(rest[0]).None?
    ensures ChunkSize(HexText(n) + rest) == if rest == [] || rest[0] as int == 0x3B then Some(n) else None
  {
    HexRoundTrip(n);
    HexPrefixStops(HexText(n), rest, 0);
    assert HexText(n) != [] by { hide HexPrefix; }
    assert rest != [] ==> (HexText(n) + rest)[|HexText(n)|] == rest[0];
  }

  lemma DecodeLast(rest: Bytes)
    ensures Decode(LAST + rest) == Complete([], rest)
  {
    var s := LAST + rest;
    LineEndAt([48], CRLF + rest);
    assert s == [48] + CRLF + (CRLF + rest);
    assert s[..1] == [48] && HexPrefix([48][1..], 0) == (0, 0);
    assert s[3..] == [] + CRLF + rest;
    LineEndAt([], rest);
    assert s[3..][2..] == rest;
  }

  predicate NonEmpty(blocks: seq<Bytes>) { forall k :: 0 <= k < |blocks| ==> blocks[k] != [] }

  /** What was framed is what is decoded, and nothing after it is touched. */
  lemma {:induction false} DecodeFramed(blocks: seq<Bytes>, rest: Bytes)
    requires NonEmpty(blocks)
    ensures Decode(Framed(blocks) + LAST + rest) == Complete(Flatten(blocks), rest)
  {
    hide Decode, Chunk;
    if blocks == [] {
      DecodeLast(rest);
      assert Framed(blocks) + LAST + rest == LAST + rest;
    } else {
      var tail := Framed(blocks[1..]) + LAST + rest;
      DecodeFramed(blocks[1..], rest);
      DecodeChunk(blocks[0], tail);
      assert Framed(blocks) + LAST + rest == Chunk(blocks[0]) + tail;
    }
  }

  lemma {:induction false} FramedAppend(blocks: seq<Bytes>, b: Bytes)
    ensures Framed(blocks + [b]) == Framed(blocks) + Chunk(b) && Flatten(blocks + [b]) == Flatten(blocks) + b
  {
    hide Chunk;
    if blocks == [] {
      assert ([] + [b])[1..] == [];
    } else {
      FramedAppend(blocks[1..], b);
      assert (blocks + [b])[1..] == blocks[1..] + [b];
    }
  }

  /** A stream cut inside the chunk or the last chunk that follows some whole chunks. */
  ghost predicate CutShort(sent: Bytes, blocks: seq<Bytes>) {
    || sent == Framed(blocks)
    || (exists next :: next != [] && Framed(blocks) <= sent && sent < Framed(blocks) + Chunk(next))
    || (Framed(blocks) <= sent && sent < Framed(blocks) + LAST)
  }

  /** Such a stream is never a complete message. */
  lemma CutIsIncomplete(sent: Bytes, blocks: seq<Bytes>)
    requires NonEmpty(blocks) && CutShort(sent, blocks)
    ensures Decode(sent) == Incomplete
  {
    hide Decode, Chunk, Framed;
    if sent == Framed(blocks) || sent < Framed(blocks) + LAST {
      DecodeFramed(blocks, []);
      var whole := Framed(blocks) + LAST + [];
      PrefixIncomplete(whole, |sent|);
      assert whole[..|sent|] == sent;
    } else {
      var next :| next != [] && Framed(blocks) <= sent && sent < Framed(blocks) + Chunk(next);
      FramedAppend(blocks, next);
      DecodeFramed(blocks + [next], []);
      var whole := Framed(blocks + [next]) + LAST + [];
      PrefixIncomplete(whole, |sent|);
      assert whole[..|sent|] == sent;
    }
  }

  // ----- the relay -----

  const MAX_RESPONSE_BYTES: nat := 8_388_608
  const BLOCK_BYTES: nat := 8192

  /** The response being read; `faulted` once a read fails or the body ends early. */
  class Upstream {
    const body: Bytes
    var at: nat
    ghost var faulted: bool

    constructor (body: Bytes)
      ensures Valid() && this.body == body && at == 0 && !faulted
    {
      this.body, at, faulted := body, 0, false;
    }

    ghost predicate Valid()
      reads this
    {
      at <= |body|
    }

    /** `read1`: at most `limit` bytes, none at the end; None when it raises. */
    method Read1(limit: nat) returns (block: Option<Bytes>)
      requires Valid() && limit > 0
      modifies this
      ensures Valid() && old(at) <= at && (old(faulted) ==> faulted)
      ensures block.Some? ==>
                |block.value| <= limit && at == old(at) + |block.value| && body[old(at)..at] == block.value
      ensures block.None? ==> faulted && at == old(at)
      ensures block == Some([]) && !faulted ==> at == |body|
    {
      var raises, n: nat := *, *;
      if raises {
        faulted := true;
        return None;
      }
      var size := if n <= limit && n <= |body| - at then n else if |body| - at <= limit then |body| - at else limit;
      block := Some(body[at..at + size]);
      at := at + size;
      if size == 0 && at < |body| {
        faulted := true;
      }
    }
  }

  /** The connection to the client, from the first body byte on. */
  class Wire {
    var sent: Bytes
    ghost var faulted: bool

    constructor ()
      ensures sent == [] && !faulted
    {
      sent, faulted := [], false;
    }

    /** A failed write delivers a proper prefix. */
    method Write(b: Bytes) returns (ok: bool)
      requires b != []
      modifies this
      ensures old(faulted) || !ok ==> faulted
      ensures ok && !old(faulted) ==> !faulted
      ensures ok ==> sent == old(sent) + b
      ensures !ok ==> old(sent) <= sent && sent < old(sent) + b
    {
      var n: int := *;
      if 0 <= n < |b| {
        sent := sent + b[..n];
        faulted := true;
        return false;
      }
      sent := sent + b;
      return true;
    }
  }

  datatype Code =
    | UpstreamRejected | EmptyOrPartial | DuplicateHeader | MediaRejected | EncodingRejected
    | Framing | BodyLimit | IncompleteBody

  datatype Outcome = Finished | Rejected(status: nat, code: Code) | Broken

  predicate LengthLexeme(s: string) { 1 <= |s| <= 10 && AllDigits(s) }

  // ----- the response head -----

  datatype Field = Field(name: string, value: string)

  datatype Head = Head(status: nat, fields: seq<Field>)

  const MAX_MEDIA_CHARS: nat := 128
  const MEDIA_TYPES: set<string> := {"application/json", "application/x-ndjson", "text/event-stream"}

  /** Header fields hold Latin-1 text, in which lower-casing makes no ASCII letter of any other character. */
  function Lower(s: string): string {
    if s == "" then "" else [if 'A' <= s[0] <= 'Z' then s[0] - 'A' + 'a' else s[0]] + Lower(s[1..])
  }

  /** `get_all`: the values of the fields of that name, in order; `name` is in lower case. */
  function All(fields: seq<Field>, name: string): seq<string> {
    if fields == [] then []
    else
      var f := fields[|fields| - 1];
      All(fields[..|fields| - 1], name) + if Lower(f.name) == name then [f.value] else []
  }

  function Before(s: string, stop: char): string {
    if s == "" || s[0] == stop then "" else [s[0]] + Before(s[1..], stop)
  }

  /** `strip` on printable text. */
  function Trim(s: string): string {
    if s == "" then ""
    else if s[0] == ' ' then Trim(s[1..])
    else if s[|s| - 1] == ' ' then Trim(s[..|s| - 1])
    else s
  }

  predicate MediaAllowed(media: string) {
    && 1 <= |media| <= MAX_MEDIA_CHARS && (forall i :: 0 <= i < |media| ==> 32 <= media[i] as int < 127)
    && Lower(Trim(Before(media, ';'))) in MEDIA_TYPES
  }

  lemma {:induction false} LowerExact(s: string)
    ensures |Lower(s)| == |s|
    ensures forall i :: 0 <= i < |s| ==>
              Lower(s)[i] as int == if 65 <= s[i] as int <= 90 then s[i] as int + 32 else s[i] as int
  {
    if s != "" {
      LowerExact(s[1..]);
    }
  }

  predicate Spaces(s: string) { forall i :: 0 <= i < |s| ==> s[i] == ' ' }

  predicate NoSpaceEnds(s: string) { s != "" ==> s[0] != ' ' && s[|s| - 1] != ' ' }

  lemma {:induction false} TrimCuts(s: string) returns (l: string, r: string)
    ensures s == l + Trim(s) + r && Spaces(l) && Spaces(r) && NoSpaceEnds(Trim(s))
    decreases |s|
  {
    l, r := "", "";
    if s == "" {
    } else if s[0] == ' ' {
      l, r := TrimCuts(s[1..]);
      l := " " + l;
    } else if s[|s| - 1] == ' ' {
      l, r := TrimCuts(s[..|s| - 1]);
      r := r + " ";
    }
  }

  lemma {:induction false} TrimOf(l: string, s: string, r: string)
    requires Spaces(l) && Spaces(r) && NoSpaceEnds(s) && s != ""
    ensures Trim(l + s + r) == s
    decreases |l| + |r|
  {
    var all := l + s + r;
    if l != "" {
      assert all[1..] == l[1..] + s + r;
      TrimOf(l[1..], s, r);
    } else if r != "" {
      assert all[0] == s[0] && all[..|all| - 1] == l + s + r[..|r| - 1];
      TrimOf(l, s, r[..|r| - 1]);
    } else {
      assert all == s;
    }
  }

  lemma {:induction false} BeforeCuts(s: string, stop: char)
    ensures Before(s, stop) <= s && stop !in Before(s, stop)
    ensures Before(s, stop) == s || s[|Before(s, stop)|] == stop
  {
    if s != "" && s[0] != stop {
      BeforeCuts(s[1..], stop);
      var rest := Before(s[1..], stop);
      assert s == [s[0]] + s[1..] && Before(s, stop) == [s[0]] + rest;
      assert |rest| < |s[1..]| ==> s[1..][|rest|] == s[|rest| + 1];
    }
  }

  lemma {:induction false} BeforeOf(s: string, rest: string, stop: char)
    requires stop !in s && (rest == "" || rest[0] == stop)
    ensures Before(s + rest, stop) == s
  {
    if s != "" {
      assert (s + rest)[1..] == s[1..] + rest;
      BeforeOf(s[1..], rest, stop);
    }
  }

  /** A media type of the three, in any case, in at most 128 printable characters: spaces around it, and
      anything after a semicolon. */
  ghost predicate Media(media: string) {
    && 1 <= |media| <= 128 && (forall i :: 0 <= i < |media| ==> ' ' <= media[i] <= '~')
    && exists l, name, r, rest :: MediaParts(media, l, name, r, rest)
  }

  predicate MediaParts(media: string, l: string, name: string, r: string, rest: string) {
    && media == l + name + r + rest && Spaces(l) && Spaces(r) && (rest == "" || rest[0] == ';')
    && Lower(name) in {"application/json", "application/x-ndjson", "text/event-stream"}
  }

  lemma MediaExact(media: string)
    ensures MediaAllowed(media) <==> Media(media)
  {
    var front := Before(media, ';');
    BeforeCuts(media, ';');
    if MediaAllowed(media) {
      var l, r := TrimCuts(front);
      assert media == front + media[|front|..];
      assert MediaParts(media, l, Trim(front), r, media[|front|..]);
    }
    if Media(media) {
      var l, name, r, rest :| MediaParts(media, l, name, r, rest);
      PlainName(name);
      assert media == (l + name + r) + rest;
      BeforeOf(l + name + r, rest, ';');
      TrimOf(l, name, r);
    }
  }

  /** The three names hold no space and no semicolon, in any case. */
  lemma PlainName(name: string)
    requires Lower(name) in {"application/json", "application/x-ndjson", "text/event-stream"}
    ensures name != "" && NoSpaceEnds(name) && ';' !in name
  {
    LowerExact(name);
    assert forall i :: 0 <= i < |Lower(name)| ==> Lower(name)[i] != ' ' && Lower(name)[i] != ';';
  }

  /** The checks before the headers go out, in their order. */
  function Refusal(head: Head): Option<Outcome> {
    var media := All(head.fields, "content-type");
    var length := All(head.fields, "content-length");
    var transfer := All(head.fields, "transfer-encoding");
    if !(200 <= head.status < 300) then
      Some(Rejected(if 400 <= head.status <= 599 then head.status else 502, UpstreamRejected))
    else if head.status in {204, 205, 206} then Some(Rejected(502, EmptyOrPartial))
    else if |media| > 1 || |length| > 1 || |transfer| > 1 then Some(Rejected(502, DuplicateHeader))
    else if media == [] || !MediaAllowed(media[0]) then Some(Rejected(502, MediaRejected))
    else if All(head.fields, "content-encoding") != [] then Some(Rejected(502, EncodingRejected))
    else if transfer != [] && (Lower(transfer[0]) != "chunked" || length != []) then Some(Rejected(502, Framing))
    else if length == [] then None
    else if !LengthLexeme(length[0]) then Some(Rejected(502, Framing))
    else if NatValue(length[0]) > MAX_RESPONSE_BYTES then Some(Rejected(502, BodyLimit))
    else None
  }

  predicate Named(fields: seq<Field>, i: nat, name: string)
    requires i < |fields|
  {
    Lower(fields[i].name) == name
  }

  predicate Absent(fields: seq<Field>, name: string) { forall i :: 0 <= i < |fields| ==> !Named(fields, i, name) }

  predicate NotTwice(fields: seq<Field>, name: string) {
    forall i, j :: 0 <= i < j < |fields| ==> !(Named(fields, i, name) && Named(fields, j, name))
  }

  /** One to ten decimal digits. */
  predicate LengthText(s: string) {
    |s| in {1, 2, 3, 4, 5, 6, 7, 8, 9, 10} && forall i :: 0 <= i < |s| ==> '0' <= s[i] <= '9'
  }

  /** What a response head must be for its body to be relayed, field by field and in no order. */
  ghost predicate Acceptable(head: Head) {
    var fs := head.fields;
    && 200 <= head.status < 300 && head.status !in {204, 205, 206}
    && !Absent(fs, "content-type") && NotTwice(fs, "content-type") && Absent(fs, "content-encoding")
    && NotTwice(fs, "content-length") && NotTwice(fs, "transfer-encoding")
    && (Absent(fs, "transfer-encoding") || Absent(fs, "content-length"))
    && forall i :: 0 <= i < |fs| ==>
         && (Named(fs, i, "content-type") ==> Media(fs[i].value))
         && (Named(fs, i, "transfer-encoding") ==> Lower(fs[i].value) == "chunked")
         && (Named(fs, i, "content-length") ==> LengthText(fs[i].value) && NatValue(fs[i].value) <= 8_388_608)
  }

  lemma {:induction false} AllExact(fields: seq<Field>, name: string)
    ensures All(fields, name) == [] <==> Absent(fields, name)
    ensures |All(fields, name)| <= 1 <==> NotTwice(fields, name)
    ensures |All(fields, name)| == 1 ==>
              forall i :: 0 <= i < |fields| && Named(fields, i, name) ==> fields[i].value == All(fields, name)[0]
  {
    hide Lower;
    if fields != [] {
      var n := |fields| - 1;
      var front := fields[..n];
      AllExact(front, name);
      assert forall i :: 0 <= i < n ==> (Named(fields, i, name) <==> Named(front, i, name));
      if Named(fields, n, name) {
        assert !Absent(fields, name);
        assert NotTwice(fields, name) <==> Absent(front, name);
      } else {
        assert All(fields, name) == All(front, name);
        assert Absent(fields, name) <==> Absent(front, name);
        assert NotTwice(fields, name) <==> NotTwice(front, name);
      }
    }
  }

  /** The ordered checks refuse exactly the heads that are not acceptable. */
  lemma RefusalExact(head: Head)
    ensures Refusal(head).None? <==> Acceptable(head)
  {
    hide All, Absent, NotTwice, MediaAllowed, Media, LengthLexeme, LengthText, Lower, NatValue;
    var fs := head.fields;
    forall i | 0 <= i < |fs|
      ensures MediaAllowed(fs[i].value) <==> Media(fs[i].value)
      ensures LengthLexeme(fs[i].value) <==> LengthText(fs[i].value)
    {
      MediaExact(fs[i].value);
      LengthExact(fs[i].value);
    }
    AllExact(fs, "content-type");
    AllExact(fs, "content-length");
    AllExact(fs, "transfer-encoding");
    AllExact(fs, "content-encoding");
    Present(fs, "content-type");
    Present(fs, "content-length");
    Present(fs, "transfer-encoding");
  }

  lemma LengthExact(s: string)
    ensures LengthLexeme(s) <==> LengthText(s)
    ensures LengthText(s) ==> AllDigits(s)
  {
  }

  // ----- which refusal -----

  /** A fault of a response head. */
  ghost predicate Faulty(head: Head, code: Code) {
    var fs := head.fields;
    match code
    case UpstreamRejected => head.status < 200 || head.status > 299
    case EmptyOrPartial => head.status == 204 || head.status == 205 || head.status == 206
    case DuplicateHeader =>
      !NotTwice(fs, "content-type") || !NotTwice(fs, "content-length") || !NotTwice(fs, "transfer-encoding")
    case MediaRejected =>
      Absent(fs, "content-type")
      || exists i :: 0 <= i < |fs| && Named(fs, i, "content-type") && !Media(fs[i].value)
    case EncodingRejected => !Absent(fs, "content-encoding")
    case Framing =>
      || (!Absent(fs, "transfer-encoding") && !Absent(fs, "content-length"))
      || (exists i :: 0 <= i < |fs| && Named(fs, i, "transfer-encoding") && Lower(fs[i].value) != "chunked")
      || exists i :: 0 <= i < |fs| && Named(fs, i, "content-length") && !LengthText(fs[i].value)
    case BodyLimit =>
      exists i :: 0 <= i < |fs| && Named(fs, i, "content-length")
                  && LengthText(fs[i].value) && NatValue(fs[i].value) > 8_388_608
    case IncompleteBody => false
  }

  function Rank(code: Code): nat {
    match code
    case UpstreamRejected => 0 case EmptyOrPartial => 1 case DuplicateHeader => 2 case MediaRejected => 3
    case EncodingRejected => 4 case Framing => 5 case BodyLimit => 6 case IncompleteBody => 7
  }

  /** A refusal names the first fault of the head, in the order status, duplicates, media type, encoding, framing
      and length; its own status is 502, or the upstream's if that is an error. */
  lemma RefusalFirst(head: Head, code: Code)
    requires Refusal(head).Some?
    ensures var r := Refusal(head).value;
            && r.Rejected? && Faulty(head, r.code) && (Rank(code) < Rank(r.code) ==> !Faulty(head, code))
            && r.status == if r.code == UpstreamRejected && 400 <= head.status <= 599 then head.status else 502
  {
    hide All, Absent, NotTwice, MediaAllowed, Media, LengthLexeme, LengthText, Lower, NatValue;
    var fs := head.fields;
    forall i | 0 <= i < |fs|
      ensures MediaAllowed(fs[i].value) <==> Media(fs[i].value)
      ensures LengthLexeme(fs[i].value) <==> LengthText(fs[i].value)
    {
      MediaExact(fs[i].value);
      LengthExact(fs[i].value);
    }
    AllExact(fs, "content-type");
    AllExact(fs, "content-length");
    AllExact(fs, "transfer-encoding");
    AllExact(fs, "content-encoding");
    Present(fs, "content-type");
    Present(fs, "content-length");
    Present(fs, "transfer-encoding");
  }

  /** The field of a name that is there gives the name's value. */
  lemma Present(fields: seq<Field>, name: string)
    ensures !Absent(fields, name) ==> exists i :: 0 <= i < |fields| && Named(fields, i, name)
    ensures Absent(fields, name) ==> forall i :: 0 <= i < |fields| ==> !Named(fields, i, name)
  {
  }

  /** The length the response declares, when it is accepted. */
  function Declared(head: Head): (r: Option<nat>)
    requires Refusal(head).None?
  {
    var length := All(head.fields, "content-length");
    if length == [] then None else Some(NatValue(length[0]))
  }

  /** What is on the wire is a prefix of a chunked message that carries `blocks`, read from `start` on. */
  ghost predicate Relayed(body: Bytes, start: nat, sent: Bytes, blocks: seq<Bytes>) {
    && start <= |body| && NonEmpty(blocks) && sent <= Framed(blocks) + LAST
    && Flatten(blocks) <= body[start..] && |Flatten(blocks)| <= MAX_RESPONSE_BYTES
  }

  lemma NextBlock(body: Bytes, start: nat, blocks: seq<Bytes>, block: Bytes, at: nat)
    requires NonEmpty(blocks) && block != [] && start <= at && at + |block| <= |body|
    requires Flatten(blocks) == body[start..at] && body[at..at + |block|] == block
    ensures NonEmpty(blocks + [block]) && Framed(blocks + [block]) == Framed(blocks) + Chunk(block)
    ensures Flatten(blocks + [block]) == body[start..at + |block|]
  {
    hide Chunk;
    FramedAppend(blocks, block);
  }

  /** Between two blocks: what was read from `start` to `at` is framed on the wire, and nothing else. */
  ghost predicate Between(body: Bytes, start: nat, at: nat, sent: Bytes, blocks: seq<Bytes>) {
    && start <= at <= |body| && at - start <= MAX_RESPONSE_BYTES && NonEmpty(blocks)
    && sent == Framed(blocks) && Flatten(blocks) == body[start..at]
  }

  /** The relay stops between blocks, or in the middle of the last chunk. */
  lemma StopsThere(body: Bytes, start: nat, at: nat, before: Bytes, sent: Bytes, blocks: seq<Bytes>)
    requires Between(body, start, at, before, blocks) && before <= sent && sent < before + LAST
    ensures Relayed(body, start, sent, blocks) && Decode(sent) == Incomplete
  {
    hide Decode, Framed, Flatten, LAST;
    CutIsIncomplete(sent, blocks);
  }

  lemma StopsBetween(body: Bytes, start: nat, at: nat, sent: Bytes, blocks: seq<Bytes>)
    requires Between(body, start, at, sent, blocks)
    ensures Relayed(body, start, sent, blocks) && Decode(sent) == Incomplete
  {
    assert LAST != [];
    hide Decode, Framed, Flatten, LAST;
    assert sent < sent + LAST;
    StopsThere(body, start, at, sent, sent, blocks);
  }

  lemma Goes(body: Bytes, start: nat, at: nat, sent: Bytes, blocks: seq<Bytes>, block: Bytes)
    requires Between(body, start, at, sent, blocks) && block != [] && at + |block| <= |body|
    requires body[at..at + |block|] == block && at + |block| - start <= MAX_RESPONSE_BYTES
    ensures Between(body, start, at + |block|, sent + Chunk(block), blocks + [block])
  {
    hide Chunk, Framed, Flatten;
    NextBlock(body, start, blocks, block, at);
  }

  lemma StopsInBlock(body: Bytes, start: nat, at: nat, before: Bytes, sent: Bytes, blocks: seq<Bytes>, block: Bytes)
    requires Between(body, start, at, before, blocks) && block != [] && at + |block| <= |body|
    requires body[at..at + |block|] == block && at + |block| - start <= MAX_RESPONSE_BYTES
    requires before <= sent && sent < before + Chunk(block)
    ensures Relayed(body, start, sent, blocks + [block]) && Decode(sent) == Incomplete
  {
    hide Decode, Chunk, Framed, Flatten, LAST;
    NextBlock(body, start, blocks, block, at);
    CutIsIncomplete(sent, blocks);
  }

  lemma Ends(body: Bytes, start: nat, at: nat, sent: Bytes, blocks: seq<Bytes>)
    requires Between(body, start, at, sent, blocks)
    ensures Relayed(body, start, sent + LAST, blocks) && Flatten(blocks) == body[start..at]
    ensures Decode(sent + LAST) == Complete(body[start..at], [])
  {
    hide Decode, Framed, Flatten, LAST;
    DecodeFramed(blocks, []);
    assert Framed(blocks) + LAST + [] == sent + LAST;
  }

  /** The body loop of `_relay`. */
  method RelayBody(expected: Option<nat>, up: Upstream, wire: Wire) returns (r: Outcome, ghost blocks: seq<Bytes>)
    requires up.Valid() && wire.sent == []
    modifies up, wire
    ensures up.Valid() && old(up.at) <= up.at && Relayed(up.body, old(up.at), wire.sent, blocks)
    ensures r.Finished? ==>
              && Flatten(blocks) == up.body[old(up.at)..up.at]
              && Decode(wire.sent) == Complete(up.body[old(up.at)..up.at], [])
              && (expected.Some? ==> expected.value == up.at - old(up.at))
    ensures r.Finished? && !up.faulted ==> up.at == |up.body|
    ensures up.at <= old(up.at) + 8_388_608 + 1
    ensures r.Rejected? ==>
              r.status == 502 && if up.at - old(up.at) > 8_388_608 then r.code == BodyLimit
                                 else r.code == IncompleteBody && expected.Some? && expected.value != up.at - old(up.at)
    ensures r.Broken? ==> up.faulted || wire.faulted
    ensures !r.Finished? ==> Decode(wire.sent) == Incomplete
    ensures !up.faulted && !wire.faulted && |up.body| - old(up.at) <= MAX_RESPONSE_BYTES ==>
              (expected.Some? ==> expected.value == |up.body| - old(up.at)) ==> r.Finished? && up.at == |up.body|
  {
    ghost var start := up.at;
    var total := 0;
    blocks := [];
    EmptyFrame();
    assert Between(up.body, start, up.at, wire.sent, blocks);
    hide Decode, Chunk, Framed, Flatten, LAST, Between, Relayed;
    while true
      invariant up.Valid() && start <= up.at && total == up.at - start <= MAX_RESPONSE_BYTES
      invariant Between(up.body, start, up.at, wire.sent, blocks)
      decreases |up.body| - up.at
    {
      ghost var at, sent := up.at, wire.sent;
      StopsBetween(up.body, start, at, sent, blocks);
      var room := MAX_RESPONSE_BYTES - total + 1;
      var block := up.Read1(if BLOCK_BYTES <= room then BLOCK_BYTES else room);
      if block.None? {
        return Broken, blocks;
      }
      assert up.at <= start + MAX_RESPONSE_BYTES + 1;
      if block.value == [] {
        if expected.Some? && total != expected.value {
          return Rejected(502, IncompleteBody), blocks;
        }
        LastNotEmpty();
        var ok := wire.Write(LAST);
        if !ok {
          StopsThere(up.body, start, at, sent, wire.sent, blocks);
          return Broken, blocks;
        }
        Ends(up.body, start, at, sent, blocks);
        return Finished, blocks;
      }
      total := total + |block.value|;
      if total > MAX_RESPONSE_BYTES {
        return Rejected(502, BodyLimit), blocks;
      }
      ChunkNotEmpty(block.value);
      var ok := wire.Write(Chunk(block.value));
      if !ok {
        StopsInBlock(up.body, start, at, sent, wire.sent, blocks, block.value);
        blocks := blocks + [block.value];
        return Broken, blocks;
      }
      Goes(up.body, start, at, sent, blocks, block.value);
      blocks := blocks + [block.value];
    }
  }

  lemma EmptyFrame()
    ensures Framed([]) == [] && Flatten([]) == [] && NonEmpty([])
  {
  }

  lemma LastNotEmpty()
    ensures LAST != []
  {
  }

  lemma ChunkNotEmpty(block: Bytes)
    ensures Chunk(block) != []
  {
  }

  /** `H._relay`: the client gets exactly what was read as one complete chunked message, or never a complete
      one. What was read is the whole body unless the upstream failed or ended early, which a declared length
      would show. */
  method Relay(head: Head, isHead: bool, up: Upstream, wire: Wire) returns (r: Outcome, ghost blocks: seq<Bytes>)
    requires up.Valid() && up.at == 0 && wire.sent == []
    modifies up, wire
    ensures !Acceptable(head) || isHead ==> wire.sent == [] && Decode(wire.sent) == Incomplete
    ensures !Acceptable(head) ==> r.Rejected? && Some(r) == Refusal(head)
    ensures Acceptable(head) && isHead ==> r == Finished
    ensures up.Valid()
    ensures r.Finished? ==> Acceptable(head)
    ensures r.Finished? && !isHead ==>
              && Decode(wire.sent) == Complete(up.body[..up.at], []) && up.at <= MAX_RESPONSE_BYTES
              && (forall i :: 0 <= i < |head.fields| && Named(head.fields, i, "content-length") ==>
                    LengthText(head.fields[i].value) && NatValue(head.fields[i].value) == up.at)
    ensures r.Finished? && !isHead && !up.faulted ==> up.at == |up.body|
    ensures r.Rejected? && Acceptable(head) ==> r.status == 502 && r.code in {BodyLimit, IncompleteBody}
    ensures r.Broken? ==> up.faulted || wire.faulted
    ensures !r.Finished? ==> Decode(wire.sent) == Incomplete
    ensures Relayed(up.body, 0, wire.sent, blocks)
  {
    hide Decode, Framed, Flatten, LAST, Refusal, Acceptable, All, Named, NatValue, LengthText;
    blocks := [];
    EmptyFrame();
    CutIsIncomplete([], []);
    RefusalExact(head);
    var refusal := Refusal(head);
    if refusal.Some? {
      Refused(head);
      return refusal.value, blocks;
    }
    if isHead {
      return Finished, blocks;
    }
    DeclaredLength(head);
    r, blocks := RelayBody(Declared(head), up, wire);
    assert up.body[0..up.at] == up.body[..up.at];
  }

  lemma Refused(head: Head)
    requires Refusal(head).Some?
    ensures Refusal(head).value.Rejected?
  {
    hide All, MediaAllowed, Lower;
  }

  lemma DeclaredLength(head: Head)
    requires Refusal(head).None?
    ensures forall i :: 0 <= i < |head.fields| && Named(head.fields, i, "content-length") ==>
              && LengthText(head.fields[i].value)
              && Declared(head) == Some(NatValue(head.fields[i].value))
  {
    RefusalExact(head);
    AllExact(head.fields, "content-length");
    hide All, MediaAllowed, Lower, NatValue, NotTwice;
  }
}
