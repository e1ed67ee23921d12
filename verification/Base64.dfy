/** Base64 (section 4 of RFC 4648) and little-endian float32 words, as the embeddings validator reads them. */
module Base64 {
  import opened Text

  function SixBits(c: char): Option<nat> {
    if 'A' <= c <= 'Z' then Some(c as int - 'A' as int)
    else if 'a' <= c <= 'z' then Some(c as int - 'a' as int + 26)
    else if '0' <= c <= '9' then Some(c as int - '0' as int + 52)
    else if c == '+' then Some(62)
    else if c == '/' then Some(63)
    else None
  }

  function SixBitChar(v: nat): (c: char)
    requires v < 64
    ensures SixBits(c) == Some(v)
  {
    if v < 26 then (v + 'A' as int) as char
    else if v < 52 then (v - 26 + 'a' as int) as char
    else if v < 62 then (v - 52 + '0' as int) as char
    else if v == 62 then '+' else '/'
  }

  /** The bytes of one group of four characters; `last` allows padding. */
  function Group(a: char, b: char, c: char, d: char, last: bool): Option<seq<Byte>> {
    var v :- SixBits(a);
    var w :- SixBits(b);
    if last && c == '=' && d == '=' then Some([v * 4 + w / 16])
    else
      var x :- SixBits(c);
      if last && d == '=' then Some([v * 4 + w / 16, w % 16 * 16 + x / 4])
      else
        var y :- SixBits(d);
        Some([v * 4 + w / 16, w % 16 * 16 + x / 4, x % 4 * 64 + y])
  }

  /** `base64.b64decode(s, validate=True)` */
  function Decode(s: string): Option<seq<Byte>> {
    if s == "" then Some([])
    else if |s| < 4 then None
    else
      var head :- Group(s[0], s[1], s[2], s[3], |s| == 4);
      var tail :- Decode(s[4..]);
      Some(head + tail)
  }

  function Encode(b: seq<Byte>): string {
    if b == [] then ""
    else
      var first, second := SixBitChar(b[0] / 4), b[0] % 4 * 16;
      if |b| == 1 then [first, SixBitChar(second), '=', '=']
      else
        var mid := SixBitChar(second + b[1] / 16);
        if |b| == 2 then [first, mid, SixBitChar(b[1] % 16 * 4), '=']
        else [first, mid, SixBitChar(b[1] % 16 * 4 + b[2] / 64), SixBitChar(b[2] % 64)] + Encode(b[3..])
  }

  lemma Regroup(hi: nat, lo: nat, k: nat)
    requires lo < k && (k == 4 || k == 16)
    ensures (hi * k + lo) / k == hi && (hi * k + lo) % k == lo
  {
    if k == 4 {
      assert (hi * 4 + lo) / 4 == hi;
    } else {
      assert (hi * 16 + lo) / 16 == hi;
    }
  }

  lemma FullGroup(x: Byte, y: Byte, z: Byte, last: bool)
    ensures Group(SixBitChar(x / 4), SixBitChar(x % 4 * 16 + y / 16), SixBitChar(y % 16 * 4 + z / 64),
                  SixBitChar(z % 64), last)
            == Some([x, y, z])
  {
    assert SixBits('=') == None;
    hide SixBits, SixBitChar;
    Regroup(x % 4, y / 16, 16);
    Regroup(y % 16, z / 64, 4);
  }

  lemma PaddedGroups(x: Byte, y: Byte)
    ensures Group(SixBitChar(x / 4), SixBitChar(x % 4 * 16), '=', '=', true) == Some([x])
    ensures Group(SixBitChar(x / 4), SixBitChar(x % 4 * 16 + y / 16), SixBitChar(y % 16 * 4), '=', true) == Some([x, y])
  {
    assert SixBits('=') == None;
    hide SixBits, SixBitChar;
  }

  /** What is encoded decodes to the same bytes. */
  lemma {:induction false} DecodeEncode(b: seq<Byte>)
    ensures Decode(Encode(b)) == Some(b)
  {
    hide SixBits, SixBitChar, Group;
    if |b| >= 3 {
      DecodeEncode(b[3..]);
      FullGroup(b[0], b[1], b[2], |Encode(b)| == 4);
      assert Encode(b)[4..] == Encode(b[3..]);
      assert b == [b[0], b[1], b[2]] + b[3..];
    } else if b != [] {
      PaddedGroups(b[0], if |b| == 2 then b[1] else 0);
      assert Encode(b)[4..] == "" && |Encode(b)| == 4;
      assert b == if |b| == 1 then [b[0]] + [] else [b[0], b[1]] + [];
    }
  }

  // ----- float32 -----

  /** All words of four bytes are finite: no word has an exponent field of all ones. */
  predicate FiniteWords(raw: seq<Byte>) {
    |raw| < 4 || (raw[3] % 128 * 2 + raw[2] / 128 != 255 && FiniteWords(raw[4..]))
  }

  /** The 32-bit number a little-endian word stands for. */
  function Word(a: Byte, b: Byte, c: Byte, d: Byte): nat { a + 0x100 * b + 0x10000 * c + 0x1000000 * d }

  /** Word `k` is finite in the sense of section 3.4 of IEEE 754: its eight exponent bits are not all ones. */
  predicate FiniteWord(w: nat) { w / 0x800000 % 256 != 255 }

  lemma ExponentBits(a: Byte, b: Byte, c: Byte, d: Byte)
    ensures FiniteWord(Word(a, b, c, d)) <==> d % 128 * 2 + c / 128 != 255
  {
    var w := Word(a, b, c, d);
    var low := a + 0x100 * b + 0x10000 * (c % 128);
    assert w == low + 0x800000 * (c / 128 + 2 * d);
    assert w / 0x800000 == c / 128 + 2 * d;
    assert c / 128 + 2 * d == c / 128 + 2 * (d % 128) + 256 * (d / 128);
  }

  predicate WordFiniteAt(raw: seq<Byte>, k: nat)
    requires 4 * k + 3 < |raw|
  {
    FiniteWord(Word(raw[4 * k], raw[4 * k + 1], raw[4 * k + 2], raw[4 * k + 3]))
  }

  lemma FirstWord(raw: seq<Byte>)
    requires |raw| >= 4
    ensures FiniteWords(raw) <==> WordFiniteAt(raw, 0) && FiniteWords(raw[4..])
  {
    ExponentBits(raw[0], raw[1], raw[2], raw[3]);
    hide FiniteWord, Word;
  }

  lemma LaterWord(raw: seq<Byte>, k: nat)
    requires 4 * k + 7 < |raw|
    ensures WordFiniteAt(raw[4..], k) == WordFiniteAt(raw, k + 1)
  {
    hide FiniteWord, Word;
  }

  lemma {:induction false} FiniteWordsExact(raw: seq<Byte>)
    ensures FiniteWords(raw) <==> forall k: nat :: 4 * k + 3 < |raw| ==> WordFiniteAt(raw, k)
  {
    if |raw| >= 4 {
      FirstWord(raw);
      FiniteWordsExact(raw[4..]);
      hide FiniteWords, WordFiniteAt;
      forall k: nat | 4 * k + 7 < |raw| ensures WordFiniteAt(raw[4..], k) == WordFiniteAt(raw, k + 1) {
        LaterWord(raw, k);
      }
      assert forall k: nat :: 0 < k && 4 * k + 3 < |raw| ==> WordFiniteAt(raw, k) == WordFiniteAt(raw[4..], k - 1);
    }
  }
}
