/** The hash-linked spend ledger: a text file of JSON rows, each row's digest covering the previous one.
    The file is its text, so a row that lost its line break or its end is one of its states. */
module Ledger {
  import opened Text
  import opened Json
  import opened JsonFragment
  import opened JsonRoundTrip
  import opened JsonCanonical
  import opened JsonObject
  import opened Receipt

  function Zeros(n: nat): (s: string)
    ensures |s| == n && forall i :: 0 <= i < n ==> s[i] == '0'
  {
    if n == 0 then "" else "0" + Zeros(n - 1)
  }

  const GENESIS: Digest := Zeros(64)

  // ----- lines -----

  /** The white space `str.strip` removes. */
  predicate PySpace(c: char) {
    var n := c as int;
    9 <= n <= 13 || 28 <= n <= 32 || n == 0x85 || n == 0xA0 || n == 0x1680 || 0x2000 <= n <= 0x200A
    || n == 0x2028 || n == 0x2029 || n == 0x202F || n == 0x205F || n == 0x3000
  }

  function StripLeft(s: string): (t: string)
    ensures t != "" ==> !PySpace(t[0])
  {
    if s != "" && PySpace(s[0]) then StripLeft(s[1..]) else s
  }

  function StripRight(s: string): (t: string)
    ensures t <= s
    ensures s != "" && !PySpace(s[0]) ==> t != ""
  {
    if s != "" && PySpace(s[|s| - 1]) then StripRight(s[..|s| - 1]) else s
  }

  function Strip(s: string): string { StripRight(StripLeft(s)) }

  /** The lines of a text file with universal newlines, without their breaks; the last one is what follows
      the last break. A pair of breaks only adds an empty line, which reading skips. */
  function Lines(text: string): (lines: seq<string>)
    ensures lines != []
  {
    if text == "" then [""]
    else
      var front := Lines(text[..|text| - 1]);
      var c := text[|text| - 1];
      if Break(c) then front + [""] else Whole(front) + [Last(front) + [c]]
  }

  function Last(lines: seq<string>): string
    requires lines != []
  {
    lines[|lines| - 1]
  }

  function Whole(lines: seq<string>): seq<string>
    requires lines != []
  {
    lines[..|lines| - 1]
  }

  /** Nothing but white space follows the last line break, so the next row gets a line of its own. */
  predicate LineEnded(text: string) { Strip(Last(Lines(text))) == "" }

  // ----- reading -----

  /** `d[key] = value` on a dict: an existing key keeps its place. */
  function Put(ms: seq<Member>, m: Member): seq<Member> {
    if ms == [] then [m]
    else if ms[0].key == m.key then [m] + ms[1..]
    else [ms[0]] + Put(ms[1..], m)
  }

  function PutAll(ms: seq<Member>, more: seq<Member>): seq<Member>
    decreases |more|
  {
    if more == [] then ms else PutAll(Put(ms, more[0]), more[1..])
  }

  /** The value Python holds after decoding: the last of several equal keys wins. */
  function Decoded(j: Json): Json
    decreases j
  {
    match j
    case Arr(items) => Arr(seq(|items|, i requires 0 <= i < |items| => Decoded(items[i])))
    case Obj(ms) => Obj(PutAll([], seq(|ms|, i requires 0 <= i < |ms| => Member(ms[i].key, Decoded(ms[i].value)))))
    case _ => j
  }

  /** A row as read: an object, other JSON (on which the code raises), or a line that is not JSON. */
  datatype Row = Entry(members: seq<Member>) | NotObject | Corrupt

  function ReadLine(line: string): Row {
    match Parse(line)
    case None => Corrupt
    case Some(j) => match Decoded(j)
      case Obj(ms) => Entry(ms)
      case _ => NotObject
  }

  function ReadEntries(lines: seq<string>): seq<Row> {
    if lines == [] then []
    else
      var front := ReadEntries(lines[..|lines| - 1]);
      var line := lines[|lines| - 1];
      if Strip(line) == "" then front else front + [ReadLine(Strip(line))]
  }

  function Rows(text: string): seq<Row> { ReadEntries(Lines(text)) }

  // ----- the chain -----

  /** Python truth of a decoded value. */
  predicate Truthy(j: Json) {
    match j
    case Null => false
    case Bool(b) => b
    case Int(n) => n != 0
    case Float(t) => exists i :: 0 <= i < |t| && '1' <= t[i] <= '9' && !ExponentBefore(t, i)
    case Str(s) => s != ""
    case Arr(items) => items != []
    case Obj(ms) => ms != []
  }

  predicate ExponentBefore(t: string, i: nat)
    requires i <= |t|
  {
    exists k :: 0 <= k < i && (t[k] == 'e' || t[k] == 'E')
  }

  /** The digits before any exponent are all zero. */
  ghost predicate Zero(t: string) { exists n :: ZeroUpTo(t, n) }

  predicate ZeroUpTo(t: string, n: int) {
    && 0 <= n <= |t| && (n == |t| || t[n] == 'e' || t[n] == 'E')
    && forall i :: 0 <= i < n ==> t[i] != 'e' && t[i] != 'E' && !('1' <= t[i] <= '9')
  }

  /** The values that count as false. */
  lemma TruthyExact(j: Json)
    ensures !Truthy(j) <==>
            if j.Float? then Zero(j.text) else j in {Null, Bool(false), Int(0), Str(""), Arr([]), Obj([])}
  {
    if j.Float? {
      FloatTruth(j.text);
    }
  }

  lemma FloatTruth(t: string)
    ensures Truthy(Float(t)) <==> !Zero(t)
  {
    var n := Exponent(t);
    if Truthy(Float(t)) {
      var i :| 0 <= i < |t| && '1' <= t[i] <= '9' && !ExponentBefore(t, i);
      assert !Zero(t);
    } else {
      forall i | 0 <= i < n ensures t[i] != 'e' && t[i] != 'E' && !('1' <= t[i] <= '9') {
        assert !ExponentBefore(t, i);
      }
      assert ZeroUpTo(t, n);
    }
  }

  lemma {:induction false} Exponent(t: string) returns (n: nat)
    ensures n <= |t| && (n == |t| || t[n] == 'e' || t[n] == 'E')
    ensures forall i :: 0 <= i < n ==> t[i] != 'e' && t[i] != 'E'
  {
    n := 0;
    if t != "" && t[0] != 'e' && t[0] != 'E' {
      n := Exponent(t[1..]);
      n := n + 1;
    }
  }

  /** The characters `str.strip` removes, one by one. */
  lemma PySpaceExact(c: char)
    ensures PySpace(c) <==>
            c as int in {0x9, 0xA, 0xB, 0xC, 0xD, 0x1C, 0x1D, 0x1E, 0x1F, 0x20, 0x85, 0xA0, 0x1680, 0x2000, 0x2001,
                         0x2002, 0x2003, 0x2004, 0x2005, 0x2006, 0x2007, 0x2008, 0x2009, 0x200A, 0x2028, 0x2029,
                         0x202F, 0x205F, 0x3000}
  {
  }

  function RowBody(ms: seq<Member>): seq<Member> { Without(ms, {"digest"}) }

  /** What `_digest` hashes: the previous digest, then the row's canonical ASCII text. */
  function HashedText(prev: string, body: seq<Member>): string { prev + Canonical(Obj(body), true) }

  predicate RowIntact(h: Hash, prev: string, row: Row) {
    && row.Entry?
    && !(Has(row.members, "corrupt") && Truthy(Get(row.members, "corrupt").value))
    && Get(row.members, "digest") == Some(Str(h(HashedText(prev, RowBody(row.members)))))
  }

  /** `e.get("digest") or ""` of a row that passed its own check. */
  function RowDigest(row: Row): string {
    if row.Entry? then (match Get(row.members, "digest") case Some(Str(d)) => d case _ => "") else ""
  }

  function LastDigest(rows: seq<Row>): string {
    if rows == [] then GENESIS else RowDigest(rows[|rows| - 1])
  }

  predicate Intact(h: Hash, rows: seq<Row>) {
    rows == [] || (Intact(h, rows[..|rows| - 1]) && RowIntact(h, LastDigest(rows[..|rows| - 1]), rows[|rows| - 1]))
  }

  /** `_chain_intact` */
  method ChainIntact(h: Hash, rows: seq<Row>) returns (ok: bool)
    ensures ok <==> Intact(h, rows)
  {
    var prev: string := GENESIS;
    for i := 0 to |rows|
      invariant Intact(h, rows[..i]) && prev == LastDigest(rows[..i])
    {
      assert rows[..i + 1][..i] == rows[..i];
      if !RowIntact(h, prev, rows[i]) {
        BrokenPrefix(h, rows, i + 1);
        return false;
      }
      prev := RowDigest(rows[i]);
    }
    assert rows[..|rows|] == rows;
    return true;
  }

  lemma {:induction false} BrokenPrefix(h: Hash, rows: seq<Row>, n: nat)
    requires n <= |rows| && !Intact(h, rows[..n])
    ensures !Intact(h, rows)
  {
    if n < |rows| {
      assert rows[..|rows| - 1][..n] == rows[..n];
      BrokenPrefix(h, rows[..|rows| - 1], n);
    } else {
      assert rows[..n] == rows;
    }
  }

  /** Losing rows from the end goes unnoticed: every prefix of an intact chain is intact. */
  lemma PrefixIntact(h: Hash, rows: seq<Row>, n: nat)
    requires Intact(h, rows) && n <= |rows|
    ensures Intact(h, rows[..n])
  {
    if !Intact(h, rows[..n]) {
      BrokenPrefix(h, rows, n);
    }
  }

  // ----- recording -----

  datatype Spend = Spend(ts: Json, amount: Json, source: string, meta: seq<Member>) {
    predicate WellFormed() { ts.Float? && amount.Float? && Valid(ts) && Valid(amount) && Valid(Obj(meta)) }

    function Body(): seq<Member> {
      [Member("ts", ts), Member("amount_usd", amount), Member("source", Str(source)), Member("estimated", Bool(true))]
      + (if meta == [] then [] else [Member("meta", Obj(meta))])
    }
  }

  /** The digest `record` chains from; None where the code raises because the last row is not an object
      or holds a digest that is true but not a string. */
  function PreviousDigest(rows: seq<Row>): Option<string> {
    if rows == [] then Some(GENESIS)
    else match rows[|rows| - 1]
      case NotObject => None
      case Corrupt => Some(GENESIS)
      case Entry(ms) =>
        match Get(ms, "digest")
        case None => Some(GENESIS)
        case Some(Str(d)) => Some(if d == "" || d == "CORRUPT" then GENESIS else d)
        case Some(other) => if Truthy(other) then None else Some(GENESIS)
  }

  /** The digest a new row is chained from is the last row's, if that is a string other than "" and "CORRUPT";
      `record` raises on a last row that is no object or whose digest is another true value. */
  lemma PreviousExact(rows: seq<Row>)
    ensures PreviousDigest([]) == Some(GENESIS)
    ensures rows != [] && rows[|rows| - 1].Corrupt? ==> PreviousDigest(rows) == Some(GENESIS)
    ensures rows != [] && rows[|rows| - 1].NotObject? ==> PreviousDigest(rows) == None
    ensures rows != [] && rows[|rows| - 1].Entry? ==>
              var d := Get(rows[|rows| - 1].members, "digest");
              PreviousDigest(rows) ==
              if d.Some? && d.value.Str? && d.value.s != "" && d.value.s != "CORRUPT" then Some(d.value.s)
              else if d.Some? && !d.value.Str? && Truthy(d.value) then None else Some(GENESIS)
    ensures |GENESIS| == 64 && forall i :: 0 <= i < 64 ==> GENESIS[i] == '0'
  {
    hide Get, Truthy;
  }

  function Record(h: Hash, prev: string, s: Spend): seq<Member> {
    s.Body() + [Member("digest", Str(h(HashedText(prev, s.Body()))))]
  }

  /** `json.dumps(rec, sort_keys=True)` with the default separators. */
  function RowText(ms: seq<Member>): string { Print(Canon(Obj(ms)), Style(true, true)) }

  lemma IntactPrevious(h: Hash, rows: seq<Row>)
    requires Intact(h, rows)
    ensures PreviousDigest(rows) == Some(LastDigest(rows)) && IsDigest(LastDigest(rows))
  {
  }

  // ----- a recorded row reads back as itself -----

  lemma {:induction false} PutFresh(ms: seq<Member>, m: Member)
    requires forall i :: 0 <= i < |ms| ==> ms[i].key != m.key
    ensures Put(ms, m) == ms + [m]
  {
    if ms != [] {
      PutFresh(ms[1..], m);
    }
  }

  lemma {:induction false} PutAllFresh(ms: seq<Member>, more: seq<Member>)
    requires UniqueKeys(ms + more)
    ensures PutAll(ms, more) == ms + more
    decreases |more|
  {
    if more != [] {
      assert (ms + more)[|ms|] == more[0];
      assert forall i :: 0 <= i < |ms| ==> (ms + more)[i] == ms[i];
      PutFresh(ms, more[0]);
      assert (ms + [more[0]]) + more[1..] == ms + more;
      PutAllFresh(ms + [more[0]], more[1..]);
    }
  }

  /** Decoding changes nothing in a value without duplicate keys. */
  lemma {:induction false} DecodedValid(j: Json)
    requires Valid(j)
    ensures Decoded(j) == j
    decreases j
  {
    match j
    case Arr(items) => forall i | 0 <= i < |items| ensures Decoded(items[i]) == items[i] { DecodedValid(items[i]); }
    case Obj(ms) =>
      forall i | 0 <= i < |ms| ensures Decoded(ms[i].value) == ms[i].value { DecodedValid(ms[i].value); }
      assert seq(|ms|, i requires 0 <= i < |ms| => Member(ms[i].key, Decoded(ms[i].value))) == ms;
      assert [] + ms == ms;
      PutAllFresh([], ms);
    case _ =>
  }

  lemma {:induction false} PutUnique(ms: seq<Member>, m: Member)
    requires UniqueKeys(ms)
    ensures UniqueKeys(Put(ms, m)) && forall x :: x in Put(ms, m) ==> x in ms || x == m
  {
    if ms != [] && ms[0].key != m.key {
      PutUnique(ms[1..], m);
      assert forall x :: x in Put(ms[1..], m) ==> x.key != ms[0].key by {
        assert forall x :: x in ms[1..] ==> x.key != ms[0].key;
      }
    }
  }

  lemma {:induction false} PutAllUnique(ms: seq<Member>, more: seq<Member>)
    requires UniqueKeys(ms)
    ensures UniqueKeys(PutAll(ms, more)) && forall x :: x in PutAll(ms, more) ==> x in ms || x in more
    decreases |more|
  {
    if more != [] {
      PutUnique(ms, more[0]);
      PutAllUnique(Put(ms, more[0]), more[1..]);
    }
  }

  /** Whatever text a line holds, what Python decodes from it is a proper value. */
  lemma {:induction false} DecodedIsValid(j: Json)
    requires Numbers(j)
    ensures Valid(Decoded(j))
    decreases j
  {
    match j
    case Arr(items) => forall i | 0 <= i < |items| ensures Valid(Decoded(items[i])) { DecodedIsValid(items[i]); }
    case Obj(ms) =>
      var ds := seq(|ms|, i requires 0 <= i < |ms| => Member(ms[i].key, Decoded(ms[i].value)));
      forall i | 0 <= i < |ms| ensures Valid(ds[i].value) { DecodedIsValid(ms[i].value); }
      PutAllUnique([], ds);
      var out := PutAll([], ds);
      forall i | 0 <= i < |out| ensures Valid(out[i].value) { assert out[i] in ds; }
    case _ =>
  }

  lemma {:induction false} ReadRowsWellFormed(lines: seq<string>)
    ensures WellFormedRows(ReadEntries(lines))
  {
    if lines != [] {
      ReadRowsWellFormed(lines[..|lines| - 1]);
      match Parse(Strip(lines[|lines| - 1])) {
        case None =>
        case Some(j) => DecodedIsValid(j);
      }
    }
  }

  lemma RowTextReads(ms: seq<Member>)
    requires Valid(Obj(ms))
    ensures ReadLine(RowText(ms)) == Entry(Canon(Obj(ms)).members)
  {
    SameAsCanon(Obj(ms));
    PrintParse(Canon(Obj(ms)), Style(true, true));
    DecodedValid(Canon(Obj(ms)));
  }

  /** A row's text is one line that ends in a brace and holds one object. */
  lemma RowTextShape(ms: seq<Member>)
    requires Valid(Obj(ms)) && ms != [] && forall m :: m in ms ==> LetterKey(m)
    ensures ObjectText(RowText(ms)) && Braced(RowText(ms))
  {
    var sorted := Canon(Obj(ms)).members;
    CanonValid(Obj(ms));
    var cs := CanonMembers(ms);
    assert sorted == SortMembers(cs) && sorted[0] in sorted && sorted[0] in cs;
    var i :| 0 <= i < |cs| && cs[i] == sorted[0];
    assert ms[i] in ms;
    PrintedObject(sorted, Style(true, true));
  }

  lemma SpendKeys(s: Spend)
    ensures var b := s.Body();
            && (forall i :: 0 <= i < |b| ==> b[i].key != "" && b[i].key[0] != 'd' && b[i].key[0] != 'c')
            && (forall i, j :: 0 <= i < j < |b| ==> b[i].key[0] != b[j].key[0])
            && b != [] && (forall m :: m in b ==> LetterKey(m))
  {
    var b := s.Body();
    assert b[0].key[0] == 't' && b[1].key[0] == 'a' && b[2].key[0] == 's' && b[3].key[0] == 'e';
    assert |b| == 5 ==> b[4].key[0] == 'm';
  }

  lemma SpendValues(s: Spend)
    requires s.WellFormed()
    ensures forall i :: 0 <= i < |s.Body()| ==> Valid(s.Body()[i].value)
  {
  }

  lemma SpendDict(s: Spend)
    requires s.WellFormed()
    ensures Valid(Obj(s.Body())) && !Has(s.Body(), "digest") && !Has(s.Body(), "corrupt")
  {
    hide Spend.Body;
    SpendKeys(s);
    SpendValues(s);
    var b := s.Body();
    assert forall m :: m in b ==> m.key != "" && m.key[0] != 'd' && m.key[0] != 'c';
  }

  lemma AddedDigest(b: seq<Member>, d: string)
    requires Valid(Obj(b)) && !Has(b, "digest") && !Has(b, "corrupt")
    ensures var rec := b + [Member("digest", Str(d))];
            && Valid(Obj(rec)) && RowBody(rec) == b && !Has(rec, "corrupt") && Get(rec, "digest") == Some(Str(d))
  {
    hide Get;
    var more := [Member("digest", Str(d))];
    HasNone(b, "digest");
    assert forall i :: 0 <= i < |b| ==> b[i] in b;
    WithoutAppended(b, more, {"digest"});
    GetAppended(b, more, "digest");
    GetAppended(b, more, "corrupt");
    assert Get(more, "digest") == Some(Str(d)) && Get(more, "corrupt") == None by { OneMember(d); }
  }

  lemma OneMember(d: string)
    ensures Get([Member("digest", Str(d))], "digest") == Some(Str(d))
    ensures Get([Member("digest", Str(d))], "corrupt") == None
  {
    assert "digest"[0] != "corrupt"[0];
  }

  lemma RecordDict(h: Hash, prev: string, s: Spend)
    requires s.WellFormed()
    ensures var rec := Record(h, prev, s);
            && Valid(Obj(rec)) && RowBody(rec) == s.Body() && !Has(rec, "corrupt")
            && Get(rec, "digest") == Some(Str(h(HashedText(prev, s.Body()))))
            && ObjectText(RowText(rec)) && Braced(RowText(rec))
  {
    hide HashedText, Spend.Body, Get, Valid, ObjectText, Braced, RowText;
    SpendDict(s);
    AddedDigest(s.Body(), h(HashedText(prev, s.Body())));
    SpendKeys(s);
    RowTextShape(Record(h, prev, s));
  }

  lemma HasNone(ms: seq<Member>, k: string)
    requires !Has(ms, k)
    ensures forall m :: m in ms ==> m.key != k
  {
  }

  /** The row `record` writes passes the check against the digest it was chained from. */
  lemma RecordedRowIntact(h: Hash, prev: string, s: Spend)
    requires s.WellFormed()
    ensures RowIntact(h, prev, ReadLine(RowText(Record(h, prev, s))))
  {
    hide Canonical, Valid, SameValue, Without, Truthy, ReadLine, RowText, Get, Spend.Body;
    var rec := Record(h, prev, s);
    RecordDict(h, prev, s);
    hide Record;
    RowTextReads(rec);
    SameAsCanon(Obj(rec));
    var back := Canon(Obj(rec)).members;
    CanonRow(rec, back);
    SameStr(rec, back, "digest", h(HashedText(prev, s.Body())));
    LookupOfSame(rec, back, "corrupt");
  }

  lemma CanonRow(rec: seq<Member>, back: seq<Member>)
    requires Valid(Obj(rec)) && Valid(Obj(back)) && SameValue(Obj(rec), Obj(back))
    ensures Canonical(Obj(RowBody(back)), true) == Canonical(Obj(RowBody(rec)), true)
  {
    SameWithout(rec, back, {"digest"});
    WithoutValid(rec, {"digest"});
    WithoutValid(back, {"digest"});
    CanonicalIff(Obj(RowBody(rec)), Obj(RowBody(back)), true);
  }

  /** What a recorded row says of one spend, key by key, and nothing more. */
  ghost predicate Says(s: Spend, row: seq<Member>) {
    && Agree(Some(s.ts), Get(row, "ts")) && Agree(Some(s.amount), Get(row, "amount_usd"))
    && Agree(Some(Str(s.source)), Get(row, "source")) && Agree(Some(Bool(true)), Get(row, "estimated"))
    && Agree(if s.meta == [] then None else Some(Obj(s.meta)), Get(row, "meta"))
    && forall m :: m in row ==> RowKey(m.key)
  }

  predicate RowKey(k: string) {
    k == "ts" || k == "amount_usd" || k == "source" || k == "estimated" || k == "meta" || k == "digest"
  }

  lemma SpendAt(s: Spend, i: nat, k: string)
    requires s.WellFormed() && i < |s.Body()| && s.Body()[i].key == k
    ensures Get(s.Body(), k) == Some(s.Body()[i].value)
  {
    hide Spend.Body, Get;
    SpendDict(s);
    DictUnique(s.Body());
    GetAt(s.Body(), i);
  }

  lemma SpendFields(s: Spend)
    requires s.WellFormed()
    ensures var b := s.Body();
            && Get(b, "ts") == Some(s.ts) && Get(b, "amount_usd") == Some(s.amount)
            && Get(b, "source") == Some(Str(s.source)) && Get(b, "estimated") == Some(Bool(true))
  {
    SpendShape(s);
    hide *;
    SpendAt(s, 0, "ts");
    SpendAt(s, 1, "amount_usd");
    SpendAt(s, 2, "source");
    SpendAt(s, 3, "estimated");
  }

  lemma SpendShape(s: Spend)
    ensures var b := s.Body();
            && |b| == (if s.meta == [] then 4 else 5)
            && b[0] == Member("ts", s.ts) && b[1] == Member("amount_usd", s.amount)
            && b[2] == Member("source", Str(s.source)) && b[3] == Member("estimated", Bool(true))
            && (s.meta != [] ==> b[4] == Member("meta", Obj(s.meta)))
  {
  }

  lemma NoMeta(s: Spend)
    requires s.meta == []
    ensures forall m :: m in s.Body() ==> m.key != "meta"
  {
    var b := s.Body();
    assert b[0].key[0] == 't' && b[1].key[0] == 'a' && b[2].key[0] == 's' && b[3].key[0] == 'e' && |b| == 4;
    assert forall i :: 0 <= i < |b| ==> b[i].key[0] != 'm';
  }

  lemma SpendMeta(s: Spend)
    requires s.WellFormed()
    ensures Get(s.Body(), "meta") == if s.meta == [] then None else Some(Obj(s.meta))
  {
    hide *;
    if s.meta != [] {
      SpendShape(s);
      SpendAt(s, 4, "meta");
    } else {
      NoMeta(s);
    }
  }

  lemma RecordKeys(h: Hash, prev: string, s: Spend)
    ensures forall m :: m in Record(h, prev, s) ==> RowKey(m.key)
  {
    hide HashedText;
  }

  lemma DigestOnly(d: string)
    ensures Get([Member("digest", Str(d))], "meta") == None
  {
    assert |"digest"| == 6;
  }

  lemma RecordFields(h: Hash, prev: string, s: Spend)
    requires s.WellFormed()
    ensures var b := Record(h, prev, s);
            && Get(b, "ts") == Some(s.ts) && Get(b, "amount_usd") == Some(s.amount)
            && Get(b, "source") == Some(Str(s.source)) && Get(b, "estimated") == Some(Bool(true))
            && Get(b, "meta") == if s.meta == [] then None else Some(Obj(s.meta))
  {
    hide Get, Spend.Body, HashedText;
    SpendFields(s);
    SpendMeta(s);
    var d := h(HashedText(prev, s.Body()));
    DigestOnly(d);
    var more := [Member("digest", Str(d))];
    GetAppended(s.Body(), more, "ts");
    GetAppended(s.Body(), more, "amount_usd");
    GetAppended(s.Body(), more, "source");
    GetAppended(s.Body(), more, "estimated");
    GetAppended(s.Body(), more, "meta");
  }

  /** What `record` hands back, and what anyone reads from the line it writes, is the spend as given: its time,
      amount, source and metadata, marked as an estimate. */
  lemma RecordSays(h: Hash, prev: string, s: Spend)
    requires s.WellFormed()
    ensures ReadLine(RowText(Record(h, prev, s))).Entry? && Says(s, ReadLine(RowText(Record(h, prev, s))).members)
    ensures Says(s, Record(h, prev, s))
  {
    hide ReadLine, RowText, Record, Get, SameValue, Valid;
    var rec := Record(h, prev, s);
    RecordDict(h, prev, s);
    RowTextReads(rec);
    SameAsCanon(Obj(rec));
    RecordSaysTo(h, prev, s, Canon(Obj(rec)).members);
    CanonSame(Obj(rec), Obj(rec));
    RecordSaysTo(h, prev, s, rec);
  }

  lemma KeyOfSame(a: seq<Member>, b: seq<Member>, m: Member)
    requires SameValue(Obj(a), Obj(b)) && m in b
    ensures exists x :: x in a && x.key == m.key
  {
    assert KeySet(a) == KeySet(b) && m.key in KeySet(b);
    var i :| 0 <= i < |a| && a[i].key == m.key;
    assert a[i] in a;
  }

  /** Any object equal to the record says the same. */
  lemma RecordSaysTo(h: Hash, prev: string, s: Spend, back: seq<Member>)
    requires s.WellFormed() && SameValue(Obj(Record(h, prev, s)), Obj(back))
    ensures Says(s, back)
  {
    hide Record, Get, SameValue, KeySet, RowKey, Valid, Spend.WellFormed;
    var rec := Record(h, prev, s);
    RecordFields(h, prev, s);
    RecordKeys(h, prev, s);
    forall m | m in back ensures RowKey(m.key) {
      KeyOfSame(rec, back, m);
    }
    LookupOfSame(rec, back, "ts");
    LookupOfSame(rec, back, "amount_usd");
    LookupOfSame(rec, back, "source");
    LookupOfSame(rec, back, "estimated");
    LookupOfSame(rec, back, "meta");
  }

  /** On rows: `record` keeps an intact chain intact, and no row it writes repairs a broken one. */
  lemma RecordedChain(h: Hash, rows: seq<Row>, s: Spend)
    requires s.WellFormed() && PreviousDigest(rows).Some?
    ensures Intact(h, rows + [ReadLine(RowText(Record(h, PreviousDigest(rows).value, s)))]) <==> Intact(h, rows)
  {
    hide RowText, RowIntact, ReadLine, Record, PreviousDigest;
    var prev := PreviousDigest(rows).value;
    RecordedRowIntact(h, prev, s);
    var row := ReadLine(RowText(Record(h, prev, s)));
    assert (rows + [row])[..|rows|] == rows;
    if Intact(h, rows) {
      IntactPrevious(h, rows);
    }
  }

  // ----- appending text -----

  lemma {:induction false} StripLeftJoin(g: string, r: string)
    requires r != "" && !PySpace(r[0])
    ensures StripLeft(g + r) == StripLeft(g) + r
  {
    if g == "" {
      assert g + r == r;
    } else {
      assert (g + r)[1..] == g[1..] + r;
      if PySpace(g[0]) {
        StripLeftJoin(g[1..], r);
      }
    }
  }

  lemma StripEmpty(s: string)
    ensures Strip(s) == "" <==> StripLeft(s) == ""
  {
  }

  /** Text appended within a line extends the last line and no other. */
  lemma {:induction false} LinesExtend(text: string, x: string)
    requires OneLine(x)
    ensures Lines(text + x) == Whole(Lines(text)) + [Last(Lines(text)) + x]
  {
    if x == "" {
      assert text + x == text && Last(Lines(text)) + x == Last(Lines(text));
    } else {
      var y, c := x[..|x| - 1], x[|x| - 1];
      LinesExtend(text, y);
      assert (text + x)[..|text + x| - 1] == text + y;
      assert Last(Lines(text)) + x == Last(Lines(text)) + y + [c];
    }
  }

  lemma LinesEnd(text: string)
    ensures Lines(text + "\n") == Lines(text) + [""]
  {
    assert (text + "\n")[..|text|] == text;
  }

  /** Whatever is appended, the lines that had ended stay as they were. */
  lemma {:induction false} LinesKept(text: string, x: string)
    ensures Whole(Lines(text)) <= Lines(text + x)
  {
    if x == "" {
      assert text + x == text;
    } else {
      var y := x[..|x| - 1];
      LinesKept(text, y);
      assert (text + x)[..|text + x| - 1] == text + y;
      LinesLonger(text, y);
    }
  }

  lemma {:induction false} LinesLonger(text: string, x: string)
    ensures |Lines(text)| <= |Lines(text + x)|
  {
    if x == "" {
      assert text + x == text;
    } else {
      LinesLonger(text, x[..|x| - 1]);
      assert (text + x)[..|text + x| - 1] == text + x[..|x| - 1];
    }
  }

  /** What a file reads as, from its ended lines and the text after them. */
  lemma RowsSplit(text: string)
    ensures var done, tail := ReadEntries(Whole(Lines(text))), Last(Lines(text));
            Rows(text) == if LineEnded(text) then done else done + [ReadLine(Strip(tail))]
  {
  }

  /** A file to which part of one line was appended. */
  lemma RowsExtended(text: string, x: string)
    requires OneLine(x)
    ensures var done, line := ReadEntries(Whole(Lines(text))), Strip(Last(Lines(text)) + x);
            Rows(text + x) == if line == "" then done else done + [ReadLine(line)]
  {
    LinesExtend(text, x);
    RowsSplit(text + x);
    assert Whole(Lines(text + x)) == Whole(Lines(text));
  }

  lemma RowsEnded(text: string)
    ensures Rows(text + "\n") == Rows(text)
  {
    LinesEnd(text);
    assert Whole(Lines(text + "\n")) == Lines(text);
  }

  /** A row's text behind the remains of an earlier line is read as that row only if the remains are
      white space; behind anything else the line is not JSON. */
  lemma MergedRow(g: string, r: string)
    requires ObjectText(r) && Braced(r)
    ensures var line := Strip(g + r);
            line != "" && (if Strip(g) == "" then line == r else ReadLine(line) == Corrupt)
  {
    hide ParseValue, Parse, SkipSpace;
    StripLeftJoin(g, r);
    StripEmpty(g);
    var front := StripLeft(g);
    assert Strip(g + r) == front + r;
    if front != "" && Parse(front + r).Some? {
      MergedLine(front, r);
      SolidStart(front + r);
    }
    assert front == "" ==> front + r == r;
  }

  lemma SolidStart(s: string)
    requires s != "" && !PySpace(s[0])
    ensures SkipSpace(s) == s
  {
  }

  /** `record` leaves an intact ledger exactly when it found one whose last line had ended. After a row
      without its line break the next row lands on the same line and both are lost. */
  lemma RecordExact(h: Hash, text: string, s: Spend)
    requires s.WellFormed() && PreviousDigest(Rows(text)).Some?
    ensures var line := RowText(Record(h, PreviousDigest(Rows(text)).value, s));
            Intact(h, Rows(text + line + "\n")) <==> Intact(h, Rows(text)) && LineEnded(text)
  {
    hide RowText, RowIntact, ReadLine, Record, PreviousDigest, Lines, Strip, ObjectText, Rows;
    var prev := PreviousDigest(Rows(text)).value;
    var r := RowText(Record(h, prev, s));
    RecordDict(h, prev, s);
    RecordedChain(h, Rows(text), s);
    RowsEnded(text + r);
    RowsExtended(text, r);
    RowsSplit(text);
    MergedRow(Last(Lines(text)), r);
    LastCorrupt(h, ReadEntries(Whole(Lines(text))));
  }

  lemma LastCorrupt(h: Hash, rows: seq<Row>)
    ensures !Intact(h, rows + [Corrupt])
  {
  }

  /** A write that stops after `k` characters of a row: the file reads as intact only if none of the row
      or all of it was written. */
  lemma TornRow(h: Hash, text: string, s: Spend, k: nat)
    requires s.WellFormed() && Intact(h, Rows(text)) && LineEnded(text) && PreviousDigest(Rows(text)).Some?
    requires k <= |RowText(Record(h, PreviousDigest(Rows(text)).value, s))|
    ensures var line := RowText(Record(h, PreviousDigest(Rows(text)).value, s));
            Intact(h, Rows(text + line[..k])) <==> k == 0 || k == |line|
  {
    hide RowText, RowIntact, ReadLine, Record, PreviousDigest, Lines, Strip, ObjectText, Rows;
    var prev := PreviousDigest(Rows(text)).value;
    var r := RowText(Record(h, prev, s));
    RecordDict(h, prev, s);
    RecordedChain(h, Rows(text), s);
    RowsExtended(text, r[..k]);
    RowsSplit(text);
    if k == 0 {
      assert text + r[..k] == text;
    } else if k == |r| {
      assert r[..k] == r;
      MergedRow(Last(Lines(text)), r);
    } else {
      CutRow(Last(Lines(text)), r, k);
      LastCorrupt(h, ReadEntries(Whole(Lines(text))));
    }
  }

  lemma CutRow(g: string, r: string, k: nat)
    requires ObjectText(r) && 0 < k < |r| && Strip(g) == ""
    ensures var line := Strip(g + r[..k]); line != "" && ReadLine(line) == Corrupt
  {
    hide ParseValue, Parse;
    StripLeftJoin(g, r[..k]);
    StripEmpty(g);
    assert StripLeft(g) + r[..k] == r[..k];
    var line := Strip(g + r[..k]);
    assert line == StripRight(r[..k]);
    assert line == r[..|line|];
    CutShort(r, |line|);
  }

  lemma UnendedRow(text: string, r: string)
    requires ObjectText(r) && Braced(r)
    ensures !LineEnded(text + r)
  {
    hide ObjectText, Strip;
    LinesExtend(text, r);
    MergedRow(Last(Lines(text)), r);
  }

  /** A row that lost only its line break goes unnoticed, and the next `record` then breaks the chain. */
  lemma LostBreak(h: Hash, text: string, s: Spend, next: Spend)
    requires s.WellFormed() && next.WellFormed()
    requires Intact(h, Rows(text)) && LineEnded(text) && PreviousDigest(Rows(text)).Some?
    ensures var torn := text + RowText(Record(h, PreviousDigest(Rows(text)).value, s));
            && Intact(h, Rows(torn)) && PreviousDigest(Rows(torn)).Some?
            && !Intact(h, Rows(torn + RowText(Record(h, PreviousDigest(Rows(torn)).value, next)) + "\n"))
  {
    hide RowText, RowIntact, ReadLine, Record, ObjectText, Braced, Strip, LineEnded, Rows, Intact, PreviousDigest;
    var prev := PreviousDigest(Rows(text)).value;
    var r := RowText(Record(h, prev, s));
    assert r[..|r|] == r;
    TornRow(h, text, s, |r|);
    IntactPrevious(h, Rows(text + r));
    RecordExact(h, text + r, next);
    RecordDict(h, prev, s);
    UnendedRow(text, r);
  }

  /** Lines appended to broken lines, by whatever writer, do not make them intact. */
  lemma {:induction false} BrokenLines(h: Hash, lines: seq<string>, more: seq<string>)
    requires !Intact(h, ReadEntries(lines))
    ensures !Intact(h, ReadEntries(lines + more))
  {
    hide RowIntact, ReadLine, Strip;
    if more == [] {
      assert lines + more == lines;
    } else {
      var front := more[..|more| - 1];
      var all := lines + more;
      BrokenLines(h, lines, front);
      assert all[..|all| - 1] == lines + front;
      var rows := ReadEntries(all);
      assert rows == ReadEntries(lines + front) || rows[..|rows| - 1] == ReadEntries(lines + front);
    }
  }

  /** Nothing appended to a file whose ended lines are broken, by whatever writer, makes it intact. */
  lemma BrokenStaysBroken(h: Hash, text: string, more: string)
    requires !Intact(h, ReadEntries(Whole(Lines(text))))
    ensures !Intact(h, Rows(text + more))
  {
    hide Lines, ReadEntries, Intact;
    var done, all := Whole(Lines(text)), Lines(text + more);
    LinesKept(text, more);
    BrokenLines(h, done, all[|done|..]);
    assert done + all[|done|..] == all;
  }

  class LedgerFile {
    var text: string

    constructor ()
      ensures text == "" && Rows(text) == [] && LineEnded(text)
    {
      text := "";
    }

    /** `record`, whose write may fail after `written` characters. */
    method AppendRow(h: Hash, s: Spend, written: nat) returns (row: Option<seq<Member>>)
      requires s.WellFormed()
      modifies this
      ensures var prev := PreviousDigest(Rows(old(text)));
              if prev.None? then row == None && text == old(text)
              else
                var rec := Record(h, prev.value, s);
                var line := RowText(rec) + "\n";
                if written < |line| then row == None && text == old(text) + line[..written]
                else row == Some(rec) && text == old(text) + line
      ensures row.Some? ==> Says(s, row.value)
      ensures Intact(h, Rows(old(text))) ==> PreviousDigest(Rows(old(text))).Some?
      ensures row.Some? ==> (Intact(h, Rows(text)) <==> Intact(h, Rows(old(text))) && LineEnded(old(text)))
      ensures Intact(h, Rows(old(text))) && LineEnded(old(text)) ==>
                var line := RowText(Record(h, PreviousDigest(Rows(old(text))).value, s));
                Intact(h, Rows(text)) <==> written == 0 || written >= |line|
    {
      hide RowText, RowIntact, ReadLine, Record, PreviousDigest, Lines, Strip, Rows, LineEnded, Intact, Says;
      if Intact(h, Rows(text)) {
        IntactPrevious(h, Rows(text));
      }
      var prev := PreviousDigest(Rows(text));
      if prev.None? {
        return None;
      }
      var rec := Record(h, prev.value, s);
      var line := RowText(rec) + "\n";
      RecordExact(h, text, s);
      assert Says(s, rec) by { RecordSays(h, prev.value, s); }
      assert text + RowText(rec) + "\n" == text + line;
      if written < |line| {
        assert line[..written] == RowText(rec)[..written];
        if Intact(h, Rows(text)) && LineEnded(text) {
          TornRow(h, text, s, written);
        }
        text := text + line[..written];
        return None;
      }
      text := text + line;
      return Some(rec);
    }
  }

  // ----- the last digest identifies the whole ledger -----

  ghost function Texts(rows: seq<Row>): set<string> {
    if rows == [] then {}
    else
      var front, row := rows[..|rows| - 1], rows[|rows| - 1];
      Texts(front) + (if row.Entry? then {HashedText(LastDigest(front), RowBody(row.members))} else {})
  }

  ghost predicate SameRows(a: seq<Row>, b: seq<Row>) {
    |a| == |b| && forall i :: 0 <= i < |a| ==>
      a[i].Entry? && b[i].Entry? && SameValue(Obj(a[i].members), Obj(b[i].members))
  }

  predicate WellFormedRows(rows: seq<Row>) {
    forall i :: 0 <= i < |rows| ==> rows[i].Entry? ==> Valid(Obj(rows[i].members))
  }

  ghost predicate Forged(h: Hash, a: set<string>, b: set<string>) {
    || (exists x, y :: x in a && y in b && Collide(h, x, y))
    || (exists x :: x in a + b && h(x) == GENESIS)
  }

  lemma SameHashedText(p: string, q: string, a: seq<Member>, b: seq<Member>)
    requires IsDigest(p) && IsDigest(q) && Valid(Obj(a)) && Valid(Obj(b))
    requires HashedText(p, a) == HashedText(q, b)
    ensures p == q && SameValue(Obj(a), Obj(b))
  {
    hide Canonical;
    assert HashedText(p, a)[..64] == p && HashedText(q, b)[..64] == q;
    assert HashedText(p, a)[64..] == Canonical(Obj(a), true) && HashedText(q, b)[64..] == Canonical(Obj(b), true);
    CanonicalIff(Obj(a), Obj(b), true);
  }

  lemma LastRow(h: Hash, rows: seq<Row>)
    requires Intact(h, rows) && rows != []
    ensures var front, row := rows[..|rows| - 1], rows[|rows| - 1];
            && Intact(h, front) && row.Entry? && IsDigest(LastDigest(front))
            && Get(row.members, "digest") == Some(Str(LastDigest(rows)))
            && LastDigest(rows) == h(HashedText(LastDigest(front), RowBody(row.members)))
            && Texts(front) <= Texts(rows) && HashedText(LastDigest(front), RowBody(row.members)) in Texts(rows)
  {
    IntactPrevious(h, rows[..|rows| - 1]);
  }

  lemma SameLastRow(a: seq<Member>, b: seq<Member>, d: string)
    requires Valid(Obj(a)) && Valid(Obj(b)) && SameValue(Obj(RowBody(a)), Obj(RowBody(b)))
    requires Get(a, "digest") == Some(Str(d)) && Get(b, "digest") == Some(Str(d))
    ensures SameValue(Obj(a), Obj(b))
  {
    hide Get, Without, SameValue;
    DictUnique(a);
    DictUnique(b);
    forall k | k in {"digest"} ensures Agree(Get(a, k), Get(b, k)) { StrSame(d); }
    SameRejoin(a, b, {"digest"});
  }

  lemma StrSame(d: string)
    ensures SameValue(Str(d), Str(d))
  {
  }

  lemma RowBodyValid(ms: seq<Member>)
    requires Valid(Obj(ms))
    ensures Valid(Obj(RowBody(ms)))
  {
    WithoutValid(ms, {"digest"});
  }

  lemma SameTextSameRow(h: Hash, a: seq<Row>, b: seq<Row>)
    requires a != [] && b != [] && WellFormedRows(a) && WellFormedRows(b)
    requires Intact(h, a) && Intact(h, b) && LastDigest(a) == LastDigest(b)
    requires a[|a| - 1].Entry? && b[|b| - 1].Entry?
    requires HashedText(LastDigest(a[..|a| - 1]), RowBody(a[|a| - 1].members))
          == HashedText(LastDigest(b[..|b| - 1]), RowBody(b[|b| - 1].members))
    ensures LastDigest(a[..|a| - 1]) == LastDigest(b[..|b| - 1])
    ensures SameValue(Obj(a[|a| - 1].members), Obj(b[|b| - 1].members))
  {
    hide Valid, Canonical, SameValue, Get, Intact, RowIntact, RowDigest, HashedText, RowBody, LastDigest, Texts;
    LastRow(h, a);
    LastRow(h, b);
    var ra, rb := a[|a| - 1].members, b[|b| - 1].members;
    RowBodyValid(ra);
    RowBodyValid(rb);
    SameHashedText(LastDigest(a[..|a| - 1]), LastDigest(b[..|b| - 1]), RowBody(ra), RowBody(rb));
    SameLastRow(ra, rb, LastDigest(a));
  }

  lemma SameRowsExtend(a: seq<Row>, b: seq<Row>)
    requires a != [] && b != [] && SameRows(a[..|a| - 1], b[..|b| - 1])
    requires a[|a| - 1].Entry? && b[|b| - 1].Entry?
    requires SameValue(Obj(a[|a| - 1].members), Obj(b[|b| - 1].members))
    ensures SameRows(a, b)
  {
    hide SameValue;
    var fa, fb := a[..|a| - 1], b[..|b| - 1];
    assert forall i :: 0 <= i < |fa| ==> a[i] == fa[i] && b[i] == fb[i];
  }

  /** Two intact ledgers that end in the same digest hold the same rows, unless two of the texts they
      hash collide or one of them hashes to the genesis value. So no edit, insertion, deletion or
      reordering before the last row keeps both the chain intact and the last digest. */
  lemma {:induction false} LastDigestBinds(h: Hash, a: seq<Row>, b: seq<Row>)
    requires WellFormedRows(a) && WellFormedRows(b)
    requires Intact(h, a) && Intact(h, b) && LastDigest(a) == LastDigest(b)
    ensures SameRows(a, b) || Forged(h, Texts(a), Texts(b))
    decreases |a| + |b|
  {
    hide Valid, Canonical, SameValue, Get, Intact, RowIntact, RowDigest, HashedText, Without;
    if a != [] {
      LastRow(h, a);
    }
    if b != [] {
      LastRow(h, b);
    }
    if a != [] && b != [] {
      var fa, fb := a[..|a| - 1], b[..|b| - 1];
      var ta := HashedText(LastDigest(fa), RowBody(a[|a| - 1].members));
      var tb := HashedText(LastDigest(fb), RowBody(b[|b| - 1].members));
      if ta == tb {
        SameTextSameRow(h, a, b);
        LastDigestBinds(h, fa, fb);
        if SameRows(fa, fb) {
          SameRowsExtend(a, b);
        } else {
          ForgedMonotone(h, Texts(fa), Texts(fb), Texts(a), Texts(b));
        }
      } else {
        assert Collide(h, ta, tb);
      }
    }
  }

  lemma ForgedMonotone(h: Hash, a: set<string>, b: set<string>, a': set<string>, b': set<string>)
    requires Forged(h, a, b) && a <= a' && b <= b'
    ensures Forged(h, a', b')
  {
  }

  /** The same for any two files, whatever their text. */
  lemma FilesWithSameLastDigest(h: Hash, a: string, b: string)
    requires Intact(h, Rows(a)) && Intact(h, Rows(b)) && LastDigest(Rows(a)) == LastDigest(Rows(b))
    ensures SameRows(Rows(a), Rows(b)) || Forged(h, Texts(Rows(a)), Texts(Rows(b)))
  {
    ReadRowsWellFormed(Lines(a));
    ReadRowsWellFormed(Lines(b));
    LastDigestBinds(h, Rows(a), Rows(b));
  }
}
