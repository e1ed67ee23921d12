/** Canonical text: `json.dumps(..., sort_keys=True, separators=(",", ":"))`. It identifies two values
    exactly when they differ in nothing but the order of object members; `1`, `1.0` and `true`, equal under
    Python's `==`, stay apart. */
module JsonCanonical {
  import opened Text
  import opened Json
  import opened JsonRoundTrip

  // ----- equality of values up to member order -----

  function KeySet(ms: seq<Member>): set<string> { set i | 0 <= i < |ms| :: ms[i].key }

  /** Equal up to the order of object members, at every level. */
  ghost predicate SameValue(a: Json, b: Json)
    decreases a
  {
    match (a, b)
    case (Arr(x), Arr(y)) => |x| == |y| && forall i :: 0 <= i < |x| ==> SameValue(x[i], y[i])
    case (Obj(x), Obj(y)) =>
      && KeySet(x) == KeySet(y)
      && forall i, k :: 0 <= i < |x| && 0 <= k < |y| && x[i].key == y[k].key ==> SameValue(x[i].value, y[k].value)
    case _ => a == b
  }

  // ----- sorting by key -----

  predicate Sorted(ms: seq<Member>) {
    forall i, j :: 0 <= i < j < |ms| ==> LexLess(ms[i].key, ms[j].key)
  }

  function Insert(m: Member, ms: seq<Member>): (r: seq<Member>)
    ensures |r| == |ms| + 1 && forall x :: x in r <==> x == m || x in ms
  {
    if ms == [] || LexLess(m.key, ms[0].key) then [m] + ms else [ms[0]] + Insert(m, ms[1..])
  }

  function SortMembers(ms: seq<Member>): (r: seq<Member>)
    ensures |r| == |ms| && forall x :: x in r <==> x in ms
  {
    if ms == [] then [] else Insert(ms[0], SortMembers(ms[1..]))
  }

  lemma {:induction false} InsertSorted(m: Member, ms: seq<Member>)
    requires Sorted(ms) && forall x :: x in ms ==> x.key != m.key
    ensures Sorted(Insert(m, ms))
  {
    if ms != [] {
      if LexLess(m.key, ms[0].key) {
        forall j | 0 < j < |ms| ensures LexLess(m.key, ms[j].key) { LexTransitive(m.key, ms[0].key, ms[j].key); }
      } else {
        assert ms[0] in ms;
        LexTotal(m.key, ms[0].key);
        InsertSorted(m, ms[1..]);
        forall x | x in Insert(m, ms[1..]) ensures LexLess(ms[0].key, x.key) {
        }
      }
    }
  }

  lemma {:induction false} SortMembersSorted(ms: seq<Member>)
    requires UniqueKeys(ms)
    ensures Sorted(SortMembers(ms))
  {
    if ms != [] {
      SortMembersSorted(ms[1..]);
      InsertSorted(ms[0], SortMembers(ms[1..]));
    }
  }

  /** Two sorted member lists with the same members are the same list. */
  lemma {:induction false} SortedUnique(a: seq<Member>, b: seq<Member>)
    requires Sorted(a) && Sorted(b) && forall x :: x in a <==> x in b
    ensures a == b
  {
    assert a != [] ==> a[0] in b;
    assert b != [] ==> b[0] in a;
    if a != [] {
      if a[0] != b[0] {
        LexAsymmetricHeads(a, b);
      }
      forall x ensures x in a[1..] <==> x in b[1..] {
        TailMembership(a, x);
        TailMembership(b, x);
      }
      SortedUnique(a[1..], b[1..]);
    }
  }

  lemma LexAsymmetricHeads(a: seq<Member>, b: seq<Member>)
    requires Sorted(a) && Sorted(b) && a != [] && b != [] && a[0] in b && b[0] in a
    ensures a[0] == b[0]
  {
    if a[0] != b[0] {
      LexAsymmetric(b[0].key, a[0].key);
    }
  }

  lemma TailMembership(a: seq<Member>, x: Member)
    requires Sorted(a) && a != []
    ensures x in a[1..] <==> x in a && x != a[0]
  {
    if x in a[1..] {
      LexAsymmetric(a[0].key, x.key);
    }
  }

  // ----- canonical values and canonical text -----

  function CanonMembers(ms: seq<Member>): (r: seq<Member>)
    ensures |r| == |ms| && forall i :: 0 <= i < |ms| ==> r[i] == Member(ms[i].key, Canon(ms[i].value))
    decreases ms, 0
  {
    seq(|ms|, i requires 0 <= i < |ms| => Member(ms[i].key, Canon(ms[i].value)))
  }

  /** The same value with every object's members sorted by key. */
  function Canon(j: Json): Json
    decreases j, 1
  {
    match j
    case Arr(items) => Arr(seq(|items|, i requires 0 <= i < |items| => Canon(items[i])))
    case Obj(ms) => Obj(SortMembers(CanonMembers(ms)))
    case _ => j
  }

  function Canonical(j: Json, ascii: bool): string { Print(Canon(j), Style(ascii, false)) }

  lemma SortedHasUniqueKeys(ms: seq<Member>)
    requires Sorted(ms)
    ensures UniqueKeys(ms)
  {
    forall i, j | 0 <= i < j < |ms| ensures ms[i].key != ms[j].key { LexAsymmetric(ms[i].key, ms[j].key); }
  }

  lemma {:induction false} CanonValid(j: Json)
    requires Valid(j)
    ensures Valid(Canon(j))
    decreases j
  {
    match j
    case Arr(items) => forall i | 0 <= i < |items| ensures Valid(Canon(items[i])) { CanonValid(items[i]); }
    case Obj(ms) =>
      var cs := CanonMembers(ms);
      forall i | 0 <= i < |ms| ensures Valid(cs[i].value) { CanonValid(ms[i].value); }
      SortMembersSorted(cs);
      SortedHasUniqueKeys(SortMembers(cs));
      forall x | x in SortMembers(cs) ensures Valid(x.value) { assert x in cs; }
    case _ =>
  }

  /** Same value, same canonical form. */
  lemma {:induction false} SameCanon(a: Json, b: Json)
    requires Valid(a) && Valid(b) && SameValue(a, b)
    ensures Canon(a) == Canon(b)
    decreases a
  {
    match (a, b)
    case (Arr(x), Arr(y)) => forall i | 0 <= i < |x| ensures Canon(x[i]) == Canon(y[i]) { SameCanon(x[i], y[i]); }
    case (Obj(x), Obj(y)) =>
      var xs, ys := CanonMembers(x), CanonMembers(y);
      forall i, k | 0 <= i < |x| && 0 <= k < |y| && x[i].key == y[k].key ensures xs[i] == ys[k] {
        SameCanon(x[i].value, y[k].value);
      }
      SameMembers(x, y, xs, ys);
      SortMembersSorted(xs);
      SortMembersSorted(ys);
      SortedUnique(SortMembers(xs), SortMembers(ys));
    case _ =>
  }

  lemma SameMembers(x: seq<Member>, y: seq<Member>, xs: seq<Member>, ys: seq<Member>)
    requires |xs| == |x| && |ys| == |y| && KeySet(x) == KeySet(y)
    requires forall i, k :: 0 <= i < |x| && 0 <= k < |y| && x[i].key == y[k].key ==> xs[i] == ys[k]
    ensures forall m :: m in xs <==> m in ys
  {
    forall m | m in xs ensures m in ys {
      var i :| 0 <= i < |xs| && xs[i] == m;
      assert x[i].key in KeySet(y);
    }
    forall m | m in ys ensures m in xs {
      var k :| 0 <= k < |ys| && ys[k] == m;
      assert y[k].key in KeySet(x);
    }
  }

  /** Same canonical form, same value. */
  lemma {:induction false} CanonSame(a: Json, b: Json)
    requires Valid(a) && Valid(b) && Canon(a) == Canon(b)
    ensures SameValue(a, b)
    decreases a
  {
    match (a, b)
    case (Arr(x), Arr(y)) =>
      assert |Canon(a).items| == |Canon(b).items|;
      forall i | 0 <= i < |x| ensures SameValue(x[i], y[i]) {
        assert Canon(a).items[i] == Canon(b).items[i];
        CanonSame(x[i], y[i]);
      }
    case (Obj(x), Obj(y)) =>
      var xs, ys := CanonMembers(x), CanonMembers(y);
      assert forall m :: m in xs <==> m in ys by {
        assert SortMembers(xs) == SortMembers(ys);
      }
      SameKeySets(x, y);
      forall i, k | 0 <= i < |x| && 0 <= k < |y| && x[i].key == y[k].key ensures SameValue(x[i].value, y[k].value) {
        assert xs[i] in ys && ys[k] in ys;
        assert xs[i] == ys[k];
        CanonSame(x[i].value, y[k].value);
      }
    case _ =>
  }

  lemma SameKeySets(x: seq<Member>, y: seq<Member>)
    requires forall m :: m in CanonMembers(x) <==> m in CanonMembers(y)
    ensures KeySet(x) == KeySet(y)
  {
    var xs, ys := CanonMembers(x), CanonMembers(y);
    forall i | 0 <= i < |x| ensures x[i].key in KeySet(y) { assert xs[i] in ys; }
    forall k | 0 <= k < |y| ensures y[k].key in KeySet(x) { assert ys[k] in xs; }
  }

  lemma {:induction false} CanonIdempotent(j: Json)
    requires Valid(j)
    ensures Canon(Canon(j)) == Canon(j)
    decreases j
  {
    match j
    case Arr(items) =>
      forall i | 0 <= i < |items| ensures Canon(Canon(items[i])) == Canon(items[i]) { CanonIdempotent(items[i]); }
    case Obj(ms) =>
      var cs := CanonMembers(ms);
      var sorted := SortMembers(cs);
      forall i | 0 <= i < |ms| ensures Canon(cs[i].value) == cs[i].value { CanonIdempotent(ms[i].value); }
      assert CanonMembers(sorted) == sorted by {
        forall k | 0 <= k < |sorted| ensures CanonMembers(sorted)[k] == sorted[k] { assert sorted[k] in cs; }
      }
      SortMembersSorted(cs);
      SortedHasUniqueKeys(sorted);
      SortMembersSorted(sorted);
      SortedUnique(SortMembers(sorted), sorted);
    case _ =>
  }

  /** A value and its canonical form are the same value. */
  lemma SameAsCanon(j: Json)
    requires Valid(j)
    ensures Valid(Canon(j)) && SameValue(j, Canon(j))
  {
    CanonValid(j);
    CanonIdempotent(j);
    CanonSame(j, Canon(j));
  }

  /** Canonical texts are equal exactly when the values are, whatever the member order. */
  lemma CanonicalIff(a: Json, b: Json, ascii: bool)
    requires Valid(a) && Valid(b)
    ensures Canonical(a, ascii) == Canonical(b, ascii) <==> SameValue(a, b)
  {
    CanonValid(a);
    CanonValid(b);
    if Canonical(a, ascii) == Canonical(b, ascii) {
      PrintInjective(Canon(a), Canon(b), Style(ascii, false), Style(ascii, false));
      CanonSame(a, b);
    }
    if SameValue(a, b) {
      SameCanon(a, b);
    }
  }

  /** Any printed form of a value reads back as a value with the same canonical text. */
  lemma ReparseCanonical(j: Json, ascii: bool)
    requires Valid(j)
    ensures Parse(Canonical(j, ascii)) == Some(Canon(j)) && Valid(Canon(j)) && SameValue(j, Canon(j))
  {
    SameAsCanon(j);
    PrintParse(Canon(j), Style(ascii, false));
  }
}
