/** Dictionary operations on the members of a JSON object: lookup, removal and equality by lookup. */
module JsonObject {
  import opened Text
  import opened Json
  import opened JsonCanonical
  import opened JsonWalk

  function Get(ms: seq<Member>, key: string): (r: Option<Json>)
    ensures r.Some? ==> Member(key, r.value) in ms
    ensures r.None? ==> forall m :: m in ms ==> m.key != key
  {
    if ms == [] then None
    else if ms[0].key == key then
      assert ms[0] == Member(key, ms[0].value);
      Some(ms[0].value)
    else Get(ms[1..], key)
  }

  /** `{k: v for k, v in ms if k not in keys}` */
  function Without(ms: seq<Member>, keys: set<string>): (r: seq<Member>)
    ensures forall m :: m in r <==> m in ms && m.key !in keys
  {
    if ms == [] then []
    else if ms[0].key in keys then Without(ms[1..], keys)
    else [ms[0]] + Without(ms[1..], keys)
  }

  predicate Has(ms: seq<Member>, key: string) { Get(ms, key).Some? }

  ghost predicate Agree(a: Option<Json>, b: Option<Json>) {
    match (a, b)
    case (None, None) => true
    case (Some(x), Some(y)) => SameValue(x, y)
    case _ => false
  }

  lemma GetAt(ms: seq<Member>, i: nat)
    requires UniqueKeys(ms) && i < |ms|
    ensures Get(ms, ms[i].key) == Some(ms[i].value)
  {
  }

  ghost predicate SameLookups(a: seq<Member>, b: seq<Member>) { forall k :: Agree(Get(a, k), Get(b, k)) }

  lemma LookupOfSame(a: seq<Member>, b: seq<Member>, k: string)
    requires SameValue(Obj(a), Obj(b))
    ensures Agree(Get(a, k), Get(b, k))
  {
    assert Get(a, k).Some? ==> k in KeySet(a);
    assert Get(b, k).Some? ==> k in KeySet(b);
  }

  lemma KeysOfSameLookups(a: seq<Member>, b: seq<Member>)
    requires UniqueKeys(a) && SameLookups(a, b)
    ensures KeySet(a) <= KeySet(b)
  {
    forall i | 0 <= i < |a| ensures a[i].key in KeySet(b) {
      GetAt(a, i);
      assert Agree(Get(a, a[i].key), Get(b, a[i].key));
    }
  }

  /** Dictionaries with unique keys whose lookups all agree are equal. */
  lemma SameFromLookups(a: seq<Member>, b: seq<Member>)
    requires UniqueKeys(a) && UniqueKeys(b) && SameLookups(a, b)
    ensures SameValue(Obj(a), Obj(b))
  {
    KeysOfSameLookups(a, b);
    assert KeySet(b) <= KeySet(a) by {
      forall i | 0 <= i < |b| ensures b[i].key in KeySet(a) {
        GetAt(b, i);
        assert Agree(Get(a, b[i].key), Get(b, b[i].key));
      }
    }
    forall i, k | 0 <= i < |a| && 0 <= k < |b| && a[i].key == b[k].key ensures SameValue(a[i].value, b[k].value) {
      GetAt(a, i);
      GetAt(b, k);
      assert Agree(Get(a, a[i].key), Get(b, a[i].key));
    }
  }

  lemma {:induction false} WithoutUnique(ms: seq<Member>, keys: set<string>)
    requires UniqueKeys(ms)
    ensures UniqueKeys(Without(ms, keys))
  {
    if ms != [] {
      WithoutUnique(ms[1..], keys);
    }
  }

  lemma WithoutValid(ms: seq<Member>, keys: set<string>)
    requires Valid(Obj(ms))
    ensures Valid(Obj(Without(ms, keys)))
  {
    WithoutUnique(ms, keys);
    forall m | m in Without(ms, keys) ensures Valid(m.value) { assert m in ms; }
  }

  lemma {:induction false} GetWithout(ms: seq<Member>, keys: set<string>, k: string)
    ensures Get(Without(ms, keys), k) == if k in keys then None else Get(ms, k)
  {
    if ms != [] {
      GetWithout(ms[1..], keys, k);
    }
  }

  lemma SameWithout(a: seq<Member>, b: seq<Member>, keys: set<string>)
    requires UniqueKeys(a) && UniqueKeys(b) && SameValue(Obj(a), Obj(b))
    ensures SameValue(Obj(Without(a, keys)), Obj(Without(b, keys)))
  {
    WithoutUnique(a, keys);
    WithoutUnique(b, keys);
    forall k ensures Agree(Get(Without(a, keys), k), Get(Without(b, keys), k)) {
      GetWithout(a, keys, k);
      GetWithout(b, keys, k);
      LookupOfSame(a, b, k);
    }
    SameFromLookups(Without(a, keys), Without(b, keys));
  }

  /** Objects that agree on some keys and, without them, are equal, are equal. */
  lemma SameRejoin(a: seq<Member>, b: seq<Member>, keys: set<string>)
    requires UniqueKeys(a) && UniqueKeys(b)
    requires SameValue(Obj(Without(a, keys)), Obj(Without(b, keys)))
    requires forall k :: k in keys ==> Agree(Get(a, k), Get(b, k))
    ensures SameValue(Obj(a), Obj(b))
  {
    forall k ensures Agree(Get(a, k), Get(b, k)) {
      GetWithout(a, keys, k);
      GetWithout(b, keys, k);
      LookupOfSame(Without(a, keys), Without(b, keys), k);
    }
    SameFromLookups(a, b);
  }

  lemma {:induction false} WithoutAll(ms: seq<Member>, keys: set<string>)
    requires forall m :: m in ms ==> m.key in keys
    ensures Without(ms, keys) == []
  {
    if ms != [] {
      assert ms[0] in ms;
      WithoutAll(ms[1..], keys);
    }
  }

  lemma {:induction false} WithoutAppended(ms: seq<Member>, more: seq<Member>, keys: set<string>)
    requires forall m :: m in ms ==> m.key !in keys
    requires forall m :: m in more ==> m.key in keys
    ensures Without(ms + more, keys) == ms
  {
    if ms == [] {
      assert ms + more == more;
      WithoutAll(more, keys);
    } else {
      assert (ms + more)[1..] == ms[1..] + more;
      WithoutAppended(ms[1..], more, keys);
    }
  }

  // ----- size limits do not depend on the order of members -----

  lemma {:induction false} InsertMeasure(m: Member, ms: seq<Member>)
    ensures MemberNodes(Insert(m, ms)) == Nodes(m.value) + MemberNodes(ms)
    ensures MemberDepth(Insert(m, ms)) == Max(1 + Depth(m.value), MemberDepth(ms))
  {
    if ms == [] || LexLess(m.key, ms[0].key) {
      assert ([m] + ms)[1..] == ms;
    } else {
      InsertMeasure(m, ms[1..]);
    }
  }

  lemma {:induction false} SortMeasure(ms: seq<Member>)
    ensures MemberNodes(SortMembers(ms)) == MemberNodes(ms) && MemberDepth(SortMembers(ms)) == MemberDepth(ms)
  {
    if ms != [] {
      SortMeasure(ms[1..]);
      InsertMeasure(ms[0], SortMembers(ms[1..]));
    }
  }

  lemma {:induction false} CanonMeasure(j: Json)
    ensures Nodes(Canon(j)) == Nodes(j) && Depth(Canon(j)) == Depth(j)
    decreases j, 1
  {
    match j
    case Arr(items) => CanonItemsMeasure(items, Canon(j).items);
    case Obj(ms) =>
      CanonMembersMeasure(ms, CanonMembers(ms));
      SortMeasure(CanonMembers(ms));
    case _ =>
  }

  lemma {:induction false} CanonItemsMeasure(items: seq<Json>, cs: seq<Json>)
    requires |cs| == |items| && forall i :: 0 <= i < |items| ==> cs[i] == Canon(items[i])
    ensures ItemNodes(cs) == ItemNodes(items) && ItemDepth(cs) == ItemDepth(items)
    decreases items, 0
  {
    if items != [] {
      CanonMeasure(items[0]);
      CanonItemsMeasure(items[1..], cs[1..]);
    }
  }

  lemma {:induction false} CanonMembersMeasure(ms: seq<Member>, cs: seq<Member>)
    requires |cs| == |ms| && forall i :: 0 <= i < |ms| ==> cs[i].value == Canon(ms[i].value)
    ensures MemberNodes(cs) == MemberNodes(ms) && MemberDepth(cs) == MemberDepth(ms)
    decreases ms, 0
  {
    if ms != [] {
      CanonMeasure(ms[0].value);
      CanonMembersMeasure(ms[1..], cs[1..]);
    }
  }
}
