/** The placement coordinator: least-loaded first with a rotating tie-break, and its in-flight counts. */
module MeshCoordinator {
  import opened Text
  import opened Counting
  import opened Json

  datatype Node = Node(name: string, sovereign: bool, tailnetGpu: bool, reachable: bool, inflight: int)

  datatype Tier = Live | Degraded | Tailnet | Failover

  // ----- the sort key -----

  /** `(w.inflight, (index + rr) % n)`; `sorted` is stable, so the index breaks what is left. */
  datatype Key = Key(inflight: int, slot: nat, index: nat)

  function KeyOf(nodes: seq<Node>, n: nat, rr: nat, i: nat): Key
    requires i < |nodes| && n > 0
  {
    Key(nodes[i].inflight, (i + rr) % n, i)
  }

  predicate Before(a: Key, b: Key) {
    || a.inflight < b.inflight
    || (a.inflight == b.inflight && (a.slot < b.slot || (a.slot == b.slot && a.index < b.index)))
  }

  predicate Indices(nodes: seq<Node>, xs: seq<nat>) { forall k :: 0 <= k < |xs| ==> xs[k] < |nodes| }

  function Insert(nodes: seq<Node>, n: nat, rr: nat, i: nat, xs: seq<nat>): (r: seq<nat>)
    requires i < |nodes| && n > 0 && Indices(nodes, xs)
    ensures multiset(r) == multiset(xs) + multiset{i} && Indices(nodes, r)
  {
    if xs == [] || Before(KeyOf(nodes, n, rr, i), KeyOf(nodes, n, rr, xs[0])) then [i] + xs
    else
      assert xs == [xs[0]] + xs[1..];
      [xs[0]] + Insert(nodes, n, rr, i, xs[1..])
  }

  /** `sorted(xs, key=...)` */
  function SortBy(nodes: seq<Node>, n: nat, rr: nat, xs: seq<nat>): (r: seq<nat>)
    requires n > 0 && Indices(nodes, xs)
    ensures multiset(r) == multiset(xs) && Indices(nodes, r)
  {
    if xs == [] then []
    else
      assert xs == [xs[0]] + xs[1..];
      Insert(nodes, n, rr, xs[0], SortBy(nodes, n, rr, xs[1..]))
  }

  predicate Ordered(nodes: seq<Node>, n: nat, rr: nat, xs: seq<nat>)
    requires n > 0 && Indices(nodes, xs)
  {
    forall j, k :: 0 <= j < k < |xs| ==> Before(KeyOf(nodes, n, rr, xs[j]), KeyOf(nodes, n, rr, xs[k]))
  }

  predicate Ascending(xs: seq<nat>) { forall j, k :: 0 <= j < k < |xs| ==> xs[j] < xs[k] }

  lemma {:induction false} InsertOrdered(nodes: seq<Node>, n: nat, rr: nat, i: nat, xs: seq<nat>)
    requires i < |nodes| && n > 0 && Indices(nodes, xs) && Ordered(nodes, n, rr, xs) && i !in xs
    ensures Ordered(nodes, n, rr, Insert(nodes, n, rr, i, xs))
  {
    if xs != [] && !Before(KeyOf(nodes, n, rr, i), KeyOf(nodes, n, rr, xs[0])) {
      InsertOrdered(nodes, n, rr, i, xs[1..]);
      var r := Insert(nodes, n, rr, i, xs[1..]);
      forall k | 0 <= k < |r| ensures Before(KeyOf(nodes, n, rr, xs[0]), KeyOf(nodes, n, rr, r[k])) {
        assert r[k] in multiset(r);
        InsertMembers(nodes, n, rr, i, xs[1..], r[k]);
      }
    }
  }

  lemma InsertMembers(nodes: seq<Node>, n: nat, rr: nat, i: nat, xs: seq<nat>, x: nat)
    requires i < |nodes| && n > 0 && Indices(nodes, xs)
    ensures x in Insert(nodes, n, rr, i, xs) <==> x == i || x in xs
  {
    assert x in Insert(nodes, n, rr, i, xs) <==> x in multiset(Insert(nodes, n, rr, i, xs));
    assert x in xs <==> x in multiset(xs);
  }

  lemma SortMembers(nodes: seq<Node>, n: nat, rr: nat, xs: seq<nat>, x: nat)
    requires n > 0 && Indices(nodes, xs)
    ensures x in SortBy(nodes, n, rr, xs) <==> x in xs
  {
    assert x in SortBy(nodes, n, rr, xs) <==> x in multiset(SortBy(nodes, n, rr, xs));
    assert x in xs <==> x in multiset(xs);
  }

  lemma {:induction false} SortOrdered(nodes: seq<Node>, n: nat, rr: nat, xs: seq<nat>)
    requires n > 0 && Indices(nodes, xs) && Ascending(xs)
    ensures Ordered(nodes, n, rr, SortBy(nodes, n, rr, xs))
  {
    if xs != [] {
      SortOrdered(nodes, n, rr, xs[1..]);
      SortMembers(nodes, n, rr, xs[1..], xs[0]);
      InsertOrdered(nodes, n, rr, xs[0], SortBy(nodes, n, rr, xs[1..]));
    }
  }

  // ----- the rotation -----

  /** Which worker a pick with cursor `rr` puts first. */
  function First(nodes: seq<Node>, live: seq<nat>, rr: nat): nat
    requires live != [] && Indices(nodes, live)
  {
    assert |multiset(SortBy(nodes, |live|, rr, live))| == |live|;
    SortBy(nodes, |live|, rr, live)[0]
  }

  lemma FirstIsLeast(nodes: seq<Node>, live: seq<nat>, rr: nat, i: nat)
    requires live != [] && Indices(nodes, live) && Ascending(live) && i in live
    ensures First(nodes, live, rr) in live
    ensures First(nodes, live, rr) == i
            || Before(KeyOf(nodes, |live|, rr, First(nodes, live, rr)), KeyOf(nodes, |live|, rr, i))
  {
    var r := SortBy(nodes, |live|, rr, live);
    SortOrdered(nodes, |live|, rr, live);
    SortMembers(nodes, |live|, rr, live, i);
    SortMembers(nodes, |live|, rr, live, r[0]);
    var k :| 0 <= k < |r| && r[k] == i;
  }

  predicate EqualLoad(nodes: seq<Node>, live: seq<nat>)
    requires Indices(nodes, live)
  {
    forall j, k :: 0 <= j < |live| && 0 <= k < |live| ==> nodes[live[j]].inflight == nodes[live[k]].inflight
  }

  predicate DistinctMod(live: seq<nat>) {
    forall j, k :: 0 <= j < k < |live| ==> live[j] % |live| != live[k] % |live|
  }

  /** The turn, of the next `n` picks after cursor `rr`, in which worker `i` has slot zero. */
  function TurnOf(i: nat, rr: nat, n: nat): (k: nat)
    requires n > 0
    ensures 1 <= k <= n
  {
    n - (i + rr) % n
  }

  lemma TurnIsZero(i: nat, rr: nat, n: nat)
    requires n > 0
    ensures (i + rr + TurnOf(i, rr, n)) % n == 0
  {
    var q := (i + rr) / n;
    assert i + rr == q * n + (i + rr) % n;
    assert i + rr + TurnOf(i, rr, n) == (q + 1) * n + 0;
    ModUnique(q + 1, 0, n);
  }

  /** Only one of `n` consecutive cursors gives a worker slot zero. */
  lemma OneTurn(i: nat, rr: nat, n: nat, k: nat)
    requires n > 0 && 1 <= k <= n && (i + rr + k) % n == 0
    ensures k == TurnOf(i, rr, n)
  {
    var t := TurnOf(i, rr, n);
    TurnIsZero(i, rr, n);
    ModShift(k, t, i + rr, n);
    if k < n && t < n {
      ModUnique(0, k, n);
      ModUnique(0, t, n);
    } else {
      ModUnique(1, 0, n);
      ModUnique(0, if k < n then k else 0, n);
      ModUnique(0, if t < n then t else 0, n);
    }
  }

  /** Some live worker has slot zero, whatever the cursor. */
  lemma SomeZero(live: seq<nat>, rr: nat) returns (j: nat)
    requires live != [] && DistinctMod(live)
    ensures j in live && (j + rr) % |live| == 0
  {
    var n := |live|;
    var s := seq(n, m requires 0 <= m < n => (live[m] + rr) % n);
    forall a, b | 0 <= a < b < n ensures s[a] != s[b] {
      ModShift(live[a], live[b], rr, n);
    }
    Pigeonhole(s, n);
    assert 0 in s;
    var m :| 0 <= m < n && s[m] == 0;
    j := live[m];
  }

  /** The first worker of the `k`-th pick after cursor `rr`. */
  function FirstAfter(nodes: seq<Node>, live: seq<nat>, rr: nat, k: nat): nat
    requires live != [] && Indices(nodes, live)
  {
    First(nodes, live, rr + k)
  }

  /** Worker `i` is first in exactly one of the `n` picks after cursor `rr`. */
  ghost predicate OnceFirst(nodes: seq<Node>, live: seq<nat>, rr: nat, i: nat)
    requires live != [] && Indices(nodes, live)
  {
    exists k: nat :: 1 <= k <= |live| && FirstAfter(nodes, live, rr, k) == i
      && forall m: nat :: 1 <= m <= |live| && FirstAfter(nodes, live, rr, m) == i ==> m == k
  }

  lemma SameLoad(nodes: seq<Node>, live: seq<nat>, a: nat, b: nat)
    requires Indices(nodes, live) && EqualLoad(nodes, live) && a in live && b in live
    ensures nodes[a].inflight == nodes[b].inflight
  {
  }

  lemma DistinctIn(live: seq<nat>, a: nat, b: nat)
    requires DistinctMod(live) && a in live && b in live && a % |live| == b % |live|
    ensures a == b
  {
  }

  lemma FirstAtTurn(nodes: seq<Node>, live: seq<nat>, rr: nat, i: nat)
    requires live != [] && Indices(nodes, live) && Ascending(live) && EqualLoad(nodes, live) && DistinctMod(live)
    requires i in live
    ensures First(nodes, live, rr) == i <==> (i + rr) % |live| == 0
  {
    hide First, Ascending, DistinctMod, EqualLoad;
    var n := |live|;
    var f := First(nodes, live, rr);
    FirstIsLeast(nodes, live, rr, i);
    var j := SomeZero(live, rr);
    FirstIsLeast(nodes, live, rr, j);
    SameLoad(nodes, live, f, j);
    assert (f + rr) % n == 0;
    if (i + rr) % n == 0 {
      ModShift(i, f, rr, n);
      DistinctIn(live, i, f);
    }
  }

  /** Equal load and distinct remainders: everybody gets exactly one of any `n` consecutive first places. */
  lemma RotationFair(nodes: seq<Node>, live: seq<nat>, rr: nat, i: nat)
    requires live != [] && Indices(nodes, live) && Ascending(live) && EqualLoad(nodes, live) && DistinctMod(live)
    requires i in live
    ensures OnceFirst(nodes, live, rr, i)
  {
    hide First, Ascending, DistinctMod, EqualLoad, TurnOf;
    var n := |live|;
    var k := TurnOf(i, rr, n);
    TurnIsZero(i, rr, n);
    assert i + (rr + k) == i + rr + k;
    FirstAtTurn(nodes, live, rr + k, i);
    assert FirstAfter(nodes, live, rr, k) == i;
    forall m: nat | 1 <= m <= n && FirstAfter(nodes, live, rr, m) == i ensures m == k {
      FirstAtTurn(nodes, live, rr + m, i);
      assert i + (rr + m) == i + rr + m;
      OneTurn(i, rr, n, m);
    }
  }

  /** A worker whose index is congruent to an earlier live worker's is never first. */
  lemma ShadowedNeverFirst(nodes: seq<Node>, live: seq<nat>, rr: nat, i: nat, j: nat)
    requires live != [] && Indices(nodes, live) && Ascending(live) && EqualLoad(nodes, live)
    requires i in live && j in live && i < j && i % |live| == j % |live|
    ensures First(nodes, live, rr) != j
  {
    ModShift(i, j, rr, |live|);
    FirstIsLeast(nodes, live, rr, i);
  }

  /** Exactly when the rotation is fair. */
  lemma RotationExact(nodes: seq<Node>, live: seq<nat>)
    requires live != [] && Indices(nodes, live) && Ascending(live) && EqualLoad(nodes, live)
    ensures DistinctMod(live) <==> forall rr: nat, i: nat :: i in live ==> OnceFirst(nodes, live, rr, i)
  {
    if DistinctMod(live) {
      forall rr: nat, i: nat | i in live ensures OnceFirst(nodes, live, rr, i) {
        RotationFair(nodes, live, rr, i);
      }
    } else {
      var j, k :| 0 <= j < k < |live| && live[j] % |live| == live[k] % |live|;
      forall m: nat ensures FirstAfter(nodes, live, 0, m) != live[k] {
        ShadowedNeverFirst(nodes, live, m, live[j], live[k]);
      }
      assert live[k] in live && !OnceFirst(nodes, live, 0, live[k]);
    }
  }

  /** Four workers of which the first and the third are up: the third is never tried first. */
  lemma ThirdOfFourStarves(a: Node, b: Node, c: Node, d: Node, rr: nat)
    requires a.inflight == c.inflight
    ensures First([a, b, c, d], [0, 2], rr) == 0
  {
    var nodes, live := [a, b, c, d], [0, 2];
    FirstIsLeast(nodes, live, rr, 0);
    ShadowedNeverFirst(nodes, live, rr, 0, 2) by { assert live[0] == 0 && live[1] == 2; }
  }

  // ----- the picker -----

  predicate IsLive(n: Node) { n.sovereign && n.reachable }

  predicate IsTailnet(n: Node) { !n.sovereign && n.reachable && n.tailnetGpu }

  /** The positions from `i` on whose node passes the test. */
  function Positions(nodes: seq<Node>, live: bool, i: nat): (r: seq<nat>)
    requires i <= |nodes|
    ensures forall k :: 0 <= k < |r| ==> i <= r[k] < |nodes|
    ensures forall k: nat :: k in r <==> i <= k < |nodes| && if live then IsLive(nodes[k]) else IsTailnet(nodes[k])
    ensures Ascending(r)
    decreases |nodes| - i
  {
    if i == |nodes| then []
    else if (if live then IsLive(nodes[i]) else IsTailnet(nodes[i])) then [i] + Positions(nodes, live, i + 1)
    else Positions(nodes, live, i + 1)
  }

  /** `order` is every node of `xs` once, sorted. */
  predicate Picked(nodes: seq<Node>, rr: nat, xs: seq<nat>, order: seq<nat>) {
    xs != [] && Indices(nodes, order) && multiset(order) == multiset(xs) && Ordered(nodes, |xs|, rr, order)
  }

  // ----- what a pick is, in terms of the nodes alone -----

  /** The least loaded first; of equal load, the one whose position plus the cursor leaves the smaller remainder;
      of equal remainder, the one configured earlier. */
  predicate ByLoad(nodes: seq<Node>, rr: nat, order: seq<nat>)
    requires Indices(nodes, order)
  {
    forall j, k :: 0 <= j < k < |order| ==>
      && nodes[order[j]].inflight <= nodes[order[k]].inflight
      && (nodes[order[j]].inflight == nodes[order[k]].inflight ==>
            && (order[j] + rr) % |order| <= (order[k] + rr) % |order|
            && ((order[j] + rr) % |order| == (order[k] + rr) % |order| ==> order[j] < order[k]))
  }

  /** The order holds exactly the reachable workers that are sovereign, or exactly the reachable tailnet GPUs
      that are not. */
  predicate HoldsReachable(nodes: seq<Node>, workers: nat, order: seq<nat>, sovereign: bool)
    requires workers <= |nodes|
  {
    && (forall i :: i in order ==> i < workers)
    && forall i :: 0 <= i < workers ==>
         (i in order <==>
            nodes[i].reachable && nodes[i].sovereign == sovereign && (sovereign || nodes[i].tailnetGpu))
  }

  /** Some worker is reachable and sovereign, or reachable, not sovereign and a tailnet GPU. */
  predicate AnyReachable(nodes: seq<Node>, workers: nat, sovereign: bool)
    requires workers <= |nodes|
  {
    exists i :: 0 <= i < workers
      && nodes[i].reachable && nodes[i].sovereign == sovereign && (sovereign || nodes[i].tailnetGpu)
  }

  /** Who is picked, in which order, with which tier, and what becomes of the cursor. */
  predicate PickFits(nodes: seq<Node>, workers: nat, rr: nat, rr': nat, order: seq<nat>, tier: Tier)
    requires workers <= |nodes|
  {
    && Distinct(order) && Indices(nodes, order)
    && if AnyReachable(nodes, workers, true) then
         && HoldsReachable(nodes, workers, order, true) && ByLoad(nodes, rr', order)
         && rr' == rr + 1 && tier == (if |order| >= 2 then Live else Degraded)
       else if AnyReachable(nodes, workers, false) then
         && HoldsReachable(nodes, workers, order, false) && ByLoad(nodes, rr', order)
         && rr' == rr + 1 && tier == Tailnet
       else
         && rr' == rr && tier == Failover
         && order == if |nodes| > workers && nodes[workers].reachable then [workers] else []
  }

  predicate Distinct(xs: seq<nat>) { forall j, k :: 0 <= j < k < |xs| ==> xs[j] != xs[k] }

  lemma PickedDistinct(nodes: seq<Node>, rr: nat, xs: seq<nat>, order: seq<nat>)
    requires Picked(nodes, rr, xs, order)
    ensures Distinct(order)
  {
  }

  lemma PickedByLoad(nodes: seq<Node>, rr: nat, xs: seq<nat>, order: seq<nat>)
    requires Picked(nodes, rr, xs, order)
    ensures ByLoad(nodes, rr, order) && |order| == |xs| && forall i :: i in order <==> i in xs
  {
    assert |order| == |multiset(order)| == |multiset(xs)| == |xs|;
    assert forall i :: i in order <==> i in multiset(order);
    assert forall i :: i in xs <==> i in multiset(xs);
    forall j, k | 0 <= j < k < |order|
      ensures Before(KeyOf(nodes, |xs|, rr, order[j]), KeyOf(nodes, |xs|, rr, order[k]))
    {
    }
  }

  /** A sorted choice of the live, or else of the tailnet workers, is a pick. */
  lemma PickedFits(nodes: seq<Node>, workers: nat, rr: nat, live: bool, xs: seq<nat>, order: seq<nat>)
    requires workers <= |nodes| && xs == Positions(nodes[..workers], live, 0) && Picked(nodes, rr, xs, order)
    ensures Distinct(order) && Indices(nodes, order) && |order| == |xs| && AnyReachable(nodes, workers, live)
    ensures HoldsReachable(nodes, workers, order, live) && ByLoad(nodes, rr, order)
  {
    PickedDistinct(nodes, rr, xs, order);
    PickedByLoad(nodes, rr, xs, order);
    hide Positions, Picked, ByLoad;
    var front := nodes[..workers];
    assert forall i :: 0 <= i < workers ==> front[i] == nodes[i];
    assert xs[0] in xs;
  }

  lemma NoneReachable(nodes: seq<Node>, workers: nat, live: bool)
    requires workers <= |nodes| && Positions(nodes[..workers], live, 0) == []
    ensures !AnyReachable(nodes, workers, live)
  {
    hide Positions;
    var front := nodes[..workers];
    assert forall i :: 0 <= i < workers ==> front[i] == nodes[i] && i !in Positions(front, live, 0);
  }

  // ----- the exchanges -----

  /** What came back: nothing, or a status and the body if it is JSON. */
  datatype Exchange = Fails | Status(code: int, body: Option<Json>)

  datatype Attempt = Attempt(node: nat, ok: bool, status: Option<int>)

  /** One request on the wire: the node it went to and what came back. */
  datatype Trip = Trip(node: nat, came: Exchange)

  /** Whether encoding a decoded JSON object again succeeds. Everything is escaped to ASCII, so no value makes it
      fail; only running out of memory or of nesting does, and which objects those are is a parameter. */
  type Encoder = Json -> bool

  /** The worker answered, but putting the provenance block into its JSON object and encoding it again raised.
      Nothing else after the first decrement can raise: other bodies go through as they are. */
  predicate IsLate(encodes: Encoder, x: Exchange) {
    x.Status? && x.code < 500 && x.body.Some? && x.body.value.Obj? && !encodes(x.body.value)
  }

  /** The worker answered, and what came after did not raise. */
  predicate Good(encodes: Encoder, x: Exchange) { x.Status? && x.code < 500 && !IsLate(encodes, x) }

  /** The requests were those of the first nodes in the order, and the exchanges what came back. */
  predicate Travelled(order: seq<nat>, xs: seq<Exchange>, trips: seq<Trip>) {
    |xs| == |trips| <= |order| && forall k :: 0 <= k < |xs| ==> trips[k] == Trip(order[k], xs[k])
  }

  lemma NextTrip(order: seq<nat>, xs: seq<Exchange>, trips: seq<Trip>, x: Exchange)
    requires Travelled(order, xs, trips) && |xs| < |order|
    ensures Travelled(order, xs + [x], trips + [Trip(order[|xs|], x)])
  {
  }

  predicate NoneLate(encodes: Encoder, xs: seq<Exchange>) { forall k :: 0 <= k < |xs| ==> !IsLate(encodes, xs[k]) }

  predicate LateAt(encodes: Encoder, i: nat, order: seq<nat>, xs: seq<Exchange>) {
    exists k :: 0 <= k < |xs| && k < |order| && order[k] == i && IsLate(encodes, xs[k])
  }

  function Drifted(encodes: Encoder, n: Node, i: nat, order: seq<nat>, xs: seq<Exchange>): Node {
    n.(inflight := n.inflight - if LateAt(encodes, i, order, xs) then 1 else 0)
  }

  function RowsOf(encodes: Encoder, w: nat, x: Exchange): seq<Attempt> {
    match x
    case Fails => [Attempt(w, false, None)]
    case Status(code, _) =>
      if code >= 500 then [Attempt(w, false, Some(code))]
      else [Attempt(w, true, Some(code))] + if IsLate(encodes, x) then [Attempt(w, false, None)] else []
  }

  /** What each exchange comes to: an answer below 500 serves, with a success row of its status; one of 500 or
      more, or none, leaves a failure row and the next node is tried; so does an object that cannot be encoded
      again, after its success row. */
  lemma ExchangeExact(encodes: Encoder, w: nat, x: Exchange)
    ensures Good(encodes, x) <==>
            x.Status? && x.code <= 499 && (x.body.Some? && x.body.value.Obj? ==> encodes(x.body.value))
    ensures Good(encodes, x) ==> RowsOf(encodes, w, x) == [Attempt(w, true, Some(x.code))]
    ensures x == Fails ==> RowsOf(encodes, w, x) == [Attempt(w, false, None)]
    ensures x.Status? && x.code >= 500 ==> RowsOf(encodes, w, x) == [Attempt(w, false, Some(x.code))]
    ensures x.Status? && x.code <= 499 && !Good(encodes, x) ==>
              RowsOf(encodes, w, x) == [Attempt(w, true, Some(x.code)), Attempt(w, false, None)]
    ensures IsLate(encodes, x) <==> x.Status? && x.code <= 499 && !Good(encodes, x)
  {
  }

  /** The trail of the exchanges, in order; a late failure leaves a success row and a failure row. */
  function Rows(encodes: Encoder, order: seq<nat>, xs: seq<Exchange>): seq<Attempt>
    requires |xs| <= |order|
    decreases |xs|
  {
    if xs == [] then [] else Rows(encodes, order, xs[..|xs| - 1]) + RowsOf(encodes, order[|xs| - 1], xs[|xs| - 1])
  }

  /** `now` is `before` with the drift of these exchanges. */
  predicate HasDrift(encodes: Encoder, before: seq<Node>, now: seq<Node>, order: seq<nat>, xs: seq<Exchange>) {
    |now| == |before| && forall i :: 0 <= i < |now| ==> now[i] == Drifted(encodes, before[i], i, order, xs)
  }

  lemma NextDrift(encodes: Encoder, before: seq<Node>, start: seq<Node>, now: seq<Node>, order: seq<nat>,
                  xs: seq<Exchange>, x: Exchange)
    requires |xs| < |order| && Distinct(order) && Indices(before, order) && HasDrift(encodes, before, start, order, xs)
    requires var w := order[|xs|];
             now == start[w := start[w].(inflight := start[w].inflight - if IsLate(encodes, x) then 1 else 0)]
    ensures HasDrift(encodes, before, now, order, xs + [x])
    ensures Rows(encodes, order, xs + [x]) == Rows(encodes, order, xs) + RowsOf(encodes, order[|xs|], x)
  {
    hide IsLate;
    var ys := xs + [x];
    assert ys[..|xs|] == xs;
    forall i | 0 <= i < |now|
      ensures LateAt(encodes, i, order, ys)
         <==> LateAt(encodes, i, order, xs) || (i == order[|xs|] && IsLate(encodes, x))
    {
      if LateAt(encodes, i, order, xs) {
        var k :| 0 <= k < |xs| && k < |order| && order[k] == i && IsLate(encodes, xs[k]);
        assert ys[k] == xs[k];
      }
      if i == order[|xs|] && IsLate(encodes, x) {
        assert ys[|xs|] == x;
      }
    }
  }

  /** Counts are back where they were exactly if nothing raised after an answer. */
  lemma DriftExact(encodes: Encoder, before: seq<Node>, now: seq<Node>, order: seq<nat>, xs: seq<Exchange>)
    requires |xs| <= |order| && Indices(before, order) && HasDrift(encodes, before, now, order, xs)
    ensures now == before <==> NoneLate(encodes, xs)
  {
    hide IsLate;
    if !NoneLate(encodes, xs) {
      var k :| 0 <= k < |xs| && IsLate(encodes, xs[k]);
      assert LateAt(encodes, order[k], order, xs) && now[order[k]] != before[order[k]];
    }
  }

  /** One worker, and an answer that could not be encoded again: its count ends one too low, and the trail calls
      the same exchange a success and a failure. No concrete body is claimed to be such an answer. */
  lemma LateFailureDrifts(encodes: Encoder, n: Node, body: Json)
    requires body.Obj? && !encodes(body)
    ensures var xs := [Status(200, Some(body))];
            && HasDrift(encodes, [n], [n.(inflight := n.inflight - 1)], [0], xs)
            && Rows(encodes, [0], xs) == [Attempt(0, true, Some(200)), Attempt(0, false, None)]
  {
    var x := Status(200, Some(body));
    assert HasDrift(encodes, [n], [n], [0], []);
    NextDrift(encodes, [n], [n], [n.(inflight := n.inflight - 1)], [0], [], x);
    assert [] + [x] == [x];
  }

  lemma InOrder(nodes: seq<Node>, order: seq<nat>, k: nat)
    requires Indices(nodes, order) && k < |order|
    ensures order[k] < |nodes|
  {
  }

  class Coordinator {
    /** The workers, and after them the cloud failover if there is one. */
    var nodes: seq<Node>
    const workers: nat
    const encodes: Encoder
    var rr: nat
    ghost var trips: seq<Trip>

    ghost predicate Valid()
      reads this
    {
      workers <= |nodes| <= workers + 1
    }

    constructor (workers: seq<Node>, failover: Option<Node>, encodes: Encoder)
      ensures Valid() && rr == 0 && trips == [] && this.encodes == encodes && this.workers == |workers|
      ensures nodes == workers + if failover.Some? then [failover.value] else []
    {
      this.workers, this.encodes, rr, trips := |workers|, encodes, 0, [];
      nodes := workers + if failover.Some? then [failover.value] else [];
    }

    /** `pick_order`: the reachable sovereign workers if there is one, else the reachable tailnet workers,
        else the failover, else nobody. */
    method PickOrder() returns (order: seq<nat>, tier: Tier)
      requires Valid()
      modifies this`rr
      ensures PickFits(nodes, workers, old(rr), rr, order, tier)
    {
      var live := Positions(nodes[..workers], true, 0);
      if live != [] {
        rr := rr + 1;
        SortOrdered(nodes, |live|, rr, live);
        order, tier := SortBy(nodes, |live|, rr, live), if |live| >= 2 then Live else Degraded;
        PickedFits(nodes, workers, rr, true, live, order);
        return;
      }
      NoneReachable(nodes, workers, true);
      var tail := Positions(nodes[..workers], false, 0);
      if tail != [] {
        rr := rr + 1;
        SortOrdered(nodes, |tail|, rr, tail);
        order, tier := SortBy(nodes, |tail|, rr, tail), Tailnet;
        PickedFits(nodes, workers, rr, false, tail, order);
        return;
      }
      NoneReachable(nodes, workers, false);
      return if |nodes| > workers && nodes[workers].reachable then [workers] else [], Failover;
    }

    /** `proxy` after the probe: pick, then try in that order. A node's count, the failover's included, is given
        back exactly, except that an exception after its answer was read gives it back twice. */
    method Proxy()
      returns (served: Option<nat>, attempts: seq<Attempt>, order: seq<nat>, tier: Tier, ghost exchanges: seq<Exchange>)
      requires Valid()
      modifies this
      ensures Valid() && PickFits(old(nodes), workers, old(rr), rr, order, tier)
      ensures old(trips) <= trips && Travelled(order, exchanges, trips[|old(trips)|..])
      ensures attempts == Rows(encodes, order, exchanges)
      ensures HasDrift(encodes, old(nodes), nodes, order, exchanges)
      ensures nodes == old(nodes) <==> NoneLate(encodes, exchanges)
      ensures served.Some? ==>
                exchanges != [] && Good(encodes, exchanges[|exchanges| - 1]) && served.value == order[|exchanges| - 1]
      ensures served.None? ==>
                |exchanges| == |order| && forall k :: 0 <= k < |exchanges| ==> !Good(encodes, exchanges[k])
    {
      order, tier := PickOrder();
      served, attempts, exchanges := TryAll(order);
    }

    /** The loop over a picked order. */
    method TryAll(order: seq<nat>) returns (served: Option<nat>, attempts: seq<Attempt>, ghost exchanges: seq<Exchange>)
      requires Distinct(order) && Indices(nodes, order)
      modifies this`nodes, this`trips
      ensures old(trips) <= trips && Travelled(order, exchanges, trips[|old(trips)|..])
      ensures attempts == Rows(encodes, order, exchanges)
      ensures HasDrift(encodes, old(nodes), nodes, order, exchanges)
      ensures nodes == old(nodes) <==> NoneLate(encodes, exchanges)
      ensures served.Some? ==>
                exchanges != [] && Good(encodes, exchanges[|exchanges| - 1]) && served.value == order[|exchanges| - 1]
      ensures served.None? ==>
                |exchanges| == |order| && forall k :: 0 <= k < |exchanges| ==> !Good(encodes, exchanges[k])
    {
      attempts, exchanges := [], [];
      ghost var before := nodes;
      assert HasDrift(encodes, before, nodes, order, []) && Rows(encodes, order, []) == [];
      ghost var made := trips;
      assert Travelled(order, [], made[|made|..]);
      hide HasDrift, Rows, RowsOf, IsLate, Travelled, Distinct, Indices;
      var k := 0;
      while k < |order|
        invariant 0 <= k <= |order| && |exchanges| == k && made <= trips
        invariant Travelled(order, exchanges, trips[|made|..])
        invariant attempts == Rows(encodes, order, exchanges)
        invariant |nodes| == |before|
        invariant HasDrift(encodes, before, nodes, order, exchanges)
        invariant forall m :: 0 <= m < k ==> !Good(encodes, exchanges[m])
      {
        ghost var start := nodes;
        ghost var more := trips[|made|..];
        var w := order[k];
        InOrder(before, order, k);
        var x := TryOne(w);
        attempts := attempts + RowsOf(encodes, w, x);
        NextDrift(encodes, before, start, nodes, order, exchanges, x);
        NextTrip(order, exchanges, more, x);
        assert trips[|made|..] == more + [Trip(w, x)];
        exchanges := exchanges + [x];
        if Good(encodes, x) {
          DriftExact(encodes, before, nodes, order, exchanges);
          return Some(w), attempts, exchanges;
        }
        k := k + 1;
      }
      DriftExact(encodes, before, nodes, order, exchanges);
      return None, attempts, exchanges;
    }

    /** One node's turn: count it, talk to it, and give the count back, once more if something raised after its
        answer was read. */
    method TryOne(w: nat) returns (x: Exchange)
      requires w < |nodes|
      modifies this`nodes, this`trips
      ensures trips == old(trips) + [Trip(w, x)]
      ensures var n := old(nodes)[w];
              nodes == old(nodes)[w := n.(inflight := n.inflight - if IsLate(encodes, x) then 1 else 0)]
    {
      hide IsLate;
      ghost var start := nodes;
      Bump(w, 1);
      x := Talk(w, start[w].inflight);
      Bump(w, -1);
      if IsLate(encodes, x) {
        Bump(w, -1);
      }
    }

    /** The exchange itself, while the node is counted as loaded by one more request. */
    method Talk(w: nat, ghost before: int) returns (x: Exchange)
      requires w < |nodes| && nodes[w].inflight == before + 1
      modifies this`trips
      ensures trips == old(trips) + [Trip(w, x)]
    {
      x := *;
      trips := trips + [Trip(w, x)];
    }

    method Bump(i: nat, d: int)
      requires i < |nodes|
      modifies this`nodes
      ensures nodes == old(nodes)[i := old(nodes)[i].(inflight := old(nodes)[i].inflight + d)]
    {
      nodes := nodes[i := nodes[i].(inflight := nodes[i].inflight + d)];
    }
  }
}
