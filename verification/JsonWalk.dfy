/** The early-aborting walk that bounds a decoded JSON value before it is used. The same loop guards
    verification bundles, provider answers and model-store manifests with different limits. */
module JsonWalk {
  import opened Json

  const BUNDLE_DEPTH: nat := 64
  const BUNDLE_NODES: nat := 100_000
  const MANIFEST_DEPTH: nat := 12
  const MANIFEST_NODES: nat := 512

  function Max(a: nat, b: nat): nat { if a < b then b else a }

  /** Number of values in `j`, itself included. */
  function Nodes(j: Json): (n: nat)
    ensures n >= 1
    decreases j, 1
  {
    match j
    case Arr(items) => 1 + ItemNodes(items)
    case Obj(ms) => 1 + MemberNodes(ms)
    case _ => 1
  }

  function ItemNodes(items: seq<Json>): nat
    decreases items, 0
  {
    if items == [] then 0 else Nodes(items[0]) + ItemNodes(items[1..])
  }

  function MemberNodes(ms: seq<Member>): nat
    decreases ms, 0
  {
    if ms == [] then 0 else Nodes(ms[0].value) + MemberNodes(ms[1..])
  }

  /** Nesting depth: 0 for a value that holds no other value. */
  function Depth(j: Json): nat
    decreases j, 1
  {
    match j
    case Arr(items) => ItemDepth(items)
    case Obj(ms) => MemberDepth(ms)
    case _ => 0
  }

  function ItemDepth(items: seq<Json>): nat
    decreases items, 0
  {
    if items == [] then 0 else Max(1 + Depth(items[0]), ItemDepth(items[1..]))
  }

  function MemberDepth(ms: seq<Member>): nat
    decreases ms, 0
  {
    if ms == [] then 0 else Max(1 + Depth(ms[0].value), MemberDepth(ms[1..]))
  }

  function Children(j: Json): seq<Json> {
    match j
    case Arr(items) => items
    case Obj(ms) => Values(ms)
    case _ => []
  }

  function Values(ms: seq<Member>): (vs: seq<Json>)
    ensures |vs| == |ms| && forall i :: 0 <= i < |ms| ==> vs[i] == ms[i].value
  {
    if ms == [] then [] else [ms[0].value] + Values(ms[1..])
  }

  lemma {:induction false} MembersAsItems(ms: seq<Member>)
    ensures MemberNodes(ms) == ItemNodes(Values(ms)) && MemberDepth(ms) == ItemDepth(Values(ms))
  {
    if ms != [] {
      MembersAsItems(ms[1..]);
      assert Values(ms)[1..] == Values(ms[1..]);
    }
  }

  lemma ChildrenMeasure(j: Json)
    ensures Nodes(j) == 1 + ItemNodes(Children(j)) && Depth(j) == ItemDepth(Children(j))
  {
    if j.Obj? {
      MembersAsItems(j.members);
    }
  }

  predicate WithinLimits(j: Json, maxDepth: nat, maxNodes: nat) {
    Depth(j) <= maxDepth && Nodes(j) <= maxNodes
  }

  // ----- the pending entries of the walk -----

  datatype Entry = Entry(value: Json, depth: nat)

  ghost function Pending(stack: seq<Entry>): nat {
    if stack == [] then 0 else Nodes(stack[|stack| - 1].value) + Pending(stack[..|stack| - 1])
  }

  ghost predicate Shallow(stack: seq<Entry>, maxDepth: nat) {
    forall i :: 0 <= i < |stack| ==> stack[i].depth + Depth(stack[i].value) <= maxDepth
  }

  function Entries(cs: seq<Json>, depth: nat): (es: seq<Entry>)
    ensures |es| == |cs| && forall i :: 0 <= i < |cs| ==> es[i] == Entry(cs[i], depth)
  {
    seq(|cs|, i requires 0 <= i < |cs| => Entry(cs[i], depth))
  }

  lemma {:induction false} PendingAtLeastLength(stack: seq<Entry>)
    ensures Pending(stack) >= |stack|
  {
    if stack != [] {
      PendingAtLeastLength(stack[..|stack| - 1]);
    }
  }

  lemma {:induction false} PendingPush(stack: seq<Entry>, cs: seq<Json>, depth: nat)
    ensures Pending(stack + Entries(cs, depth)) == Pending(stack) + ItemNodes(cs)
    decreases |cs|
  {
    if cs == [] {
      assert stack + Entries(cs, depth) == stack;
    } else {
      var first := stack + [Entry(cs[0], depth)];
      assert stack + Entries(cs, depth) == first + Entries(cs[1..], depth);
      assert first[..|first| - 1] == stack;
      PendingPush(first, cs[1..], depth);
    }
  }

  lemma {:induction false} ItemDepthBound(cs: seq<Json>, bound: int)
    ensures ItemDepth(cs) <= bound <==> 0 <= bound && forall i :: 0 <= i < |cs| ==> 1 + Depth(cs[i]) <= bound
    decreases |cs|
  {
    if cs != [] {
      ItemDepthBound(cs[1..], bound);
      assert forall i :: 0 <= i < |cs| ==> cs[i] == cs[0] || (0 < i && cs[i] == cs[1..][i - 1]);
    }
  }

  /** Replacing an entry that is not too deep by its children loses no depth information. */
  lemma ShallowPush(stack: seq<Entry>, e: Entry, maxDepth: nat)
    requires e.depth <= maxDepth
    ensures Shallow(stack + [e], maxDepth) <==> Shallow(stack + Entries(Children(e.value), e.depth + 1), maxDepth)
  {
    var cs := Children(e.value);
    var es := Entries(cs, e.depth + 1);
    ChildrenMeasure(e.value);
    ItemDepthBound(cs, maxDepth - e.depth);
    assert (stack + [e])[|stack|] == e;
    assert forall i :: 0 <= i < |stack| ==> (stack + [e])[i] == (stack + es)[i] == stack[i];
    assert forall i :: 0 <= i < |es| ==> (stack + es)[|stack| + i] == es[i];
  }

  /** The walk accepts exactly the values within both limits, although it stops as soon as the entries
      still waiting already exceed the node limit. */
  method Bounded(value: Json, maxDepth: nat, maxNodes: nat) returns (ok: bool)
    ensures ok <==> WithinLimits(value, maxDepth, maxNodes)
  {
    var stack := [Entry(value, 0)];
    var nodes := 0;
    while stack != []
      invariant nodes + Pending(stack) == Nodes(value)
      invariant Shallow(stack, maxDepth) <==> Depth(value) <= maxDepth
      invariant stack == [] ==> nodes <= maxNodes
      decreases Pending(stack)
    {
      var top := stack[|stack| - 1];
      ghost var before := stack;
      stack := stack[..|stack| - 1];
      nodes := nodes + 1;
      PendingAtLeastLength(stack);
      assert before == stack + [top];
      if top.depth > maxDepth || nodes + |stack| > maxNodes {
        return false;
      }
      ChildrenMeasure(top.value);
      ShallowPush(stack, top, maxDepth);
      PendingPush(stack, Children(top.value), top.depth + 1);
      stack := stack + Entries(Children(top.value), top.depth + 1);
    }
    return true;
  }
}
