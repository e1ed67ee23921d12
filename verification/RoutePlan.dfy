/** `route_candidates`: the eligible providers in one canonical order, whatever the order of the registry. */
module RoutePlan {
  import opened Text

  datatype Provider = Provider(
    id: string, enabled: bool, models: map<string, string>, classifications: set<string>,
    costTier: int, sovereignty: int, priority: int, loopback: bool, weightPinned: set<string>, tokenPresent: bool)

  datatype PlanRequest = PlanRequest(model: string, required: Option<string>, classification: string, maxCostTier: int)

  datatype Candidate = Candidate(id: string, upstreamModel: string, sovereignty: int, priority: int, costTier: int,
                                 loopback: bool)

  predicate UniqueIds(registry: seq<Provider>) {
    forall i, j :: 0 <= i < j < |registry| ==> registry[i].id != registry[j].id
  }

  predicate Eligible(p: Provider, r: PlanRequest) {
    && (r.required.Some? ==> p.id == r.required.value)
    && p.enabled
    && r.model in p.models && p.models[r.model] != ""
    && r.classification in p.classifications
    && p.costTier <= r.maxCostTier
  }

  function CandidateOf(p: Provider, r: PlanRequest): Candidate
    requires r.model in p.models
  {
    Candidate(p.id, p.models[r.model], p.sovereignty, p.priority, p.costTier, p.loopback)
  }

  /** Higher sovereignty first, then lower priority number, lower cost, smaller id. */
  predicate Before(a: Candidate, b: Candidate) {
    || a.sovereignty > b.sovereignty
    || (a.sovereignty == b.sovereignty &&
        (|| a.priority < b.priority
         || (a.priority == b.priority &&
             (|| a.costTier < b.costTier
              || (a.costTier == b.costTier && LexLess(a.id, b.id))))))
  }

  lemma BeforeTotal(a: Candidate, b: Candidate)
    requires a.id != b.id
    ensures Before(a, b) || Before(b, a)
  {
    LexTotal(a.id, b.id);
  }

  lemma BeforeAsymmetric(a: Candidate, b: Candidate)
    requires Before(a, b)
    ensures !Before(b, a) && a != b
  {
    if LexLess(a.id, b.id) {
      LexAsymmetric(a.id, b.id);
    }
  }

  lemma BeforeTransitive(a: Candidate, b: Candidate, c: Candidate)
    requires Before(a, b) && Before(b, c)
    ensures Before(a, c)
  {
    if LexLess(a.id, b.id) && LexLess(b.id, c.id) {
      LexTransitive(a.id, b.id, c.id);
    }
  }

  predicate Sorted(cs: seq<Candidate>) { forall j, k :: 0 <= j < k < |cs| ==> Before(cs[j], cs[k]) }

  function Insert(c: Candidate, cs: seq<Candidate>): (r: seq<Candidate>)
    ensures |r| == |cs| + 1 && forall x :: x in r <==> x == c || x in cs
  {
    if cs == [] || Before(c, cs[0]) then [c] + cs else [cs[0]] + Insert(c, cs[1..])
  }

  /** `candidates.sort(key=...)` */
  function Sort(cs: seq<Candidate>): (r: seq<Candidate>)
    ensures |r| == |cs| && forall x :: x in r <==> x in cs
  {
    if cs == [] then [] else Insert(cs[0], Sort(cs[1..]))
  }

  predicate DistinctIds(cs: seq<Candidate>) { forall j, k :: 0 <= j < k < |cs| ==> cs[j].id != cs[k].id }

  lemma {:induction false} InsertSorted(c: Candidate, cs: seq<Candidate>)
    requires Sorted(cs) && forall x :: x in cs ==> x.id != c.id
    ensures Sorted(Insert(c, cs))
  {
    hide Before;
    if cs != [] {
      if Before(c, cs[0]) {
        forall k | 0 < k < |cs| ensures Before(c, cs[k]) { BeforeTransitive(c, cs[0], cs[k]); }
      } else {
        BeforeTotal(c, cs[0]);
        InsertSorted(c, cs[1..]);
        var rest := Insert(c, cs[1..]);
        forall k | 0 <= k < |rest| ensures Before(cs[0], rest[k]) {
          assert rest[k] in rest;
        }
      }
    }
  }

  lemma {:induction false} SortSorted(cs: seq<Candidate>)
    requires DistinctIds(cs)
    ensures Sorted(Sort(cs))
  {
    if cs != [] {
      SortSorted(cs[1..]);
      InsertSorted(cs[0], Sort(cs[1..]));
    }
  }

  /** There is only one sorted list of given candidates. */
  lemma {:induction false} SortedUnique(a: seq<Candidate>, b: seq<Candidate>)
    requires Sorted(a) && Sorted(b) && forall x :: x in a <==> x in b
    ensures a == b
  {
    hide Before;
    assert a != [] ==> a[0] in b;
    assert b != [] ==> b[0] in a;
    if a != [] {
      SameHead(a, b);
      forall x ensures x in a[1..] <==> x in b[1..] {
        TailMembership(a, x);
        TailMembership(b, x);
      }
      SortedUnique(a[1..], b[1..]);
    }
  }

  lemma SameHead(a: seq<Candidate>, b: seq<Candidate>)
    requires Sorted(a) && Sorted(b) && a != [] && b != [] && a[0] in b && b[0] in a
    ensures a[0] == b[0]
  {
    hide Before;
    if a[0] != b[0] {
      BeforeAsymmetric(b[0], a[0]);
    }
  }

  lemma TailMembership(a: seq<Candidate>, x: Candidate)
    requires Sorted(a) && a != []
    ensures x in a[1..] <==> x in a && x != a[0]
  {
    hide Before;
    if x in a[1..] {
      BeforeAsymmetric(a[0], x);
    }
  }

  // ----- the plan -----

  /** The candidates in registry order. */
  function Collect(registry: seq<Provider>, r: PlanRequest): (cs: seq<Candidate>)
    ensures forall x :: x in cs <==> exists p :: p in registry && Eligible(p, r) && x == CandidateOf(p, r)
  {
    if registry == [] then []
    else
      var cs := Collect(registry[..|registry| - 1], r);
      var p := registry[|registry| - 1];
      assert forall q :: q in registry <==> q in registry[..|registry| - 1] || q == p;
      if Eligible(p, r) then cs + [CandidateOf(p, r)] else cs
  }

  function Plan(registry: seq<Provider>, r: PlanRequest): seq<Candidate> { Sort(Collect(registry, r)) }

  lemma {:induction false} CollectDistinct(registry: seq<Provider>, r: PlanRequest)
    requires UniqueIds(registry)
    ensures DistinctIds(Collect(registry, r))
  {
    if registry != [] {
      var front := registry[..|registry| - 1];
      CollectDistinct(front, r);
      forall x | x in Collect(front, r) ensures x.id != registry[|registry| - 1].id {
        var p :| p in front && Eligible(p, r) && x == CandidateOf(p, r);
      }
    }
  }

  /** The plan is the one sorted list of exactly the eligible providers. */
  lemma PlanExact(registry: seq<Provider>, r: PlanRequest)
    requires UniqueIds(registry)
    ensures Sorted(Plan(registry, r))
    ensures forall x ::
              x in Plan(registry, r) <==> exists p :: p in registry && Eligible(p, r) && x == CandidateOf(p, r)
  {
    hide Eligible, CandidateOf;
    CollectDistinct(registry, r);
    SortSorted(Collect(registry, r));
  }

  /** No provider appears twice in a plan. */
  lemma PlanDistinct(registry: seq<Provider>, r: PlanRequest)
    requires UniqueIds(registry)
    ensures DistinctIds(Plan(registry, r))
  {
    hide Before;
    var collected, plan := Collect(registry, r), Plan(registry, r);
    CollectDistinct(registry, r);
    PlanExact(registry, r);
    forall j, k | 0 <= j < k < |plan| ensures plan[j].id != plan[k].id {
      BeforeAsymmetric(plan[j], plan[k]);
      assert plan[j] in collected && plan[k] in collected;
    }
  }

  /** Registries with the same providers, in any order, give the same plan. */
  lemma PlanCanonical(a: seq<Provider>, b: seq<Provider>, r: PlanRequest)
    requires UniqueIds(a) && UniqueIds(b) && multiset(a) == multiset(b)
    ensures Plan(a, r) == Plan(b, r)
  {
    hide Plan, Eligible, CandidateOf;
    PlanExact(a, r);
    PlanExact(b, r);
    assert forall p :: p in a <==> p in multiset(a);
    assert forall p :: p in b <==> p in multiset(b);
    SortedUnique(Plan(a, r), Plan(b, r));
  }

  /** `route_candidates`: the loop, then the sort. */
  method RouteCandidates(registry: seq<Provider>, r: PlanRequest) returns (candidates: seq<Candidate>)
    ensures candidates == Plan(registry, r)
  {
    candidates := [];
    var i := 0;
    while i < |registry|
      invariant 0 <= i <= |registry| && candidates == Collect(registry[..i], r)
    {
      var p := registry[i];
      assert registry[..i + 1][..i] == registry[..i];
      i := i + 1;
      if r.required.Some? && p.id != r.required.value {
        continue;
      }
      if !p.enabled || r.model !in p.models || p.models[r.model] == "" {
        continue;
      }
      if r.classification !in p.classifications {
        continue;
      }
      if p.costTier > r.maxCostTier {
        continue;
      }
      candidates := candidates + [CandidateOf(p, r)];
    }
    assert registry[..i] == registry;
    candidates := Sort(candidates);
  }

  /** `provider_by_id` */
  function ById(registry: seq<Provider>, id: string): Option<Provider> {
    if registry == [] then None
    else if registry[0].id == id then Some(registry[0]) else ById(registry[1..], id)
  }

  lemma {:induction false} ByIdFinds(registry: seq<Provider>, p: Provider)
    requires UniqueIds(registry) && p in registry
    ensures ById(registry, p.id) == Some(p)
  {
    if registry[0] != p {
      assert p in registry[1..];
      ByIdFinds(registry[1..], p);
    }
  }

  /** Looking a candidate's provider up again finds the eligible provider it was made from. */
  lemma CandidateProvider(registry: seq<Provider>, r: PlanRequest, c: Candidate)
    requires UniqueIds(registry) && c in Plan(registry, r)
    ensures ById(registry, c.id).Some?
    ensures Eligible(ById(registry, c.id).value, r) && CandidateOf(ById(registry, c.id).value, r) == c
  {
    PlanExact(registry, r);
    var p :| p in registry && Eligible(p, r) && c == CandidateOf(p, r);
    ByIdFinds(registry, p);
  }
}
