/** `embed` with its exact-hash cache, against the same failover chain without one. */
module EmbeddingCache {
  import opened Text
  import opened Json
  import opened JsonCanonical
  import opened EmbeddingBatch
  import Receipt

  /** A provider with its endpoint and credential frozen for one call. */
  datatype Provider = Provider(
    name: string, keyEnv: string, sovereign: bool, energySource: string,
    enabled: bool, url: string, key: Option<string>)
  {
    predicate Available() { enabled && url != "" && (keyEnv != "" ==> key.Some?) }
  }

  datatype Route = Route(slot: string, model: string, provider: Option<Provider>)

  /** What the environment and the registry say when a call starts. */
  datatype Config = Config(routes: seq<Route>, namespace: string, callerScope: string)

  /** One request after validation: its JSON values detached from the caller's. */
  datatype Request = Request(model: string, input: Json, extra: seq<Member>)

  /** Everything that identifies one dispatch. */
  datatype Lookup = Lookup(request: Request, upstreamModel: string, provider: Provider, namespace: string,
                           callerScope: string, slot: string)

  /** The served response with its provenance. */
  datatype Answer = Answer(
    result: Json, servedBy: string, provider: string, model: string, baseUrl: string,
    sovereign: bool, energySource: string, tier: string)

  // ----- the request, detached -----

  predicate IsCanonical(j: Json) { Valid(j) && Canon(j) == j }

  predicate Detached(r: Request) {
    && IsCanonical(r.input) && Sorted(r.extra)
    && forall i :: 0 <= i < |r.extra| ==>
        IsCanonical(r.extra[i].value) && r.extra[i].key != "model" && r.extra[i].key != "input"
  }

  predicate Overrides(extra: seq<Member>) { exists i :: 0 <= i < |extra| && extra[i].key in {"model", "input"} }

  function Detach(model: string, input: Json, extra: seq<Member>): Request {
    Request(model, Canon(input), SortMembers(CanonMembers(extra)))
  }

  lemma DetachDetaches(model: string, input: Json, extra: seq<Member>)
    requires Valid(input) && Valid(Obj(extra)) && !Overrides(extra)
    ensures Detached(Detach(model, input, extra))
  {
    CanonValid(input);
    CanonIdempotent(input);
    var ms := CanonMembers(extra);
    SortMembersSorted(ms);
    forall i | 0 <= i < |SortMembers(ms)|
      ensures IsCanonical(SortMembers(ms)[i].value) && SortMembers(ms)[i].key !in {"model", "input"}
    {
      var m := SortMembers(ms)[i];
      assert m in ms;
      var k :| 0 <= k < |ms| && ms[k] == m;
      CanonValid(extra[k].value);
      CanonIdempotent(extra[k].value);
    }
  }

  /** Detaching is what printing canonically and parsing again does to the request. */
  lemma DetachIsReparse(model: string, input: Json, extra: seq<Member>)
    requires Valid(input) && Valid(Obj(extra))
    ensures var r := Detach(model, input, extra);
            Parse(Canonical(Obj([Member("input", input), Member("extra", Obj(extra))]), true))
            == Some(Obj([Member("extra", Obj(r.extra)), Member("input", r.input)]))
  {
    var j := Obj([Member("input", input), Member("extra", Obj(extra))]);
    var r := Detach(model, input, extra);
    ReparseCanonical(j, true);
    hide Canonical, Parse, Valid, SortMembers, SameValue;
    assert CanonMembers(j.members) == [Member("input", r.input), Member("extra", Obj(r.extra))];
    SortTwo(Member("input", r.input), Member("extra", Obj(r.extra))) by { assert !LexLess("input", "extra"); }
  }

  lemma SortTwo(x: Member, y: Member)
    requires !LexLess(x.key, y.key)
    ensures SortMembers([x, y]) == [y, x]
  {
    assert [x, y][1..] == [y] && [y][1..] == [];
    assert SortMembers([y]) == [y];
    assert Insert(x, [y]) == [y, x];
  }

  function Payload(l: Lookup): seq<Member> {
    [Member("model", Str(l.upstreamModel)), Member("input", l.request.input)] + l.request.extra
  }

  lemma PayloadValid(l: Lookup)
    requires Detached(l.request)
    ensures Valid(Obj(Payload(l))) && CanonMembers(Payload(l)) == Payload(l)
  {
    var p := Payload(l);
    SortedHasUniqueKeys(l.request.extra);
    forall i | 0 <= i < |p| ensures IsCanonical(p[i].value) {
      if i >= 2 { assert p[i] == l.request.extra[i - 2]; }
    }
    forall i, j | 0 <= i < j < |p| ensures p[i].key != p[j].key {
      if i >= 2 { assert p[i] == l.request.extra[i - 2]; }
      if j >= 2 { assert p[j] == l.request.extra[j - 2]; }
    }
  }

  /** Equal payload values are equal payloads, member for member. */
  lemma SamePayload(a: Lookup, b: Lookup)
    requires Detached(a.request) && Detached(b.request) && SameValue(Obj(Payload(a)), Obj(Payload(b)))
    ensures Payload(a) == Payload(b) && a.upstreamModel == b.upstreamModel
  {
    var p, q := Payload(a), Payload(b);
    PayloadValid(a);
    PayloadValid(b);
    SameCanon(Obj(p), Obj(q));
    assert forall m :: m in p <==> m in SortMembers(p);
    assert forall m :: m in q <==> m in SortMembers(q);
    hide SameValue, Canon, CanonMembers, SortMembers;
    SameParts(a, b);
    SortedUnique(a.request.extra, b.request.extra);
  }

  lemma SameParts(a: Lookup, b: Lookup)
    requires Detached(a.request) && Detached(b.request) && forall m :: m in Payload(a) <==> m in Payload(b)
    ensures a.upstreamModel == b.upstreamModel && a.request.input == b.request.input
    ensures forall m :: m in a.request.extra <==> m in b.request.extra
  {
    var p, q := Payload(a), Payload(b);
    hide IsCanonical, Sorted;
    assert p[0] in q && p[1] in q;
    forall m | m in a.request.extra ensures m in b.request.extra {
      assert m in p;
    }
    forall m | m in b.request.extra ensures m in a.request.extra {
      assert m in q;
    }
  }

  // ----- the key -----

  type Hash = Receipt.Hash

  function KeyJson(key: Option<string>): Json { match key case Some(k) => Str(k) case None => Null }

  function AuthJson(l: Lookup): Json { Arr([KeyJson(l.provider.key), Str(l.callerScope)]) }

  function AuthText(l: Lookup): string { Canonical(AuthJson(l), true) }

  function RouteIdentity(l: Lookup): seq<Member> {
    [ Member("slot", Str(l.slot)), Member("provider", Str(l.provider.name)), Member("base_url", Str(l.provider.url)),
      Member("key_env", Str(l.provider.keyEnv)), Member("sovereign", Bool(l.provider.sovereign)),
      Member("energy_source", Str(l.provider.energySource)) ]
  }

  function Identity(mac: Hash, l: Lookup): seq<Member> {
    [ Member("schema", Str("szl-embedding-cache/v2")), Member("logical_model", Str(l.request.model)),
      Member("payload", Obj(Payload(l))), Member("namespace", Str(l.namespace)),
      Member("auth_scope", Str(mac(AuthText(l)))), Member("route", Obj(RouteIdentity(l))) ]
  }

  function IdentityText(mac: Hash, l: Lookup): string { Canonical(Obj(Identity(mac, l)), true) }

  /** `_embed_cache_key` */
  function CacheKey(h: Hash, mac: Hash, l: Lookup): Receipt.Digest { h(IdentityText(mac, l)) }

  lemma IdentityValid(mac: Hash, l: Lookup)
    requires Detached(l.request)
    ensures Valid(Obj(Identity(mac, l))) && Valid(Obj(RouteIdentity(l)))
  {
    PayloadValid(l);
    RouteValid(l);
    hide Payload, AuthText, RouteIdentity;
    var ms := Identity(mac, l);
    forall i | 0 <= i < |ms| ensures Valid(ms[i].value) {
      hide Valid;
      IdentityValue(mac, l, i);
    }
    assert ms[0].key[0] == 's' && ms[1].key[0] == 'l' && ms[2].key[0] == 'p';
    assert ms[3].key[0] == 'n' && ms[4].key[0] == 'a' && ms[5].key[0] == 'r';
    assert forall i, j :: 0 <= i < j < 6 ==> ms[i].key[0] != ms[j].key[0];
  }

  lemma IdentityValue(mac: Hash, l: Lookup, i: nat)
    requires i < 6 && Valid(Obj(Payload(l))) && Valid(Obj(RouteIdentity(l)))
    ensures Valid(Identity(mac, l)[i].value)
  {
    hide Payload, AuthText, RouteIdentity;
  }

  lemma RouteValid(l: Lookup)
    ensures Valid(Obj(RouteIdentity(l)))
  {
    var ms := RouteIdentity(l);
    assert ms[0].key == "slot" && ms[1].key[0] == 'p' && ms[2].key[0] == 'b';
    assert ms[3].key[0] == 'k' && |ms[4].key| == 9 && ms[4].key[0] == 's' && ms[5].key[0] == 'e';
  }

  /** The same dispatch: same route, endpoint, credential and payload, for the same caller scope. */
  predicate SameDispatch(a: Lookup, b: Lookup) {
    && Payload(a) == Payload(b) && a.upstreamModel == b.upstreamModel && a.slot == b.slot
    && a.provider == b.provider.(enabled := a.provider.enabled)
    && a.request.model == b.request.model && a.namespace == b.namespace && a.callerScope == b.callerScope
  }

  lemma SameAt(x: seq<Member>, y: seq<Member>, i: nat)
    requires SameValue(Obj(x), Obj(y)) && i < |x| && i < |y| && x[i].key == y[i].key
    ensures SameValue(x[i].value, y[i].value)
  {
  }

  lemma SameRoute(a: Lookup, b: Lookup)
    requires SameValue(Obj(RouteIdentity(a)), Obj(RouteIdentity(b)))
    ensures a.slot == b.slot && a.provider.name == b.provider.name && a.provider.url == b.provider.url
    ensures a.provider.keyEnv == b.provider.keyEnv && a.provider.sovereign == b.provider.sovereign
    ensures a.provider.energySource == b.provider.energySource
  {
    var x, y := RouteIdentity(a), RouteIdentity(b);
    SameAt(x, y, 0);
    SameAt(x, y, 1);
    SameAt(x, y, 2);
    SameAt(x, y, 3);
    SameAt(x, y, 4);
    SameAt(x, y, 5);
  }

  lemma SameAuth(a: Lookup, b: Lookup)
    requires AuthText(a) == AuthText(b)
    ensures a.provider.key == b.provider.key && a.callerScope == b.callerScope
  {
    CanonicalIff(AuthJson(a), AuthJson(b), true);
    var x, y := AuthJson(a).items, AuthJson(b).items;
    assert SameValue(x[0], y[0]) && SameValue(x[1], y[1]);
  }

  /** Equal keys are the same dispatch, unless the hash or the MAC collides on these two lookups. */
  lemma KeyBinds(h: Hash, mac: Hash, a: Lookup, b: Lookup)
    requires Detached(a.request) && Detached(b.request) && CacheKey(h, mac, a) == CacheKey(h, mac, b)
    ensures || SameDispatch(a, b)
            || Receipt.Collide(h, IdentityText(mac, a), IdentityText(mac, b))
            || Receipt.Collide(mac, AuthText(a), AuthText(b))
  {
    if IdentityText(mac, a) == IdentityText(mac, b) {
      IdentityBinds(mac, a, b);
      if AuthText(a) == AuthText(b) {
        SameAuth(a, b);
      }
    }
  }

  lemma IdentityBinds(mac: Hash, a: Lookup, b: Lookup)
    requires Detached(a.request) && Detached(b.request) && IdentityText(mac, a) == IdentityText(mac, b)
    ensures Payload(a) == Payload(b) && a.upstreamModel == b.upstreamModel
    ensures a.request.model == b.request.model && a.namespace == b.namespace && mac(AuthText(a)) == mac(AuthText(b))
    ensures a.slot == b.slot && a.provider == b.provider.(enabled := a.provider.enabled, key := a.provider.key)
  {
    hide Payload, AuthText, RouteIdentity, Canonical, Valid, Detached;
    IdentityValid(mac, a);
    IdentityValid(mac, b);
    var x, y := Identity(mac, a), Identity(mac, b);
    CanonicalIff(Obj(x), Obj(y), true);
    SameIdentity(mac, a, b);
    SamePayload(a, b);
    SameRoute(a, b);
  }

  lemma SameIdentity(mac: Hash, a: Lookup, b: Lookup)
    requires SameValue(Obj(Identity(mac, a)), Obj(Identity(mac, b)))
    ensures a.request.model == b.request.model && a.namespace == b.namespace && mac(AuthText(a)) == mac(AuthText(b))
    ensures SameValue(Obj(Payload(a)), Obj(Payload(b))) && SameValue(Obj(RouteIdentity(a)), Obj(RouteIdentity(b)))
  {
    hide Payload, AuthText, RouteIdentity;
    var x, y := Identity(mac, a), Identity(mac, b);
    SameAt(x, y, 1);
    SameAt(x, y, 2);
    SameAt(x, y, 3);
    SameAt(x, y, 4);
    SameAt(x, y, 5);
  }

  // ----- the chain without a cache -----

  predicate Dispatchable(r: Route) { r.provider.Some? && r.provider.value.Available() && r.provider.value.sovereign }

  function LookupAt(cfg: Config, req: Request, i: nat): Lookup
    requires i < |cfg.routes| && cfg.routes[i].provider.Some?
  {
    var r := cfg.routes[i];
    Lookup(req, r.model, r.provider.value, cfg.namespace, cfg.callerScope, r.slot)
  }

  function AnswerOf(l: Lookup, result: Json): Answer {
    Answer(result, l.slot + ":" + l.upstreamModel, l.slot, l.upstreamModel, l.provider.url,
           l.provider.sovereign, l.provider.energySource, "sovereign")
  }

  const CACHE_MARK := ":cache"

  function Marked(a: Answer): Answer {
    if |a.servedBy| >= |CACHE_MARK| && a.servedBy[|a.servedBy| - |CACHE_MARK|..] == CACHE_MARK then a
    else a.(servedBy := a.servedBy + CACHE_MARK)
  }

  /** Upstreams: a fixed partial function from endpoint, credential and payload to a response. */
  type Upstream = (string, Option<string>, Json) -> Option<Json>

  /** What dispatching `l` answers, if it serves. */
  ghost function Serve(upstream: Upstream, finite: Json -> bool, l: Lookup): Option<Answer> {
    match upstream(l.provider.url, l.provider.key, Obj(Payload(l)))
    case Some(result) => if Complete(result, Payload(l), finite) then Some(AnswerOf(l, result)) else None
    case None => None
  }

  datatype Served = Served(route: nat, answer: Answer)

  /** The first route from `i` on that serves. */
  ghost function First(upstream: Upstream, finite: Json -> bool, cfg: Config, req: Request, i: nat): Option<Served>
    requires i <= |cfg.routes|
    decreases |cfg.routes| - i
  {
    if i == |cfg.routes| then None
    else if Dispatchable(cfg.routes[i]) && Serve(upstream, finite, LookupAt(cfg, req, i)).Some? then
      Some(Served(i, Serve(upstream, finite, LookupAt(cfg, req, i)).value))
    else First(upstream, finite, cfg, req, i + 1)
  }

  /** The labels of a served answer: the route it came from, whose provider is sovereign, and the response to
      exactly the request's payload at that provider's endpoint. */
  lemma ServedExact(upstream: Upstream, finite: Json -> bool, cfg: Config, req: Request, i: nat)
    requires i < |cfg.routes| && Dispatchable(cfg.routes[i])
    requires Serve(upstream, finite, LookupAt(cfg, req, i)).Some?
    ensures var a := Serve(upstream, finite, LookupAt(cfg, req, i)).value;
            var slot, model, p := cfg.routes[i].slot, cfg.routes[i].model, cfg.routes[i].provider.value;
            && upstream(p.url, p.key, Obj([Member("model", Str(model)), Member("input", req.input)] + req.extra))
               == Some(a.result)
            && a.servedBy == slot + ":" + model && a.provider == slot && a.model == model && a.baseUrl == p.url
            && a.sovereign && p.sovereign && a.energySource == p.energySource && a.tier == "sovereign"
    ensures var a := Serve(upstream, finite, LookupAt(cfg, req, i)).value;
            && Marked(a) == a.(servedBy := Marked(a).servedBy) && |Marked(a).servedBy| >= 6
            && Marked(a).servedBy[|Marked(a).servedBy| - 6..] == ":cache"
            && Marked(a).servedBy in {a.servedBy, a.servedBy + ":cache"}
            && (|a.servedBy| >= 6 && a.servedBy[|a.servedBy| - 6..] == ":cache" ==> Marked(a) == a)
  {
    hide Complete;
  }

  datatype Row = Unavailable | NotSovereign | Failed | BadVectors | Ok

  /** The route's provider is known and enabled, and has an endpoint and the key it needs, if it needs one. */
  predicate Armed(r: Route) {
    r.provider.Some? && r.provider.value.enabled && |r.provider.value.url| > 0
    && !(|r.provider.value.keyEnv| > 0 && r.provider.value.key == None)
  }

  /** Row `i` of the trail tells what happened to route `i`. */
  ghost predicate RowFits(upstream: Upstream, finite: Json -> bool, cfg: Config, req: Request, i: nat, row: Row)
    requires i < |cfg.routes|
  {
    var r := cfg.routes[i];
    match row
    case Unavailable => !Armed(r)
    case NotSovereign => Armed(r) && !r.provider.value.sovereign
    case Failed =>
      && Dispatchable(r) && Armed(r)
      && upstream(r.provider.value.url, r.provider.value.key, Obj(Payload(LookupAt(cfg, req, i)))).None?
    case BadVectors => Dispatchable(r) && Armed(r) && Serve(upstream, finite, LookupAt(cfg, req, i)).None?
    case Ok => Dispatchable(r) && Armed(r) && Serve(upstream, finite, LookupAt(cfg, req, i)).Some?
  }

  lemma SameServe(upstream: Upstream, finite: Json -> bool, a: Lookup, b: Lookup)
    requires SameDispatch(a, b)
    ensures Serve(upstream, finite, a) == Serve(upstream, finite, b)
  {
    hide Payload, Complete;
  }

  // ----- the table -----

  type Table = map<Receipt.Digest, (real, Answer)>

  /** How `embed` ends; `Raised` is the exception of `min` on an empty table. */
  datatype Reply =
    | Answered(answer: Answer, hit: bool, attempts: seq<Row>)
    | RouterError(attempts: seq<Row>)
    | Rejected
    | Raised(attempts: seq<Row>)

  predicate IsOldest(t: Table, k: Receipt.Digest) { k in t && forall j :: j in t ==> t[k].0 <= t[j].0 }

  lemma OldestIn(t: Table, k: Receipt.Digest)
    requires IsOldest(t, k)
    ensures k in t
  {
  }

  lemma OldestExists(t: Table) returns (k: Receipt.Digest)
    requires t != map[]
    ensures IsOldest(t, k)
    decreases |t|
  {
    k :| k in t;
    var rest := t - {k};
    if rest != map[] {
      assert rest.Keys == t.Keys - {k};
      var m := OldestExists(rest);
      assert forall j :: j in t ==> j == k || j in rest;
      if t[m].0 <= t[k].0 {
        k := m;
      }
    } else {
      assert forall j :: j in t ==> j == k || j in rest;
    }
  }

  /** Two lookups, of those ever made, whose different texts hash alike. */
  ghost predicate Collided(h: Hash, mac: Hash, looked: set<Lookup>) {
    exists a, b :: a in looked && b in looked
      && (|| Receipt.Collide(h, IdentityText(mac, a), IdentityText(mac, b))
          || Receipt.Collide(mac, AuthText(a), AuthText(b)))
  }

  /** What stays fixed while the process runs. */
  datatype Setup = Setup(h: Hash, mac: Hash, ttl: real, max: int, upstream: Upstream, finite: Json -> bool)

  type Origins = map<Receipt.Digest, Lookup>

  ghost predicate Fits(e: Setup, k: Receipt.Digest, l: Lookup, a: Answer) {
    Detached(l.request) && k == CacheKey(e.h, e.mac, l) && Serve(e.upstream, e.finite, l) == Some(a)
  }

  function Capacity(max: int): nat { if max > 0 then max else 0 }

  /** Every entry is what its own lookup would be served by the upstream, under that lookup's key, and
      the table is within its bound. */
  ghost predicate GoodTable(e: Setup, t: Table, origin: Origins, looked: set<Lookup>) {
    && t.Keys == origin.Keys && |t| <= Capacity(e.max)
    && (forall k :: k in t ==> Fits(e, k, origin[k], t[k].1) && origin[k] in looked)
  }

  lemma FitsServed(e: Setup, l: Lookup, a: Answer)
    requires Detached(l.request) && Serve(e.upstream, e.finite, l) == Some(a)
    ensures Fits(e, CacheKey(e.h, e.mac, l), l, a)
  {
  }

  lemma ClearGood(e: Setup, t: Table, origin: Origins, looked: set<Lookup>)
    requires GoodTable(e, t, origin, looked)
    ensures GoodTable(e, map[], map[], looked)
  {
  }

  /** A hit is what the upstream would serve for this very lookup, or two looked-up texts collide. */
  lemma HitServes(e: Setup, t: Table, origin: Origins, looked: set<Lookup>, l: Lookup)
    requires GoodTable(e, t, origin, looked) && l in looked && Detached(l.request) && CacheKey(e.h, e.mac, l) in t
    ensures Serve(e.upstream, e.finite, l) == Some(t[CacheKey(e.h, e.mac, l)].1) || Collided(e.h, e.mac, looked)
  {
    hide Detached, Serve, IdentityText, AuthText, SameDispatch, Receipt.Collide;
    var k := CacheKey(e.h, e.mac, l);
    assert Fits(e, k, origin[k], t[k].1);
    KeyBinds(e.h, e.mac, l, origin[k]);
    if SameDispatch(l, origin[k]) {
      SameServe(e.upstream, e.finite, l, origin[k]);
    }
  }

  lemma GoodSize(e: Setup, t: Table, origin: Origins, looked: set<Lookup>)
    requires GoodTable(e, t, origin, looked)
    ensures |t| <= Capacity(e.max) && (t == map[] <==> |t| == 0)
  {
  }

  lemma DropGood(e: Setup, t: Table, origin: Origins, looked: set<Lookup>, k: Receipt.Digest)
    requires GoodTable(e, t, origin, looked)
    ensures GoodTable(e, t - {k}, origin - {k}, looked)
    ensures |t - {k}| == if k in t then |t| - 1 else |t|
    ensures k !in t ==> t - {k} == t && origin - {k} == origin
  {
    hide Fits, Capacity;
    assert (t - {k}).Keys == t.Keys - {k} && (origin - {k}).Keys == origin.Keys - {k};
    assert k !in t ==> t.Keys - {k} == t.Keys;
  }

  lemma AddGood(e: Setup, t: Table, origin: Origins, looked: set<Lookup>, k: Receipt.Digest, now: real, l: Lookup,
                a: Answer)
    requires GoodTable(e, t, origin, looked) && Fits(e, k, l, a) && l in looked
    requires k in t || |t| < Capacity(e.max)
    ensures GoodTable(e, t[k := (now, a)], origin[k := l], looked)
  {
    hide Fits, Capacity;
    var t' := t[k := (now, a)];
    assert t'.Keys == t.Keys + {k} && origin[k := l].Keys == origin.Keys + {k};
    assert k in t ==> t.Keys + {k} == t.Keys;
  }

  /** What a turn of the loop comes to; `Broken` served, but storing the answer raised. */
  datatype Turn = Miss(row: Row) | Fresh(answer: Answer) | Hit(answer: Answer) | Broken(answer: Answer)

  ghost function FirstFrom(e: Setup, cfg: Config, req: Request, i: nat): Option<Served>
    requires i <= |cfg.routes|
  {
    First(e.upstream, e.finite, cfg, req, i)
  }

  ghost predicate RowsFit(e: Setup, cfg: Config, req: Request, rows: seq<Row>) {
    |rows| <= |cfg.routes| && forall k :: 0 <= k < |rows| ==> RowFits(e.upstream, e.finite, cfg, req, k, rows[k])
  }

  /** The reply is that of the chain without a cache: the first route that serves, or none. */
  ghost predicate Transparent(e: Setup, cfg: Config, req: Request, useCache: bool, r: Reply) {
    var first := FirstFrom(e, cfg, req, 0);
    match r
    case Answered(a, hit, rows) =>
      && first.Some? && a == (if hit then Marked(first.value.answer) else first.value.answer)
      && |rows| == first.value.route + (if hit then 0 else 1)
      && (hit ==> useCache)
    case RouterError(_) => first.None?
    case Raised(rows) => useCache && e.max < 1 && first.Some? && |rows| == first.value.route + 1
    case Rejected => false
  }

  /** One true row for each route before the one that answered; a hit adds none of its own. */
  ghost predicate TrailFits(e: Setup, cfg: Config, req: Request, r: Reply) {
    match r
    case Answered(_, hit, rows) =>
      RowsFit(e, cfg, req, rows) && forall k :: 0 <= k < |rows| ==> (rows[k] == Ok <==> !hit && k == |rows| - 1)
    case RouterError(rows) => RowsFit(e, cfg, req, rows) && |rows| == |cfg.routes| && Ok !in rows
    case Raised(rows) => RowsFit(e, cfg, req, rows)
    case Rejected => true
  }

  lemma MissIsSkipped(e: Setup, cfg: Config, req: Request, i: nat, row: Row)
    requires i < |cfg.routes| && RowFits(e.upstream, e.finite, cfg, req, i, row) && row != Ok
    ensures FirstFrom(e, cfg, req, i) == FirstFrom(e, cfg, req, i + 1)
  {
    hide Complete, Payload;
  }

  ghost predicate ServesAt(e: Setup, cfg: Config, req: Request, i: nat, a: Answer)
    requires i < |cfg.routes|
  {
    Dispatchable(cfg.routes[i]) && Serve(e.upstream, e.finite, LookupAt(cfg, req, i)) == Some(a)
  }

  /** What one turn of the loop found out about route `i`. */
  ghost predicate TurnFits(e: Setup, looked: set<Lookup>, cfg: Config, req: Request, i: nat, useCache: bool, t: Turn)
    requires i < |cfg.routes|
  {
    match t
    case Miss(row) => RowFits(e.upstream, e.finite, cfg, req, i, row) && row != Ok
    case Fresh(a) => ServesAt(e, cfg, req, i, a)
    case Hit(cached) => useCache && (ServesAt(e, cfg, req, i, cached) || Collided(e.h, e.mac, looked))
    case Broken(a) => useCache && e.max < 1 && ServesAt(e, cfg, req, i, a)
  }

  /** The reply a turn that is no miss leads to, after rows `rows`. */
  function ReplyOf(t: Turn, rows: seq<Row>): Reply
    requires !t.Miss?
  {
    match t
    case Fresh(a) => Answered(a, false, rows + [Ok])
    case Hit(cached) => Answered(Marked(cached), true, rows)
    case Broken(a) => Raised(rows + [Ok])
  }

  /** The loop is at route `i`: every earlier route was passed over. */
  ghost predicate Passed(e: Setup, cfg: Config, req: Request, i: nat, rows: seq<Row>) {
    && i <= |cfg.routes| && |rows| == i && RowsFit(e, cfg, req, rows) && Ok !in rows
    && FirstFrom(e, cfg, req, 0) == FirstFrom(e, cfg, req, i)
  }

  lemma PassOn(e: Setup, looked: set<Lookup>, cfg: Config, req: Request, i: nat, rows: seq<Row>, useCache: bool,
               t: Turn)
    requires Passed(e, cfg, req, i, rows) && i < |cfg.routes| && TurnFits(e, looked, cfg, req, i, useCache, t)
    requires t.Miss?
    ensures Passed(e, cfg, req, i + 1, rows + [t.row])
  {
    hide Serve, Collided, First;
    MissIsSkipped(e, cfg, req, i, t.row);
    hide RowFits, FirstFrom;
  }

  lemma Settle(e: Setup, looked: set<Lookup>, cfg: Config, req: Request, i: nat, rows: seq<Row>, useCache: bool,
               t: Turn)
    requires Passed(e, cfg, req, i, rows) && i < |cfg.routes| && TurnFits(e, looked, cfg, req, i, useCache, t)
    requires !t.Miss?
    ensures Transparent(e, cfg, req, useCache, ReplyOf(t, rows)) || (useCache && Collided(e.h, e.mac, looked))
    ensures TrailFits(e, cfg, req, ReplyOf(t, rows)) && !ReplyOf(t, rows).Rejected?
  {
    SettleTrail(e, looked, cfg, req, i, rows, useCache, t);
    hide RowsFit, Marked, Serve, Collided, TrailFits;
    if ServesAt(e, cfg, req, i, t.answer) {
      assert FirstFrom(e, cfg, req, i) == Some(Served(i, t.answer));
    }
  }

  lemma SettleHit(e: Setup, table: Table, cfg: Config, req: Request, i: nat, rows: seq<Row>, t: Turn, now: real)
    requires Passed(e, cfg, req, i, rows) && i < |cfg.routes| && !t.Miss?
    requires t.Hit? ==> Dispatchable(cfg.routes[i]) && HeldYoung(e, table, LookupAt(cfg, req, i), t.answer, now)
    ensures HitYoung(e, table, cfg, req, ReplyOf(t, rows), now)
  {
    hide CacheKey, Dispatchable, Marked, RowsFit, FirstFrom;
  }

  lemma SettleTrail(e: Setup, looked: set<Lookup>, cfg: Config, req: Request, i: nat, rows: seq<Row>, useCache: bool,
                    t: Turn)
    requires Passed(e, cfg, req, i, rows) && i < |cfg.routes| && TurnFits(e, looked, cfg, req, i, useCache, t)
    requires !t.Miss?
    ensures TrailFits(e, cfg, req, ReplyOf(t, rows))
  {
    hide First, Marked, Collided, Serve, LookupAt;
    if !t.Hit? {
      assert RowFits(e.upstream, e.finite, cfg, req, i, Ok);
      hide RowFits;
      assert RowsFit(e, cfg, req, rows + [Ok]);
    }
  }

  /** No entry was stored in the future. */
  ghost predicate Past(t: Table, now: real) { forall k :: k in t ==> t[k].0 <= now }

  /** The table holds `cached` for this lookup, not expired at time `now`. */
  predicate HeldYoung(e: Setup, t: Table, l: Lookup, cached: Answer, now: real) {
    var k := CacheKey(e.h, e.mac, l);
    k in t && t[k].1 == cached && 0.0 <= now - t[k].0 < e.ttl
  }

  /** A hit was on the route right after those in the trail, and at time `now` its entry has not expired. */
  predicate HitYoung(e: Setup, t: Table, cfg: Config, req: Request, r: Reply, now: real) {
    r.Answered? && r.hit ==>
      && |r.attempts| < |cfg.routes| && Dispatchable(cfg.routes[|r.attempts|])
      && var k := CacheKey(e.h, e.mac, LookupAt(cfg, req, |r.attempts|));
      k in t && r.answer == Marked(t[k].1) && 0.0 <= now - t[k].0 < e.ttl
  }

  // ----- the lookups behind a reply -----

  /** One lookup of this call: its key, and the table and the clock at that moment. */
  datatype Read = Read(key: Receipt.Digest, table: Table, now: real)

  /** The table held an entry for the key, younger than the lifetime. */
  predicate Current(e: Setup, r: Read) { r.key in r.table && r.now - r.table[r.key].0 < e.ttl }

  /** The lookup of one turn: the table is asked once, for a route that may be dispatched and only if the cache
      is in use, and the turn is a hit exactly if an unexpired entry is there. */
  ghost predicate TurnLooks(e: Setup, cfg: Config, req: Request, i: nat, useCache: bool, own: seq<Read>, t: Turn)
    requires i < |cfg.routes|
  {
    if useCache && Dispatchable(cfg.routes[i]) then
      && |own| == 1 && own[0].key == CacheKey(e.h, e.mac, LookupAt(cfg, req, i))
      && (t.Hit? <==> Current(e, own[0])) && (t.Hit? ==> t.answer == own[0].table[own[0].key].1)
    else own == [] && !t.Hit?
  }

  /** A served answer is in the table, stored just now. */
  predicate TurnStores(e: Setup, cfg: Config, req: Request, i: nat, useCache: bool, table: Table, now: real, t: Turn)
    requires i < |cfg.routes|
  {
    t.Fresh? && useCache && e.max >= 1 ==>
      && Dispatchable(cfg.routes[i])
      && var k := CacheKey(e.h, e.mac, LookupAt(cfg, req, i));
      k in table && table[k] == (now, t.answer)
  }

  /** The keys of the routes before `n` that may be dispatched, in order. */
  ghost function Keys(e: Setup, cfg: Config, req: Request, n: nat): seq<Receipt.Digest>
    requires n <= |cfg.routes|
  {
    if n == 0 then []
    else Keys(e, cfg, req, n - 1) + if Dispatchable(cfg.routes[n - 1])
                                    then [CacheKey(e.h, e.mac, LookupAt(cfg, req, n - 1))] else []
  }

  ghost predicate AskedFor(own: seq<Read>, keys: seq<Receipt.Digest>) {
    |own| == |keys| && forall j :: 0 <= j < |own| ==> own[j].key == keys[j]
  }

  /** The loop is at route `i` and has asked the table for every route so far, in vain. */
  ghost predicate Missed(e: Setup, cfg: Config, req: Request, i: nat, useCache: bool, own: seq<Read>)
    requires i <= |cfg.routes|
  {
    if useCache then AskedFor(own, Keys(e, cfg, req, i)) && forall j :: 0 <= j < |own| ==> !Current(e, own[j])
    else own == []
  }

  /** With the cache in use, the table was asked for each route up to the one that answered; the reply is a hit
      exactly if the last of these lookups found an unexpired entry, and all the others found none. */
  ghost predicate LookedUp(e: Setup, cfg: Config, req: Request, useCache: bool, own: seq<Read>, r: Reply) {
    match r
    case Answered(a, true, rows) =>
      && useCache && |rows| < |cfg.routes| && AskedFor(own, Keys(e, cfg, req, |rows| + 1)) && own != []
      && var last := own[|own| - 1];
      Current(e, last) && a == Marked(last.table[last.key].1)
      && forall j :: 0 <= j < |own| - 1 ==> !Current(e, own[j])
    case Answered(_, false, rows) => |rows| <= |cfg.routes| && Missed(e, cfg, req, |rows|, useCache, own)
    case RouterError(rows) => |rows| <= |cfg.routes| && Missed(e, cfg, req, |rows|, useCache, own)
    case Raised(rows) => |rows| <= |cfg.routes| && Missed(e, cfg, req, |rows|, useCache, own)
    case Rejected => own == []
  }

  /** A fresh answer was stored under the key of the route that gave it. */
  predicate Stored(e: Setup, cfg: Config, req: Request, useCache: bool, table: Table, now: real, r: Reply) {
    r.Answered? && !r.hit && useCache && e.max >= 1 ==>
      && 0 < |r.attempts| <= |cfg.routes| && Dispatchable(cfg.routes[|r.attempts| - 1])
      && var k := CacheKey(e.h, e.mac, LookupAt(cfg, req, |r.attempts| - 1));
      k in table && table[k] == (now, r.answer)
  }

  lemma MissOn(e: Setup, cfg: Config, req: Request, i: nat, useCache: bool, own: seq<Read>, more: seq<Read>, t: Turn)
    requires i < |cfg.routes| && Missed(e, cfg, req, i, useCache, own) && TurnLooks(e, cfg, req, i, useCache, more, t)
    requires !t.Hit?
    ensures Missed(e, cfg, req, i + 1, useCache, own + more)
  {
    hide CacheKey, Current, Dispatchable;
  }

  lemma LookedOn(e: Setup, cfg: Config, req: Request, i: nat, useCache: bool, own: seq<Read>, more: seq<Read>,
                 rows: seq<Row>, t: Turn)
    requires i < |cfg.routes| && Missed(e, cfg, req, i, useCache, own) && TurnLooks(e, cfg, req, i, useCache, more, t)
    requires |rows| == i && !t.Miss?
    ensures LookedUp(e, cfg, req, useCache, own + more, ReplyOf(t, rows))
  {
    hide CacheKey, Current, Dispatchable, Marked;
    if !t.Hit? {
      MissOn(e, cfg, req, i, useCache, own, more, t);
    }
  }

  lemma WalkBegins(e: Setup, cfg: Config, req: Request, useCache: bool)
    ensures Passed(e, cfg, req, 0, []) && Missed(e, cfg, req, 0, useCache, [])
  {
  }

  /** No route answered. */
  lemma WalkEnds(e: Setup, cfg: Config, req: Request, useCache: bool, own: seq<Read>, rows: seq<Row>, table: Table,
                 now: real)
    requires Passed(e, cfg, req, |cfg.routes|, rows) && Missed(e, cfg, req, |cfg.routes|, useCache, own)
    ensures var r := RouterError(rows);
            && Transparent(e, cfg, req, useCache, r) && TrailFits(e, cfg, req, r)
            && HitYoung(e, table, cfg, req, r, now) && LookedUp(e, cfg, req, useCache, own, r)
            && Stored(e, cfg, req, useCache, table, now, r)
  {
    hide Dispatchable, RowFits, Serve, Keys, Current;
  }

  lemma StoredOn(e: Setup, cfg: Config, req: Request, i: nat, useCache: bool, table: Table, now: real, rows: seq<Row>,
                 t: Turn)
    requires i < |cfg.routes| && TurnStores(e, cfg, req, i, useCache, table, now, t) && |rows| == i && !t.Miss?
    ensures Stored(e, cfg, req, useCache, table, now, ReplyOf(t, rows))
  {
    hide CacheKey, Dispatchable, Marked;
  }

  /** A call answered afresh; as long as what it stored is in the table, unexpired, the same call again is a hit
      with the same answer, marked. */
  lemma RepeatHits(e: Setup, cfg: Config, req: Request, first: Reply, stored: real, own: seq<Read>, again: Reply)
    requires Transparent(e, cfg, req, true, first) && first.Answered? && !first.hit && 0 < |first.attempts|
    requires Transparent(e, cfg, req, true, again) && LookedUp(e, cfg, req, true, own, again)
    requires |first.attempts| <= |cfg.routes| && Dispatchable(cfg.routes[|first.attempts| - 1])
    requires forall j :: 0 <= j < |own| ==>
                           var k := CacheKey(e.h, e.mac, LookupAt(cfg, req, |first.attempts| - 1));
                           && k in own[j].table && own[j].table[k] == (stored, first.answer)
                           && own[j].now - stored < e.ttl
    ensures again.Answered? && again.hit && again.answer == Marked(first.answer)
    ensures |again.attempts| == |first.attempts| - 1
  {
    hide CacheKey, Marked, FirstFrom;
    var n := |first.attempts|;
    var keys := Keys(e, cfg, req, n);
    assert keys != [] && keys[|keys| - 1] == CacheKey(e.h, e.mac, LookupAt(cfg, req, n - 1));
    assert forall j :: 0 <= j < |own| && own[j].key == keys[|keys| - 1] ==> Current(e, own[j]);
  }

  class Cache {
    const e: Setup
    var table: Table
    /** The clock, which only moves forward. */
    var now: real
    /** The lookup each entry was stored under, and every lookup made so far. */
    ghost var origin: Origins
    ghost var looked: set<Lookup>
    /** This thread's lookups in the table, with what they found. */
    ghost var lookups: seq<Read>

    constructor (e: Setup, now: real)
      ensures Good() && table == map[] && this.e == e && this.now == now
    {
      this.e, this.now := e, now;
      table, origin, looked, lookups := map[], map[], {}, [];
    }

    ghost predicate Good()
      reads this
    {
      GoodTable(e, table, origin, looked) && Past(table, now)
    }

    /** Time passes: the threads wait, or a request is out. */
    method Elapse()
      requires Good()
      modifies this`now
      ensures Good() && old(now) <= now
    {
      hide GoodTable;
      var t: real := *;
      if t > 0.0 {
        now := now + t;
      }
    }

    /** `_embed_cache_get`, by this thread or another. */
    method Get(key: Receipt.Digest, ghost own: bool := true) returns (r: Option<Answer>)
      requires Good()
      modifies this`table, this`origin, this`lookups
      ensures Good()
      ensures lookups == old(lookups) + if own then [Read(key, old(table), now)] else []
      ensures if key in old(table) && now - old(table)[key].0 < e.ttl
              then r == Some(old(table)[key].1) && table == old(table) && origin == old(origin)
              else r == None && table == old(table) - {key}
    {
      hide GoodTable;
      DropGood(e, table, origin, looked, key);
      lookups := lookups + if own then [Read(key, table, now)] else [];
      if key !in table {
        return None;
      }
      if now - table[key].0 >= e.ttl {
        table := table - {key};
        origin := origin - {key};
        return None;
      }
      return Some(table[key].1);
    }

    /** Drop an oldest entry to make room; false when there is none, and `min` raises. */
    method Evict() returns (ok: bool, ghost gone: set<Receipt.Digest>)
      requires Good() && |table| >= e.max
      modifies this`table, this`origin
      ensures Good() && table == old(table) - gone
      ensures ok <==> e.max >= 1
      ensures if ok then |table| < e.max && exists k :: gone == {k} && IsOldest(old(table), k) else gone == {}
    {
      hide GoodTable, IsOldest;
      GoodSize(e, table, origin, looked);
      gone := {};
      if table == map[] {
        assert table - gone == table;
        return false, gone;
      }
      ghost var first := OldestExists(table);
      var oldest :| IsOldest(table, oldest);
      OldestIn(table, oldest);
      DropGood(e, table, origin, looked, oldest);
      gone := {oldest};
      table := table - {oldest};
      origin := origin - {oldest};
      return true, gone;
    }

    /** `_embed_cache_put`; false when it raises. Only a new key in a full table evicts, and only an oldest entry. */
    method Put(ghost l: Lookup, key: Receipt.Digest, a: Answer)
      returns (ok: bool, ghost gone: set<Receipt.Digest>)
      requires Good() && Fits(e, key, l, a) && l in looked
      modifies this`table, this`origin
      ensures Good()
      ensures ok <==> e.max >= 1
      ensures table == if ok then (old(table) - gone)[key := (now, a)] else old(table)
      ensures gone != {} ==>
                key !in old(table) && |old(table)| == e.max && exists k :: gone == {k} && IsOldest(old(table), k)
    {
      hide Fits, IsOldest, GoodTable;
      gone := {};
      GoodSize(e, table, origin, looked);
      assert table - gone == table;
      if |table| >= e.max && key !in table {
        ok, gone := Evict();
        if !ok {
          assert table == old(table);
          return;
        }
      }
      AddGood(e, table, origin, looked, key, now, l, a);
      table := table[key := (now, a)];
      origin := origin[key := l];
      ok := true;
    }

    /** Post the payload and check the vectors that come back. */
    method Dispatch(l: Lookup) returns (row: Row, a: Option<Answer>)
      ensures a == Serve(e.upstream, e.finite, l) && (row == Ok <==> a.Some?)
      ensures row in {Failed, BadVectors, Ok}
      ensures row == Failed <==> e.upstream(l.provider.url, l.provider.key, Obj(Payload(l))).None?
    {
      hide Payload, Complete;
      var result := e.upstream(l.provider.url, l.provider.key, Obj(Payload(l)));
      if result.None? {
        return Failed, None;
      }
      var fault := ResponseError(result.value, Payload(l), e.finite);
      if fault.Some? {
        return BadVectors, None;
      }
      return Ok, Some(AnswerOf(l, result.value));
    }

    /** `embed_cache_clear` */
    method Clear()
      requires Good()
      modifies this`table, this`origin
      ensures Good() && table == map[]
    {
      hide GoodTable;
      ClearGood(e, table, origin, looked);
      table, origin := map[], map[];
    }

    /** Another call that missed on `l`: dispatch it and store what comes back. */
    method Elsewhere(l: Lookup)
      requires Good()
      modifies this`table, this`origin, this`looked
      ensures Good() && old(looked) <= looked
    {
      hide *;
      if Detached(l.request) {
        Look(l);
        var _, a := Dispatch(l);
        if a.Some? {
          FitsServed(e, l, a.value);
          var _, _ := Put(l, CacheKey(e.h, e.mac, l), a.value);
        }
      }
    }

    /** Time passes and other calls run, interleaved: lookups, stores, evictions, expiries and clears. */
    method Others()
      requires Good()
      modifies this
      ensures Good() && old(looked) <= looked && old(now) <= now && lookups == old(lookups)
    {
      hide *;
      var n: nat := *;
      while n > 0
        invariant Good() && old(looked) <= looked && old(now) <= now && lookups == old(lookups)
      {
        n := n - 1;
        Elapse();
        var clear, key, l: Lookup := *, *, *;
        if clear {
          Clear();
        }
        var _ := Get(key, false);
        Elsewhere(l);
      }
    }

    ghost method Look(l: Lookup)
      requires Good()
      modifies this`looked
      ensures Good() && looked == old(looked) + {l}
    {
      looked := looked + {l};
    }

    /** One turn of the route loop. */
    method TakeTurn(cfg: Config, req: Request, i: nat, useCache: bool) returns (t: Turn)
      requires Good() && Detached(req) && i < |cfg.routes|
      modifies this
      ensures Good() && old(looked) <= looked && old(now) <= now && TurnFits(e, looked, cfg, req, i, useCache, t)
      ensures t.Hit? ==> Dispatchable(cfg.routes[i]) && HeldYoung(e, table, LookupAt(cfg, req, i), t.answer, now)
      ensures old(lookups) <= lookups && TurnLooks(e, cfg, req, i, useCache, lookups[|old(lookups)|..], t)
      ensures TurnStores(e, cfg, req, i, useCache, table, now, t)
    {
      hide GoodTable, Fits, Serve, Detached, Collided, CacheKey, First;
      Others();
      var r := cfg.routes[i];
      if r.provider.None? || !r.provider.value.Available() {
        return Miss(Unavailable);
      }
      if !r.provider.value.sovereign {
        return Miss(NotSovereign);
      }
      var l := LookupAt(cfg, req, i);
      if !useCache {
        t := Post(cfg, req, i);
        return;
      }
      var key := CacheKey(e.h, e.mac, l);
      Look(l);
      var cached := Get(key);
      if cached.Some? {
        HitServes(e, table, origin, looked, l);
        return Hit(cached.value);
      }
      t := Post(cfg, req, i);
      Others();
      if t.Fresh? {
        FitsServed(e, l, t.answer);
        var ok, _ := Put(l, key, t.answer);
        if !ok {
          t := Broken(t.answer);
        }
      }
    }

    /** The uncached part of a turn. */
    method Post(cfg: Config, req: Request, i: nat) returns (t: Turn)
      requires i < |cfg.routes| && Dispatchable(cfg.routes[i])
      ensures t.Miss? || t.Fresh?
      ensures TurnFits(e, looked, cfg, req, i, false, t)
    {
      hide Collided, GoodTable;
      var l := LookupAt(cfg, req, i);
      var row, a := Dispatch(l);
      t := if a.Some? then Fresh(a.value) else Miss(row);
    }

    /** `embed`. Whatever other calls did to the table, the answer is the one the same call without a cache
        would give, except for the ":cache" mark and the trail, or two looked-up texts collide, or the
        configured bound is below one and storing raises. A hit has not expired when the call returns. */
    method Embed(cfg: Config, model: string, input: Json, extra: seq<Member>, useCache: bool)
      returns (r: Reply)
      requires Good() && Valid(input) && Valid(Obj(extra))
      modifies this
      ensures Good() && old(looked) <= looked && old(now) <= now
      ensures r.Rejected? <==> model == "" || Overrides(extra)
      ensures !r.Rejected? ==>
                var req := Detach(model, input, extra);
                || Transparent(e, cfg, req, useCache, r)
                || (useCache && Collided(e.h, e.mac, looked))
      ensures !r.Rejected? ==> TrailFits(e, cfg, Detach(model, input, extra), r)
      ensures !r.Rejected? ==> HitYoung(e, table, cfg, Detach(model, input, extra), r, now)
      ensures old(lookups) <= lookups
      ensures LookedUp(e, cfg, Detach(model, input, extra), useCache, lookups[|old(lookups)|..], r)
      ensures Stored(e, cfg, Detach(model, input, extra), useCache, table, now, r)
    {
      if model == "" || Overrides(extra) {
        return Rejected;
      }
      DetachDetaches(model, input, extra);
      r := Walk(cfg, Detach(model, input, extra), useCache);
    }

    /** The route loop. */
    method Walk(cfg: Config, req: Request, useCache: bool) returns (r: Reply)
      requires Good() && Detached(req)
      modifies this
      ensures Good() && old(looked) <= looked && old(now) <= now && !r.Rejected?
      ensures Transparent(e, cfg, req, useCache, r) || (useCache && Collided(e.h, e.mac, looked))
      ensures TrailFits(e, cfg, req, r) && HitYoung(e, table, cfg, req, r, now)
      ensures old(lookups) <= lookups && LookedUp(e, cfg, req, useCache, lookups[|old(lookups)|..], r)
      ensures Stored(e, cfg, req, useCache, table, now, r)
    {
      hide *;
      var attempts: seq<Row> := [];
      var i := 0;
      WalkBegins(e, cfg, req, useCache);
      assert lookups[|old(lookups)|..] == [];
      while i < |cfg.routes|
        invariant Good() && old(looked) <= looked && old(now) <= now
        invariant i <= |cfg.routes| && Passed(e, cfg, req, i, attempts) && |attempts| == i
        invariant old(lookups) <= lookups && Missed(e, cfg, req, i, useCache, lookups[|old(lookups)|..])
      {
        ghost var before := lookups;
        var t := TakeTurn(cfg, req, i, useCache);
        assert lookups[|old(lookups)|..] == before[|old(lookups)|..] + lookups[|before|..];
        if !t.Miss? {
          LookedOn(e, cfg, req, i, useCache, before[|old(lookups)|..], lookups[|before|..], attempts, t);
          StoredOn(e, cfg, req, i, useCache, table, now, attempts, t);
          Settle(e, looked, cfg, req, i, attempts, useCache, t);
          SettleHit(e, table, cfg, req, i, attempts, t, now);
          return ReplyOf(t, attempts);
        }
        MissOn(e, cfg, req, i, useCache, before[|old(lookups)|..], lookups[|before|..], t);
        PassOn(e, looked, cfg, req, i, attempts, useCache, t);
        attempts := attempts + [t.row];
        i := i + 1;
      }
      WalkEnds(e, cfg, req, useCache, lookups[|old(lookups)|..], attempts, table, now);
      return RouterError(attempts);
    }
  }
}
