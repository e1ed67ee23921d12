/** `chat` over its routes: tiers, cooldown, same-provider retry, and the optional shared budget. */
module Failover {
  import opened Text
  import opened RequestBudget
  import ConnectionPool
  import Cooldown

  datatype Provider = Provider(name: string, sovereign: bool, available: bool, endpoint: ConnectionPool.Key)

  datatype Route = Route(provider: string, model: string)

  type Catalog = map<string, Provider>

  datatype Tier = Sovereign | PaidGrid | UnqualifiedGrid

  function TierOf(p: Provider): Tier {
    if p.sovereign then Sovereign else if p.name == "moonshot" then PaidGrid else UnqualifiedGrid
  }

  predicate Eligible(catalog: Catalog, r: Route) {
    r.provider in catalog && catalog[r.provider].available && catalog[r.provider].sovereign
  }

  predicate Retryable(status: int) { status in {429, 500, 502, 503, 504} }

  // ----- the attempt trail -----

  datatype Kind = Unavailable | GridUnqualified | PaidUnqualified | CooldownSkip | Dispatch

  /** One row of the trail; `route` is the position of its route in the chain. */
  datatype Attempt = Attempt(route: nat, provider: string, model: string, kind: Kind, ok: bool, status: Option<int>)

  function At(routes: seq<Route>, i: nat, kind: Kind, ok: bool, status: Option<int>): Attempt
    requires i < |routes|
  {
    Attempt(i, routes[i].provider, routes[i].model, kind, ok, status)
  }

  /** The row of one send: a response has a status, anything else leaves the outcome unknown. */
  function DispatchRow(routes: seq<Route>, i: nat, r: ConnectionPool.Reply): Attempt
    requires i < |routes|
  {
    At(routes, i, Dispatch, r.Body?, StatusOf(r))
  }

  function StatusOf(r: ConnectionPool.Reply): Option<int> {
    match r
    case Body => Some(200)
    case HttpStatus(code) => Some(code)
    case _ => None
  }

  ghost predicate LaterEligible(routes: seq<Route>, catalog: Catalog, i: int) {
    exists j :: 0 <= j < |routes| && i < j && Eligible(catalog, routes[j])
  }

  /** The row tells the truth about its route; a skip is only ever written while an eligible route remains. */
  ghost predicate RowFits(routes: seq<Route>, catalog: Catalog, a: Attempt) {
    && a.route < |routes|
    && var r := routes[a.route];
    && a.provider == r.provider && a.model == r.model
    && (a.ok ==> a.kind == Dispatch && a.status == Some(200))
    && match a.kind
       case Unavailable => r.provider !in catalog || !catalog[r.provider].available
       case GridUnqualified =>
         r.provider in catalog && catalog[r.provider].available && !catalog[r.provider].sovereign
         && catalog[r.provider].name != "moonshot"
       case PaidUnqualified =>
         r.provider in catalog && catalog[r.provider].available && !catalog[r.provider].sovereign
         && catalog[r.provider].name == "moonshot"
       case CooldownSkip => Eligible(catalog, r) && LaterEligible(routes, catalog, a.route)
       case Dispatch => Eligible(catalog, r)
  }

  /** The first route with no row yet. */
  function Next(rows: seq<Attempt>): nat { if rows == [] then 0 else rows[|rows| - 1].route + 1 }

  /** Row `a` may come right after `rows`: it opens the next route, or repeats a dispatch of the current one. */
  predicate Follows(rows: seq<Attempt>, a: Attempt) {
    || a.route == Next(rows)
    || (rows != [] && a.route == rows[|rows| - 1].route && a.kind == Dispatch && rows[|rows| - 1].kind == Dispatch)
  }

  /** Routes in order, none left out, one row each except repeated dispatches; only the last row may be a success. */
  ghost predicate Chain(routes: seq<Route>, catalog: Catalog, rows: seq<Attempt>)
    decreases |rows|
  {
    rows == [] ||
    (var front := rows[..|rows| - 1];
     && Chain(routes, catalog, front)
     && RowFits(routes, catalog, rows[|rows| - 1])
     && Follows(front, rows[|rows| - 1])
     && (front != [] ==> !front[|front| - 1].ok))
  }

  /** One flag for each dispatch in the trail: whether a response was seen. */
  function Outcomes(rows: seq<Attempt>): seq<bool>
    decreases |rows|
  {
    if rows == [] then []
    else
      var a := rows[|rows| - 1];
      Outcomes(rows[..|rows| - 1]) + if a.kind == Dispatch then [a.status.Some?] else []
  }

  /** A change to one provider's cooldown. */
  datatype Cooling = Cooling(route: nat, cleared: bool)

  /** The cooldown changes a trail calls for: one for each route dispatched, cleared only by a success. */
  function Coolings(rows: seq<Attempt>): seq<Cooling>
    decreases |rows|
  {
    if rows == [] then []
    else
      var a := rows[|rows| - 1];
      var before := Coolings(rows[..|rows| - 1]);
      if a.kind != Dispatch then before
      else if before != [] && before[|before| - 1].route == a.route then
        before[..|before| - 1] + [Cooling(a.route, a.ok)]
      else before + [Cooling(a.route, a.ok)]
  }

  lemma Append(routes: seq<Route>, catalog: Catalog, rows: seq<Attempt>, a: Attempt)
    requires Chain(routes, catalog, rows) && RowFits(routes, catalog, a) && Follows(rows, a)
    requires rows != [] ==> !rows[|rows| - 1].ok
    ensures Chain(routes, catalog, rows + [a])
  {
    assert (rows + [a])[..|rows|] == rows;
  }

  lemma AppendCounts(rows: seq<Attempt>, a: Attempt)
    ensures Outcomes(rows + [a]) == Outcomes(rows) + if a.kind == Dispatch then [a.status.Some?] else []
    ensures a.kind != Dispatch ==> Coolings(rows + [a]) == Coolings(rows)
    ensures a.kind == Dispatch ==>
              var before := Coolings(rows);
              Coolings(rows + [a]) ==
              if before != [] && before[|before| - 1].route == a.route then
                before[..|before| - 1] + [Cooling(a.route, a.ok)]
              else before + [Cooling(a.route, a.ok)]
  {
    assert (rows + [a])[..|rows|] == rows;
  }

  lemma {:induction false} CoolingsBelow(routes: seq<Route>, catalog: Catalog, rows: seq<Attempt>)
    requires Chain(routes, catalog, rows)
    ensures forall k :: 0 <= k < |Coolings(rows)| ==> Coolings(rows)[k].route < Next(rows)
    decreases |rows|
  {
    hide RowFits;
    if rows != [] {
      CoolingsBelow(routes, catalog, rows[..|rows| - 1]);
    }
  }

  // ----- the calls behind a trail -----

  /** One call of the poster, and what came of it. */
  datatype Call = Call(endpoint: ConnectionPool.Key, model: string, reply: ConnectionPool.Reply)

  /** What a trail can tell of a call. */
  datatype Contact = Contact(endpoint: ConnectionPool.Key, model: string, status: Option<int>)

  function Seen(c: Call): Contact { Contact(c.endpoint, c.model, StatusOf(c.reply)) }

  /** A provider's endpoint; only known providers are ever asked for. */
  function EndpointOf(catalog: Catalog, name: string): ConnectionPool.Key {
    if name in catalog then catalog[name].endpoint else ConnectionPool.Key("", "", 0)
  }

  function ContactOf(catalog: Catalog, a: Attempt): Contact {
    Contact(EndpointOf(catalog, a.provider), a.model, a.status)
  }

  /** The calls a budgeted trail reports: one for each dispatch row, in order. */
  function Contacts(catalog: Catalog, rows: seq<Attempt>): seq<Contact>
    decreases |rows|
  {
    if rows == [] then []
    else
      var a := rows[|rows| - 1];
      Contacts(catalog, rows[..|rows| - 1]) + if a.kind == Dispatch then [ContactOf(catalog, a)] else []
  }

  /** The calls are exactly those the dispatch rows report: endpoint, model and status, in order. */
  predicate Reported(catalog: Catalog, rows: seq<Attempt>, calls: seq<Call>) {
    && |calls| == |Contacts(catalog, rows)|
    && forall k :: 0 <= k < |calls| ==> Seen(calls[k]) == Contacts(catalog, rows)[k]
  }

  lemma AppendContact(catalog: Catalog, rows: seq<Attempt>, a: Attempt)
    ensures Contacts(catalog, rows + [a])
         == Contacts(catalog, rows) + if a.kind == Dispatch then [ContactOf(catalog, a)] else []
  {
    assert (rows + [a])[..|rows|] == rows;
  }

  lemma ReportedOn(catalog: Catalog, rows: seq<Attempt>, calls: seq<Call>, a: Attempt, c: Call)
    requires Reported(catalog, rows, calls) && a.kind == Dispatch && Seen(c) == ContactOf(catalog, a)
    ensures Reported(catalog, rows + [a], calls + [c])
  {
    hide Contacts, ContactOf, Seen;
    AppendContact(catalog, rows, a);
  }

  lemma {:induction false} ContactCount(catalog: Catalog, rows: seq<Attempt>)
    ensures |Contacts(catalog, rows)| == |Outcomes(rows)|
    decreases |rows|
  {
    if rows != [] {
      ContactCount(catalog, rows[..|rows| - 1]);
    }
  }

  /** A dispatch row has its contact. */
  lemma {:induction false} ContactOfRow(catalog: Catalog, rows: seq<Attempt>, k: nat) returns (n: nat)
    requires k < |rows| && rows[k].kind == Dispatch
    ensures n < |Contacts(catalog, rows)| && Contacts(catalog, rows)[n] == ContactOf(catalog, rows[k])
    decreases |rows|
  {
    hide ContactOf;
    if k == |rows| - 1 {
      n := |Contacts(catalog, rows)| - 1;
    } else {
      n := ContactOfRow(catalog, rows[..|rows| - 1], k);
    }
  }

  /** The tries behind one row of an unbudgeted trail: all to the row's provider for the row's model, all but
      the last of them transient failures, and the last one's status is the row's. */
  predicate Tried(catalog: Catalog, tries: nat, a: Attempt, g: seq<Call>) {
    && |g| <= tries && (tries >= 1 ==> g != [])
    && (forall k :: 0 <= k < |g| ==> g[k].endpoint == EndpointOf(catalog, a.provider) && g[k].model == a.model)
    && (forall k :: 0 <= k < |g| - 1 ==> Transient(OutcomeOf(g[k].reply)))
    && a.status == if g == [] then None else StatusOf(g[|g| - 1].reply)
  }

  /** The calls are those an unbudgeted trail reports: the tries of each dispatch row, one row after another. */
  ghost predicate Grouped(catalog: Catalog, tries: nat, rows: seq<Attempt>, calls: seq<Call>)
    decreases |rows|
  {
    if rows == [] then calls == []
    else
      var front, a := rows[..|rows| - 1], rows[|rows| - 1];
      if a.kind != Dispatch then Grouped(catalog, tries, front, calls)
      else exists n :: 0 <= n <= |calls| && Grouped(catalog, tries, front,
                                                    calls[..n]) && Tried(catalog, tries, a, calls[n..])
  }

  lemma GroupedOn(catalog: Catalog, tries: nat, rows: seq<Attempt>, calls: seq<Call>, a: Attempt, g: seq<Call>)
    requires Grouped(catalog, tries, rows, calls)
    requires if a.kind == Dispatch then Tried(catalog, tries, a, g) else g == []
    ensures Grouped(catalog, tries, rows + [a], calls + g)
  {
    hide Tried;
    var all := calls + g;
    var n, more := |calls|, rows + [a];
    assert more[..|more| - 1] == rows && more[|more| - 1] == a;
    assert all[..n] == calls && all[n..] == g;
    assert a.kind != Dispatch ==> all == calls;
    assert Grouped(catalog, tries, more[..|more| - 1], all[..n]);
  }

  /** Some call went to route `i`'s provider for its model. */
  ghost predicate Called(routes: seq<Route>, catalog: Catalog, calls: seq<Call>, i: int) {
    && 0 <= i < |routes|
    && exists k :: 0 <= k < |calls| && IsCallOf(catalog, routes[i], calls[k])
  }

  predicate IsCallOf(catalog: Catalog, r: Route, c: Call) {
    c.endpoint == EndpointOf(catalog, r.provider) && c.model == r.model
  }

  lemma {:induction false} GroupedRowCalled(catalog: Catalog, tries: nat, rows: seq<Attempt>, calls: seq<Call>, k: nat)
    returns (n: nat)
    requires Grouped(catalog, tries, rows, calls) && tries >= 1 && k < |rows| && rows[k].kind == Dispatch
    ensures n < |calls| && IsCallOf(catalog, Route(rows[k].provider, rows[k].model), calls[n])
    decreases |rows|
  {
    hide EndpointOf;
    var front, a := rows[..|rows| - 1], rows[|rows| - 1];
    if a.kind != Dispatch {
      n := GroupedRowCalled(catalog, tries, front, calls, k);
    } else {
      var m :| 0 <= m <= |calls| && Grouped(catalog, tries, front, calls[..m]) && Tried(catalog, tries, a, calls[m..]);
      if k == |rows| - 1 {
        n := m;
        assert calls[m..][0] == calls[m];
      } else {
        n := GroupedRowCalled(catalog, tries, front, calls[..m], k);
      }
    }
  }

  /** With no tries allowed there are no calls, whatever the trail says. */
  lemma {:induction false} NoTriesNoCalls(catalog: Catalog, rows: seq<Attempt>, calls: seq<Call>)
    requires Grouped(catalog, 0, rows, calls)
    ensures calls == []
    decreases |rows|
  {
    if rows != [] {
      var front, a := rows[..|rows| - 1], rows[|rows| - 1];
      if a.kind != Dispatch {
        NoTriesNoCalls(catalog, front, calls);
      } else {
        var m :| 0 <= m <= |calls| && Grouped(catalog, 0, front, calls[..m]) && Tried(catalog, 0, a, calls[m..]);
        NoTriesNoCalls(catalog, front, calls[..m]);
      }
    }
  }

  lemma {:induction false} GroupedCount(catalog: Catalog, tries: nat, rows: seq<Attempt>, calls: seq<Call>)
    requires Grouped(catalog, tries, rows, calls)
    ensures |calls| <= |Outcomes(rows)| * tries && (tries >= 1 ==> |calls| >= |Outcomes(rows)|)
    decreases |rows|
  {
    if rows != [] {
      var front, a := rows[..|rows| - 1], rows[|rows| - 1];
      if a.kind != Dispatch {
        GroupedCount(catalog, tries, front, calls);
      } else {
        var m :| 0 <= m <= |calls| && Grouped(catalog, tries, front,
                                              calls[..m]) && Tried(catalog, tries, a, calls[m..]);
        GroupedCount(catalog, tries, front, calls[..m]);
        Distribute(|Outcomes(front)|, tries);
      }
    }
  }

  // ----- one route's dispatches -----

  /** `rows` is `trail` and then at least one dispatch of route `i`, the last of them a success or not. */
  predicate Dispatched(trail: seq<Attempt>, rows: seq<Attempt>, i: nat, ok: bool) {
    && trail < rows && rows[|rows| - 1].ok == ok
    && (forall k :: |trail| <= k < |rows| ==> rows[k].kind == Dispatch && rows[k].route == i)
    && Coolings(rows) == Coolings(trail) + [Cooling(i, ok)]
  }

  lemma NotServed(trail: seq<Attempt>, rows: seq<Attempt>, i: nat)
    requires (trail != [] ==> !trail[|trail| - 1].ok) && (rows == trail || Dispatched(trail, rows, i, false))
    ensures rows != [] ==> !rows[|rows| - 1].ok
  {
  }

  lemma FollowsOwn(trail: seq<Attempt>, rows: seq<Attempt>, a: Attempt)
    requires Next(trail) == a.route && a.kind == Dispatch && (rows == trail || Dispatched(trail, rows, a.route, false))
    ensures Follows(rows, a)
  {
    hide Coolings;
  }

  /** One more dispatch of the route moves its own cooldown change, or adds it. */
  lemma AppendCooling(routes: seq<Route>, catalog: Catalog, trail: seq<Attempt>, rows: seq<Attempt>, a: Attempt)
    requires Chain(routes, catalog, trail) && Next(trail) == a.route && a.kind == Dispatch
    requires rows == trail || Dispatched(trail, rows, a.route, false)
    ensures Dispatched(trail, rows + [a], a.route, a.ok)
  {
    hide Chain, Coolings, Outcomes;
    CoolingsBelow(routes, catalog, trail);
    AppendCounts(rows, a);
    hide Next;
    var before, one := Coolings(rows), Cooling(a.route, a.ok);
    if rows == trail {
      assert Coolings(rows + [a]) == before + [one];
    } else {
      assert before == Coolings(trail) + [Cooling(a.route, false)];
      assert before[..|before| - 1] == Coolings(trail);
    }
  }

  lemma AppendDispatch(routes: seq<Route>, catalog: Catalog, trail: seq<Attempt>, rows: seq<Attempt>, a: Attempt)
    requires Chain(routes, catalog, trail) && Next(trail) == a.route
    requires trail != [] ==> !trail[|trail| - 1].ok
    requires Chain(routes, catalog, rows) && RowFits(routes, catalog, a) && a.kind == Dispatch
    requires rows == trail || Dispatched(trail, rows, a.route, false)
    ensures Chain(routes, catalog, rows + [a]) && Dispatched(trail, rows + [a], a.route, a.ok)
    ensures Outcomes(rows + [a]) == Outcomes(rows) + [a.status.Some?]
  {
    hide RowFits, Coolings, Outcomes, Chain;
    AppendCooling(routes, catalog, trail, rows, a);
    hide Dispatched;
    assert rows != [] ==> !rows[|rows| - 1].ok by { NotServed(trail, rows, a.route); }
    FollowsOwn(trail, rows, a);
    Append(routes, catalog, rows, a);
    AppendCounts(rows, a);
  }

  /** The answer of the last dispatch turned out not to be a chat completion. */
  function Spoil(rows: seq<Attempt>): seq<Attempt>
    requires rows != []
  {
    rows[..|rows| - 1] + [rows[|rows| - 1].(ok := false, status := Some(200))]
  }

  lemma SpoilFits(routes: seq<Route>, catalog: Catalog, a: Attempt)
    requires RowFits(routes, catalog, a) && a.kind == Dispatch
    ensures RowFits(routes, catalog, a.(ok := false, status := Some(200))) && (a.ok ==> a.status == Some(200))
  {
  }

  lemma SpoilCoolings(trail: seq<Attempt>, rows: seq<Attempt>, i: nat)
    requires Dispatched(trail, rows, i, true)
    ensures Coolings(Spoil(rows)) == Coolings(trail) + [Cooling(i, false)]
  {
    var front := rows[..|rows| - 1];
    assert Spoil(rows)[..|front|] == front;
    var before := Coolings(front);
    var x := if before != [] && before[|before| - 1].route == i then before[..|before| - 1] else before;
    assert x == (x + [Cooling(i, true)])[..|x|] == (Coolings(trail) + [Cooling(i, true)])[..|x|] == Coolings(trail);
  }

  lemma SpoilDispatched(trail: seq<Attempt>, rows: seq<Attempt>, i: nat)
    requires Dispatched(trail, rows, i, true) && Coolings(Spoil(rows)) == Coolings(trail) + [Cooling(i, false)]
    ensures Dispatched(trail, Spoil(rows), i, false)
  {
    hide Coolings;
    var n, spoilt := |rows| - 1, Spoil(rows);
    assert |spoilt| == |rows| && spoilt[n].kind == rows[n].kind && spoilt[n].route == rows[n].route;
    assert forall k :: 0 <= k < n ==> spoilt[k] == rows[k];
    assert trail < spoilt;
  }

  lemma SpoilContacts(catalog: Catalog, rows: seq<Attempt>)
    requires rows != [] && rows[|rows| - 1].kind == Dispatch && rows[|rows| - 1].status == Some(200)
    ensures forall calls :: Reported(catalog, rows, calls) ==> Reported(catalog, Spoil(rows), calls)
  {
    var front, a := rows[..|rows| - 1], rows[|rows| - 1];
    AppendContact(catalog, front, a.(ok := false, status := Some(200)));
    AppendContact(catalog, front, a);
    assert front + [a] == rows;
    hide Contacts;
  }

  lemma SpoilKeeps(routes: seq<Route>, catalog: Catalog, trail: seq<Attempt>, rows: seq<Attempt>, i: nat)
    requires Chain(routes, catalog, rows) && Dispatched(trail, rows, i, true)
    ensures Chain(routes, catalog, Spoil(rows)) && Dispatched(trail, Spoil(rows), i, false)
    ensures Outcomes(Spoil(rows)) == Outcomes(rows)
    ensures forall calls :: Reported(catalog, rows, calls) ==> Reported(catalog, Spoil(rows), calls)
  {
    hide RowFits, Coolings, Reported;
    var front, a := rows[..|rows| - 1], rows[|rows| - 1].(ok := false, status := Some(200));
    SpoilFits(routes, catalog, rows[|rows| - 1]);
    SpoilCoolings(trail, rows, i);
    SpoilDispatched(trail, rows, i);
    hide Dispatched;
    AppendCounts(front, a);
    AppendCounts(front, rows[|rows| - 1]);
    assert front + [rows[|rows| - 1]] == rows;
    Append(routes, catalog, front, a);
    SpoilContacts(catalog, rows);
  }

  lemma FitsDispatch(routes: seq<Route>, catalog: Catalog, a: Attempt)
    requires a.route < |routes| && a.provider == routes[a.route].provider && a.model == routes[a.route].model
    requires a.kind == Dispatch && Eligible(catalog, routes[a.route]) && (a.ok ==> a.status == Some(200))
    ensures RowFits(routes, catalog, a)
  {
  }

  lemma AppendRefusal(routes: seq<Route>, catalog: Catalog, rows: seq<Attempt>, a: Attempt)
    requires Chain(routes, catalog, rows) && RowFits(routes, catalog, a) && a.route == Next(rows) && a.kind != Dispatch
    requires rows != [] ==> !rows[|rows| - 1].ok
    ensures Chain(routes, catalog, rows + [a]) && Next(rows + [a]) == a.route + 1 && !a.ok
    ensures Outcomes(rows + [a]) == Outcomes(rows) && Coolings(rows + [a]) == Coolings(rows)
  {
    Append(routes, catalog, rows, a);
    AppendCounts(rows, a);
  }

  lemma FitsSkip(routes: seq<Route>, catalog: Catalog, i: nat)
    requires i < |routes| && Eligible(catalog, routes[i]) && LaterEligible(routes, catalog, i)
    ensures RowFits(routes, catalog, At(routes, i, CooldownSkip, false, None))
  {
  }

  lemma {:induction false} AtMostRows(rows: seq<Attempt>)
    ensures |Outcomes(rows)| <= |rows|
    decreases |rows|
  {
    if rows != [] {
      AtMostRows(rows[..|rows| - 1]);
    }
  }

  lemma NextAtMost(routes: seq<Route>, catalog: Catalog, rows: seq<Attempt>)
    requires Chain(routes, catalog, rows)
    ensures Next(rows) <= |routes|
  {
  }

  lemma RowsTimesTries(n: nat, m: nat, tries: nat)
    requires n <= m
    ensures n * tries <= m * tries
  {
  }

  lemma Distribute(n: nat, tries: nat)
    ensures (n + 1) * tries == n * tries + tries
  {
  }

  // ----- the answers a trail judges -----

  /** One flag for each dispatch that got a response: whether it was taken for a chat completion. */
  function Verdicts(rows: seq<Attempt>): seq<bool>
    decreases |rows|
  {
    if rows == [] then []
    else
      var a := rows[|rows| - 1];
      Verdicts(rows[..|rows| - 1]) + if a.kind == Dispatch && a.status == Some(200) then [a.ok] else []
  }

  lemma AppendVerdict(rows: seq<Attempt>, a: Attempt)
    ensures Verdicts(rows + [a])
         == Verdicts(rows) + if a.kind == Dispatch && a.status == Some(200) then [a.ok] else []
  {
    assert (rows + [a])[..|rows|] == rows;
  }

  lemma SpoilVerdict(rows: seq<Attempt>, front: seq<bool>)
    requires rows != [] && rows[|rows| - 1].kind == Dispatch && Verdicts(rows) == front + [true]
    requires rows[|rows| - 1].status == Some(200)
    ensures Verdicts(Spoil(rows)) == front + [false]
  {
    var before, a := rows[..|rows| - 1], rows[|rows| - 1];
    AppendVerdict(before, a.(ok := false, status := Some(200)));
    assert Verdicts(before) == (front + [true])[..|front|] == front;
  }

  // ----- what a trail means, whoever wrote it -----

  /** Every row fits, rows never go back, and only the last is a success. */
  lemma {:induction false} ChainRows(routes: seq<Route>, catalog: Catalog, rows: seq<Attempt>, k: nat)
    requires Chain(routes, catalog, rows) && k < |rows|
    ensures RowFits(routes, catalog, rows[k])
    ensures rows[k].route <= rows[|rows| - 1].route
    ensures k < |rows| - 1 ==> !rows[k].ok
    ensures k < |rows| - 1 && rows[k].kind != Dispatch ==> rows[k].route < rows[|rows| - 1].route
    decreases |rows|
  {
    hide RowFits;
    var front := rows[..|rows| - 1];
    if k < |front| {
      ChainRows(routes, catalog, front, k);
    }
  }

  /** Every route before `Next` has a row. */
  lemma {:induction false} ChainCovers(routes: seq<Route>, catalog: Catalog, rows: seq<Attempt>, i: nat)
    returns (k: nat)
    requires Chain(routes, catalog, rows) && i < Next(rows)
    ensures k < |rows| && rows[k].route == i
    decreases |rows|
  {
    hide RowFits;
    var front := rows[..|rows| - 1];
    if rows[|rows| - 1].route == i {
      k := |rows| - 1;
    } else {
      k := ChainCovers(routes, catalog, front, i);
    }
  }

  predicate IsLastEligible(routes: seq<Route>, catalog: Catalog, i: int) {
    && 0 <= i < |routes| && Eligible(catalog, routes[i])
    && forall j :: i < j < |routes| ==> !Eligible(catalog, routes[j])
  }

  /** Row `k` is a dispatch of route `i`. */
  ghost predicate DispatchOf(rows: seq<Attempt>, i: int, k: int) {
    0 <= k < |rows| && rows[k].kind == Dispatch && rows[k].route == i
  }

  /** Row `m` comes after row `k` and is a dispatch of a later route. */
  ghost predicate LaterDispatch(rows: seq<Attempt>, k: nat, m: int) {
    0 <= k < m < |rows| && rows[m].kind == Dispatch && rows[m].route > rows[k].route
  }

  lemma LastOf(routes: seq<Route>, catalog: Catalog, j: nat) returns (last: nat)
    requires j < |routes| && Eligible(catalog, routes[j])
    ensures j <= last && IsLastEligible(routes, catalog, last)
  {
    last := j;
    var i := j + 1;
    while i < |routes|
      invariant j <= last < i <= |routes| && Eligible(catalog, routes[last])
      invariant forall m :: last < m < i ==> !Eligible(catalog, routes[m])
    {
      if Eligible(catalog, routes[i]) {
        last := i;
      }
      i := i + 1;
    }
  }

  /** How calls come about: one for each dispatch row under a budget, else up to `tries` for each. */
  datatype Mode = Mode(budgeted: bool, tries: nat) {
    predicate Calls() { budgeted || tries >= 1 }
  }

  /** The calls are those the trail reports. */
  ghost predicate Backed(catalog: Catalog, mode: Mode, rows: seq<Attempt>, calls: seq<Call>) {
    if mode.budgeted then Reported(catalog, rows, calls) else Grouped(catalog, mode.tries, rows, calls)
  }

  /** Behind every dispatch row there is a call to its route's provider for its model. */
  ghost predicate Carried(routes: seq<Route>, catalog: Catalog, rows: seq<Attempt>, calls: seq<Call>) {
    forall k :: 0 <= k < |rows| && rows[k].kind == Dispatch ==> Called(routes, catalog, calls, rows[k].route)
  }

  lemma DispatchCalled(routes: seq<Route>, catalog: Catalog, mode: Mode, rows: seq<Attempt>, calls: seq<Call>, k: nat)
    requires Chain(routes, catalog, rows) && Backed(catalog, mode, rows, calls) && mode.Calls()
    requires k < |rows| && rows[k].kind == Dispatch
    ensures Called(routes, catalog, calls, rows[k].route)
  {
    ChainRows(routes, catalog, rows, k);
    hide Chain, Grouped, Contacts, EndpointOf;
    var n;
    if mode.budgeted {
      n := ContactOfRow(catalog, rows, k);
      assert Seen(calls[n]) == ContactOf(catalog, rows[k]);
    } else {
      n := GroupedRowCalled(catalog, mode.tries, rows, calls, k);
    }
    assert IsCallOf(catalog, routes[rows[k].route], calls[n]);
  }

  /** Every dispatch was called, unless no tries are allowed at all; then nothing was. */
  lemma AllCarried(routes: seq<Route>, catalog: Catalog, mode: Mode, rows: seq<Attempt>, calls: seq<Call>)
    requires Chain(routes, catalog, rows) && Backed(catalog, mode, rows, calls)
    ensures if mode.Calls() then Carried(routes, catalog, rows, calls) else calls == []
  {
    hide Chain, Grouped, Reported, Called;
    if mode.Calls() {
      forall k | 0 <= k < |rows| && rows[k].kind == Dispatch ensures Called(routes, catalog, calls, rows[k].route) {
        DispatchCalled(routes, catalog, mode, rows, calls, k);
      }
    } else {
      NoTriesNoCalls(catalog, rows, calls);
    }
  }

  /** A trail that reached the end of the chain holds a dispatch to the last eligible route, and unless no tries
      are allowed its provider was called: cooldown never refused the last option. */
  lemma LastOptionDispatched(routes: seq<Route>, catalog: Catalog, mode: Mode, rows: seq<Attempt>, calls: seq<Call>,
                             last: nat)
    requires Chain(routes, catalog, rows) && Next(rows) == |routes| && IsLastEligible(routes, catalog, last)
    requires Backed(catalog, mode, rows, calls)
    ensures exists k :: DispatchOf(rows, last, k)
    ensures mode.Calls() ==> Called(routes, catalog, calls, last)
  {
    var k := LastOptionRow(routes, catalog, rows, last);
    if mode.Calls() {
      DispatchCalled(routes, catalog, mode, rows, calls, k);
    }
  }

  lemma LastOptionRow(routes: seq<Route>, catalog: Catalog, rows: seq<Attempt>, last: nat) returns (k: nat)
    requires Chain(routes, catalog, rows) && Next(rows) == |routes| && IsLastEligible(routes, catalog, last)
    ensures DispatchOf(rows, last, k)
  {
    k := ChainCovers(routes, catalog, rows, last);
    ChainRows(routes, catalog, rows, k);
    assert !LaterEligible(routes, catalog, last);
  }

  /** A served trail, or one that reached the end, follows every skip with a dispatch to a later route. */
  lemma SkipsAreFollowed(routes: seq<Route>, catalog: Catalog, rows: seq<Attempt>, k: nat)
    requires Chain(routes, catalog, rows) && k < |rows| && rows[k].kind == CooldownSkip
    requires Next(rows) == |routes| || rows[|rows| - 1].ok
    ensures exists m :: LaterDispatch(rows, k, m)
  {
    ChainRows(routes, catalog, rows, k);
    ChainRows(routes, catalog, rows, |rows| - 1);
    if rows[|rows| - 1].ok {
      assert LaterDispatch(rows, k, |rows| - 1);
    } else {
      var j :| 0 <= j < |routes| && rows[k].route < j && Eligible(catalog, routes[j]);
      var last := LastOf(routes, catalog, j);
      var m := LastOptionRow(routes, catalog, rows, last);
      if m <= k {
        ChainRows(routes, catalog, rows[..k + 1], m) by { ChainPrefix(routes, catalog, rows, k + 1); }
      }
      assert LaterDispatch(rows, k, m);
    }
  }

  lemma {:induction false} ChainPrefix(routes: seq<Route>, catalog: Catalog, rows: seq<Attempt>, n: nat)
    requires Chain(routes, catalog, rows) && n <= |rows|
    ensures Chain(routes, catalog, rows[..n])
    decreases |rows|
  {
    hide RowFits;
    if n < |rows| {
      ChainPrefix(routes, catalog, rows[..|rows| - 1], n);
      assert rows[..|rows| - 1][..n] == rows[..n];
    } else {
      assert rows[..n] == rows;
    }
  }

  /** Cooldown delayed but never refused: every skip is followed by a dispatch to a later route, and a
      failed call still tried its last eligible route. */
  ghost predicate NeverRefused(routes: seq<Route>, catalog: Catalog, rows: seq<Attempt>) {
    && (forall k: nat :: k < |rows| && rows[k].kind == CooldownSkip ==> exists m :: LaterDispatch(rows, k, m))
    && (rows == [] || !rows[|rows| - 1].ok ==>
          forall last: nat :: IsLastEligible(routes, catalog, last) ==> exists k :: DispatchOf(rows, last, k))
  }

  /** Both for whole trails, and every dispatch among them is a call, unless no tries are allowed. */
  lemma CooldownNeverRefuses(routes: seq<Route>, catalog: Catalog, mode: Mode, rows: seq<Attempt>, calls: seq<Call>)
    requires Chain(routes, catalog, rows) && (Next(rows) == |routes| || (rows != [] && rows[|rows| - 1].ok))
    requires Backed(catalog, mode, rows, calls)
    ensures NeverRefused(routes, catalog, rows)
    ensures if mode.Calls() then Carried(routes, catalog, rows, calls) else calls == []
  {
    hide Chain, RowFits, IsLastEligible, DispatchOf, LaterDispatch, Backed, Carried;
    AllCarried(routes, catalog, mode, rows, calls);
    forall k: nat | k < |rows| && rows[k].kind == CooldownSkip ensures exists m :: LaterDispatch(rows, k, m) {
      SkipsAreFollowed(routes, catalog, rows, k);
    }
    if rows == [] || !rows[|rows| - 1].ok {
      forall last: nat | IsLastEligible(routes, catalog, last) ensures exists k :: DispatchOf(rows, last, k) {
        var k := LastOptionRow(routes, catalog, rows, last);
      }
    }
  }

  /** `_closed_reason` */
  function ClosedReason(rows: seq<Attempt>, dispatched: nat): Reason {
    if dispatched > 0 then ProviderUnavailable
    else if rows != [] && (forall k :: 0 <= k < |rows| ==> rows[k].kind in {GridUnqualified, PaidUnqualified})
    then PolicyBlocked
    else ProviderUnavailable
  }

  lemma ClosedNotSuccess(rows: seq<Attempt>, dispatched: nat)
    ensures ClosedReason(rows, dispatched) in {PolicyBlocked, ProviderUnavailable}
  {
  }

  predicate PricedOut(catalog: Catalog, r: Route) {
    r.provider in catalog && catalog[r.provider].available && !catalog[r.provider].sovereign
  }

  /** After a complete walk, policy_blocked means exactly: nothing was ever dispatched and pricing alone
      refused every route of a non-empty chain. */
  lemma PolicyBlockedExact(routes: seq<Route>, catalog: Catalog, rows: seq<Attempt>, dispatched: nat)
    requires Chain(routes, catalog, rows) && Next(rows) == |routes|
    ensures ClosedReason(rows, dispatched) == PolicyBlocked <==>
            dispatched == 0 && routes != [] && forall i :: 0 <= i < |routes| ==> PricedOut(catalog, routes[i])
  {
    if ClosedReason(rows, dispatched) == PolicyBlocked {
      forall i | 0 <= i < |routes| ensures PricedOut(catalog, routes[i]) {
        var k := ChainCovers(routes, catalog, rows, i);
        ChainRows(routes, catalog, rows, k);
      }
    }
    if forall i :: 0 <= i < |routes| ==> PricedOut(catalog, routes[i]) {
      forall k | 0 <= k < |rows| ensures rows[k].kind in {GridUnqualified, PaidUnqualified} {
        ChainRows(routes, catalog, rows, k);
        assert PricedOut(catalog, routes[rows[k].route]);
      }
    }
  }

  // ----- the cooldown readings behind a trail -----

  /** The changes this call made to the cooldown table, without their times. */
  function Marks(events: seq<Cooldown.Event>): seq<Cooling> {
    if events == [] then []
    else
      var e := events[|events| - 1];
      Marks(events[..|events| - 1]) + if e.Own? then [Cooling(e.route, e.op.Clear?)] else []
  }

  /** Nothing but other threads' work since `before`. */
  predicate Quiet(before: seq<Cooldown.Event>, after: seq<Cooldown.Event>) {
    before <= after && forall k :: |before| <= k < |after| ==> after[k].Tick?
  }

  /** At some moment of this call the provider read as cooling, or as warm. */
  ghost predicate ReadCooling(w: Cooldown.World, from: nat, events: seq<Cooldown.Event>, name: string) {
    exists p :: from < p <= |events| && Cooldown.Reading(w, events[..p], name) > 0.0
  }

  ghost predicate ReadWarm(w: Cooldown.World, from: nat, events: seq<Cooldown.Event>, name: string) {
    exists p :: from < p <= |events| && Cooldown.Reading(w, events[..p], name) <= 0.0
  }

  /** A skip was written for a provider read as cooling while a later eligible one was read as warm; a dispatch
      for a provider read as warm, or when every later eligible one was read as cooling. */
  ghost predicate Decided(w: Cooldown.World, routes: seq<Route>, catalog: Catalog, from: nat,
                          events: seq<Cooldown.Event>, i: int, kind: Kind)
  {
    kind.CooldownSkip? || kind.Dispatch? ==>
      && 0 <= i < |routes|
      && if kind.CooldownSkip? then
           && ReadCooling(w, from, events, routes[i].provider)
           && exists j :: i < j < |routes| && Eligible(catalog,
                                                       routes[j]) && ReadWarm(w, from, events, routes[j].provider)
         else
           || ReadWarm(w, from, events, routes[i].provider)
           || forall j :: i < j < |routes| && Eligible(catalog, routes[j]) ==>
                ReadCooling(w, from, events, routes[j].provider)
  }

  /** The changes this call made are to the providers of its routes, at the time they were made. */
  predicate ByRoute(w: Cooldown.World, routes: seq<Route>, from: nat, events: seq<Cooldown.Event>) {
    forall k :: from <= k < |events| && events[k].Own? ==> OwnFits(w, routes, events, k)
  }

  predicate OwnFits(w: Cooldown.World, routes: seq<Route>, events: seq<Cooldown.Event>, k: nat)
    requires k < |events| && events[k].Own?
  {
    var e := events[k];
    && e.route < |routes| && e.op.name == routes[e.route].provider
    && (e.op.SetAt? ==> e.op.wall == Cooldown.WallAt(w, events[..k]))
  }

  /** What a call did to the cooldown table and read from it, told from its trail: exactly the changes the trail
      calls for, and a reading behind every decision. */
  ghost predicate Cooled(w: Cooldown.World, routes: seq<Route>, catalog: Catalog, start: seq<Cooldown.Event>,
                         events: seq<Cooldown.Event>, rows: seq<Attempt>)
  {
    && start <= events && Marks(events[|start|..]) == Coolings(rows) && ByRoute(w, routes, |start|, events)
    && forall k :: 0 <= k < |rows| ==> Decided(w, routes, catalog, |start|, events, rows[k].route, rows[k].kind)
  }

  lemma CooledStart(w: Cooldown.World, routes: seq<Route>, catalog: Catalog, start: seq<Cooldown.Event>)
    ensures Cooled(w, routes, catalog, start, start, [])
  {
  }

  lemma DecidedLater(w: Cooldown.World, routes: seq<Route>, catalog: Catalog, from: nat, events: seq<Cooldown.Event>,
                     later: seq<Cooldown.Event>, i: int, kind: Kind)
    requires Decided(w, routes, catalog, from, events, i, kind) && events <= later
    ensures Decided(w, routes, catalog, from, later, i, kind)
  {
    hide Cooldown.Reading;
    assert forall p :: 0 <= p <= |events| ==> later[..p] == events[..p];
  }

  lemma {:induction false} MarksQuiet(events: seq<Cooldown.Event>, more: seq<Cooldown.Event>)
    requires forall k :: 0 <= k < |more| ==> more[k].Tick?
    ensures Marks(events + more) == Marks(events)
    decreases |more|
  {
    if more == [] {
      assert events + more == events;
    } else {
      var all := events + more;
      assert all[..|all| - 1] == events + more[..|more| - 1];
      MarksQuiet(events, more[..|more| - 1]);
    }
  }

  /** Other threads' work changes nothing about what this call did and read. */
  lemma CooledQuiet(w: Cooldown.World, routes: seq<Route>, catalog: Catalog, start: seq<Cooldown.Event>,
                    events: seq<Cooldown.Event>, later: seq<Cooldown.Event>, rows: seq<Attempt>)
    requires Cooled(w, routes, catalog, start, events, rows) && Quiet(events, later)
    ensures Cooled(w, routes, catalog, start, later, rows)
  {
    hide Decided, Coolings, Eligible, Cooldown.WallAt;
    var more := later[|events|..];
    assert later[|start|..] == events[|start|..] + more;
    MarksQuiet(events[|start|..], more) by { hide Marks; }
    assert forall p :: 0 <= p <= |events| ==> later[..p] == events[..p];
    assert forall k :: 0 <= k < |events| ==> later[k] == events[k];
    forall k | 0 <= k < |rows| ensures Decided(w, routes, catalog, |start|, later, rows[k].route, rows[k].kind) {
      DecidedLater(w, routes, catalog, |start|, events, later, rows[k].route, rows[k].kind);
    }
  }

  /** A row that changes no cooldown. */
  lemma CooledRow(w: Cooldown.World, routes: seq<Route>, catalog: Catalog, start: seq<Cooldown.Event>,
                  events: seq<Cooldown.Event>, rows: seq<Attempt>, a: Attempt)
    requires Cooled(w, routes, catalog, start, events, rows) && a.kind != Dispatch
    requires Decided(w, routes, catalog, |start|, events, a.route, a.kind)
    ensures Cooled(w, routes, catalog, start, events, rows + [a])
  {
    hide Decided, Coolings, Marks, ByRoute;
    AppendCounts(rows, a);
  }

  /** The last event is this call's change for route `i`: set after a failure, cleared after a success. */
  predicate Marked(w: Cooldown.World, routes: seq<Route>, i: nat, ok: bool, before: seq<Cooldown.Event>,
                   after: seq<Cooldown.Event>)
  {
    && i < |routes| && |after| > |before|
    && var front := after[..|after| - 1];
    && Quiet(before, front)
    && after[|after| - 1] == Cooldown.Own(i,
         if ok then Cooldown.Clear(routes[i].provider)
         else Cooldown.SetAt(routes[i].provider, Cooldown.WallAt(w, front)))
  }

  lemma CooledMark(w: Cooldown.World, routes: seq<Route>, i: nat, ok: bool, start: seq<Cooldown.Event>,
                   before: seq<Cooldown.Event>, after: seq<Cooldown.Event>)
    requires start <= before && ByRoute(w, routes, |start|, before) && Marked(w, routes, i, ok, before, after)
    ensures before <= after && ByRoute(w, routes, |start|, after)
    ensures Marks(after[|start|..]) == Marks(before[|start|..]) + [Cooling(i, ok)]
  {
    hide Cooldown.WallAt;
    var front := after[..|after| - 1];
    var all := after[|start|..];
    assert all[..|all| - 1] == front[|start|..] == before[|start|..] + front[|before|..];
    MarksQuiet(before[|start|..], front[|before|..]);
    assert forall k :: 0 <= k < |before| ==> after[k] == before[k] && after[..k] == before[..k];
  }

  /** The dispatches of route `i` and the change that ended its turn. */
  lemma CooledServe(w: Cooldown.World, routes: seq<Route>, catalog: Catalog, i: nat, ok: bool,
                    start: seq<Cooldown.Event>, before: seq<Cooldown.Event>, after: seq<Cooldown.Event>,
                    trail: seq<Attempt>, rows: seq<Attempt>)
    requires Cooled(w, routes, catalog, start, before, trail) && Marked(w, routes, i, ok, before, after)
    requires Decided(w, routes, catalog, |start|, before, i, Dispatch) && Dispatched(trail, rows, i, ok)
    ensures Cooled(w, routes, catalog, start, after, rows)
  {
    CooledMark(w, routes, i, ok, start, before, after);
    hide Decided, Coolings, Marks, ByRoute, Marked;
    forall k | 0 <= k < |rows| ensures Decided(w, routes, catalog, |start|, after, rows[k].route, rows[k].kind) {
      if k < |trail| {
        assert rows[k] == trail[k];
      }
      DecidedLater(w, routes, catalog, |start|, before, after, rows[k].route, rows[k].kind);
    }
  }

  /** Some eligible route from `from` on was read as warm; every one before `to` was read as cooling. */
  ghost predicate WarmAmong(w: Cooldown.World, routes: seq<Route>, catalog: Catalog, from: nat, start: nat,
                            events: seq<Cooldown.Event>)
  {
    exists j :: from <= j < |routes| && Eligible(catalog, routes[j]) && ReadWarm(w, start, events, routes[j].provider)
  }

  ghost predicate CoolingAll(w: Cooldown.World, routes: seq<Route>, catalog: Catalog, from: nat, to: nat, start: nat,
                             events: seq<Cooldown.Event>)
    requires to <= |routes|
  {
    forall j :: from <= j < to && Eligible(catalog, routes[j]) ==> ReadCooling(w, start, events, routes[j].provider)
  }

  lemma CoolingNone(w: Cooldown.World, routes: seq<Route>, catalog: Catalog, from: nat, start: nat,
                    events: seq<Cooldown.Event>)
    requires from <= |routes|
    ensures CoolingAll(w, routes, catalog, from, from, start, events)
  {
  }

  lemma CoolingSkip(w: Cooldown.World, routes: seq<Route>, catalog: Catalog, from: nat, j: nat, start: nat,
                    events: seq<Cooldown.Event>)
    requires j < |routes| && CoolingAll(w, routes, catalog, from, j, start, events) && !Eligible(catalog, routes[j])
    ensures CoolingAll(w, routes, catalog, from, j + 1, start, events)
  {
    hide Eligible, ReadCooling;
  }

  lemma ReadLater(w: Cooldown.World, start: nat, events: seq<Cooldown.Event>, later: seq<Cooldown.Event>, name: string)
    requires events <= later
    ensures ReadCooling(w, start, events, name) ==> ReadCooling(w, start, later, name)
    ensures ReadWarm(w, start, events, name) ==> ReadWarm(w, start, later, name)
  {
    hide Cooldown.Reading;
    assert forall p :: 0 <= p <= |events| ==> later[..p] == events[..p];
  }

  /** A reading right now. */
  lemma ReadNow(w: Cooldown.World, start: nat, events: seq<Cooldown.Event>, name: string)
    requires start < |events|
    ensures if Cooldown.Reading(w, events, name) > 0.0 then ReadCooling(w, start, events, name)
            else ReadWarm(w, start, events, name)
  {
    hide Cooldown.Reading;
    assert events[..|events|] == events;
  }

  lemma CoolingMore(w: Cooldown.World, routes: seq<Route>, catalog: Catalog, from: nat, j: nat, start: nat,
                    before: seq<Cooldown.Event>, events: seq<Cooldown.Event>)
    requires j < |routes| && CoolingAll(w, routes, catalog, from, j, start, before)
    requires before <= events && start < |events| && Cooldown.Reading(w, events, routes[j].provider) > 0.0
    ensures CoolingAll(w, routes, catalog, from, j + 1, start, events)
  {
    hide Eligible, ReadCooling, Cooldown.Reading;
    forall k | from <= k < j + 1 && Eligible(catalog, routes[k])
      ensures ReadCooling(w, start, events, routes[k].provider)
    {
      if k < j {
        ReadLater(w, start, before, events, routes[k].provider);
      } else {
        ReadNow(w, start, events, routes[j].provider);
      }
    }
  }

  lemma WarmFound(w: Cooldown.World, routes: seq<Route>, catalog: Catalog, from: nat, j: nat, start: nat,
                  events: seq<Cooldown.Event>)
    requires from <= j < |routes| && Eligible(catalog, routes[j]) && start < |events|
    requires Cooldown.Reading(w, events, routes[j].provider) <= 0.0
    ensures WarmAmong(w, routes, catalog, from, start, events)
  {
    ReadNow(w, start, events, routes[j].provider);
  }

  lemma WarmDecides(w: Cooldown.World, routes: seq<Route>, catalog: Catalog, start: nat, events: seq<Cooldown.Event>,
                    i: nat)
    requires i < |routes| && start < |events| && Cooldown.Reading(w, events, routes[i].provider) <= 0.0
    ensures Decided(w, routes, catalog, start, events, i, Dispatch)
  {
    hide Cooldown.Reading;
    ReadNow(w, start, events, routes[i].provider);
  }

  /** The scan of the later routes after a cooling one decides. */
  lemma ScanDecides(w: Cooldown.World, routes: seq<Route>, catalog: Catalog, start: seq<Cooldown.Event>,
                    first: seq<Cooldown.Event>, events: seq<Cooldown.Event>, i: nat, warm: bool)
    requires i < |routes| && |start| < |first| && Quiet(first, events)
    requires Cooldown.Reading(w, first, routes[i].provider) > 0.0
    requires if warm then WarmAmong(w, routes, catalog, i + 1, |first|, events)
             else CoolingAll(w, routes, catalog, i + 1, |routes|, |first|, events)
    ensures Decided(w, routes, catalog, |start|, events, i, if warm then CooldownSkip else Dispatch)
  {
    hide Cooldown.Reading, Eligible;
    ReadNow(w, |start|, first, routes[i].provider);
    ReadLater(w, |start|, first, events, routes[i].provider);
    if warm {
      var j :| i + 1 <= j < |routes| && Eligible(catalog, routes[j])
               && ReadWarm(w, |first|, events, routes[j].provider);
      assert ReadWarm(w, |start|, events, routes[j].provider);
    } else {
      forall j | i < j < |routes| && Eligible(catalog, routes[j])
        ensures ReadCooling(w, |start|, events, routes[j].provider)
      {
        assert ReadCooling(w, |first|, events, routes[j].provider);
      }
    }
  }

  /** A reading of a later stretch of a call is a reading of the call. */
  lemma DecidedWider(w: Cooldown.World, routes: seq<Route>, catalog: Catalog, from: nat, start: nat,
                     events: seq<Cooldown.Event>, i: int, kind: Kind)
    requires from <= start && Decided(w, routes, catalog, start, events, i, kind)
    ensures Decided(w, routes, catalog, from, events, i, kind)
  {
    hide Cooldown.Reading, Eligible;
  }

  lemma StartsBefore(w: Cooldown.World, routes: seq<Route>, catalog: Catalog, start: seq<Cooldown.Event>,
                     events: seq<Cooldown.Event>, rows: seq<Attempt>)
    requires Cooled(w, routes, catalog, start, events, rows)
    ensures start <= events
  {
  }

  lemma SkipLeaves(w: Cooldown.World, routes: seq<Route>, catalog: Catalog, from: nat, events: seq<Cooldown.Event>,
                   i: nat)
    requires Decided(w, routes, catalog, from, events, i, CooldownSkip)
    ensures LaterEligible(routes, catalog, i)
  {
    hide Cooldown.Reading, Eligible;
  }

  lemma MarkedAfter(w: Cooldown.World, routes: seq<Route>, i: nat, ok: bool, start: seq<Cooldown.Event>,
                    middle: seq<Cooldown.Event>, after: seq<Cooldown.Event>)
    requires Quiet(start, middle) && Marked(w, routes, i, ok, middle, after)
    ensures Marked(w, routes, i, ok, start, after)
  {
    hide Cooldown.WallAt;
    assert forall k :: 0 <= k < |middle| ==> after[..|after| - 1][k] == middle[k];
  }

  lemma OneTick(before: seq<Cooldown.Event>)
    ensures Quiet(before, before + [Cooldown.Tick])
  {
  }

  /** The tries of one route, and the row they end in. */
  lemma TriedRow(catalog: Catalog, tries: nat, r: Route, a: Attempt, o: Outcome, g: seq<Call>)
    requires r.provider in catalog && a.provider == r.provider && a.model == r.model && |g| <= tries
    requires forall k :: 0 <= k < |g| ==> g[k].endpoint == catalog[r.provider].endpoint && g[k].model == r.model
    requires forall k :: 0 <= k < |g| - 1 ==> Transient(OutcomeOf(g[k].reply))
    requires if tries < 1 then o == Failed(false) && g == [] else g != [] && o == OutcomeOf(g[|g| - 1].reply)
    requires a.status == match o case Served => Some(200) case Http(code) => Some(code) case _ => None
    ensures Tried(catalog, tries, a, g)
  {
  }

  /** A row that is no dispatch has no calls behind it. */
  lemma RefusalBacked(catalog: Catalog, tries: nat, rows: seq<Attempt>, calls: seq<Call>, a: Attempt)
    requires a.kind != Dispatch
    ensures Reported(catalog, rows, calls) ==> Reported(catalog, rows + [a], calls)
    ensures Grouped(catalog, tries, rows, calls) ==> Grouped(catalog, tries, rows + [a], calls)
  {
    AppendContact(catalog, rows, a);
    if Grouped(catalog, tries, rows, calls) {
      GroupedOn(catalog, tries, rows, calls, a, []);
      assert calls + [] == calls;
    }
  }

  // ----- the engine -----

  /** The meters when a call starts. */
  datatype Start = Start(
    flags: seq<bool>, calls: seq<Call>, sends: nat, reserved: nat, unsent: nat, now: real, lag: real, stopped: bool,
    log: seq<Op>, events: seq<Cooldown.Event>, judged: seq<bool>)

  /** How `chat` ends; `RouterError` carries the terminal reason of the budget, if there is one. */
  datatype Result =
    | Answer(attempts: seq<Attempt>)
    | RouterError(attempts: seq<Attempt>, reason: Option<Reason>)
    | ValueError

  predicate BadTimeout(timeout: Number) { timeout.NotFinite? || timeout.v <= 0.0 }

  function Flags(rows: seq<Row>): seq<bool> {
    if rows == [] then [] else Flags(rows[..|rows| - 1]) + [rows[|rows| - 1].known]
  }

  /** What other threads may do to the budget while this call waits: cancel it or close it. */
  predicate Meddled(s: State, t: State) {
    t == s.(cancelled := t.cancelled, terminal := t.terminal) && StopsKept(s, t)
  }

  predicate StopsKept(s: State, t: State) {
    (s.cancelled ==> t.cancelled) && (s.terminal.Some? ==> t.terminal == s.terminal)
  }

  function Max(a: real, b: real): real { if a >= b then a else b }

  function Tries(retryMax: int): nat { if retryMax > 0 then retryMax else 0 }

  /** What the route loop does after a route. */
  datatype Turn = Onward | Halt | Serve

  /** How one provider's turn in `_post_with_retry` ends; `Stopped` is BudgetStop. */
  datatype Outcome = Served | Http(status: int) | Failed(network: bool) | BudgetStop

  predicate Transient(o: Outcome) { (o.Http? && Retryable(o.status)) || o == Failed(true) }

  function OutcomeOf(r: ConnectionPool.Reply): Outcome {
    match r
    case Body => Served
    case HttpStatus(code) => Http(code)
    case NetworkError => Failed(true)
    case OtherError => Failed(false)
  }

  /** The failures worth another try are a connection error and five statuses; every other status is final. */
  lemma TransientExact(r: ConnectionPool.Reply)
    ensures Transient(OutcomeOf(r)) <==>
            || r == ConnectionPool.NetworkError
            || (r.HttpStatus? && (r.status == 429 || r.status == 500 || 502 <= r.status <= 504))
  {
  }

  predicate AllTransient(replies: seq<ConnectionPool.Reply>) {
    forall k :: 0 <= k < |replies| ==> Transient(OutcomeOf(replies[k]))
  }

  /** Every reply but the last was a failure worth retrying. */
  predicate OnlyTransient(replies: seq<ConnectionPool.Reply>) {
    forall k :: 0 <= k < |replies| - 1 ==> Transient(OutcomeOf(replies[k]))
  }

  /** The trail grew by one row for each reply of route `i`. */
  predicate RowsOf(routes: seq<Route>, i: nat, trail: seq<Attempt>, rows: seq<Attempt>,
                   replies: seq<ConnectionPool.Reply>)
    requires i < |routes|
  {
    && |rows| == |trail| + |replies| && trail <= rows
    && forall k :: 0 <= k < |replies| ==> rows[|trail| + k] == DispatchRow(routes, i, replies[k])
  }

  lemma OneMore(routes: seq<Route>, i: nat, trail: seq<Attempt>, rows: seq<Attempt>, replies: seq<ConnectionPool.Reply>,
                r: ConnectionPool.Reply)
    requires i < |routes| && RowsOf(routes, i, trail, rows, replies) && AllTransient(replies)
    ensures RowsOf(routes, i, trail, rows + [DispatchRow(routes, i, r)], replies + [r])
    ensures OnlyTransient(replies) && OnlyTransient(replies + [r])
    ensures Transient(OutcomeOf(r)) ==> AllTransient(replies + [r])
    ensures rows == trail <==> replies == []
  {
    hide DispatchRow;
  }

  /** The retry loop is between two dispatches of route `i`. */
  ghost predicate Underway(routes: seq<Route>, catalog: Catalog, i: nat, trail: seq<Attempt>, rows: seq<Attempt>,
                           replies: seq<ConnectionPool.Reply>)
    requires i < |routes|
  {
    && Chain(routes, catalog, rows) && RowsOf(routes, i, trail, rows, replies) && AllTransient(replies)
    && if replies == [] then rows == trail else Dispatched(trail, rows, i, false)
  }

  /** The retry loop may end with these rows. */
  ghost predicate Retried(routes: seq<Route>, catalog: Catalog, i: nat, trail: seq<Attempt>, rows: seq<Attempt>,
                          replies: seq<ConnectionPool.Reply>)
    requires i < |routes|
  {
    && Chain(routes, catalog, rows) && RowsOf(routes, i, trail, rows, replies) && OnlyTransient(replies)
    && if replies == [] then rows == trail else Dispatched(trail, rows, i, OutcomeOf(replies[|replies| - 1]).Served?)
  }

  /** A status that makes a reply is an error. */
  predicate Erred(replies: seq<ConnectionPool.Reply>) {
    forall k :: 0 <= k < |replies| && replies[k].HttpStatus? ==> replies[k].status >= 400
  }

  /** The judgements made between `before` and `after` are those of the rows added to `trail`. */
  predicate Judged(before: seq<bool>, after: seq<bool>, trail: seq<Attempt>, rows: seq<Attempt>) {
    before <= after && Verdicts(rows) == Verdicts(trail) + after[|before|..]
  }

  lemma JudgedNone(before: seq<bool>, trail: seq<Attempt>, rows: seq<Attempt>)
    requires Verdicts(rows) == Verdicts(trail)
    ensures Judged(before, before, trail, rows)
  {
    hide Verdicts;
  }

  lemma JudgedOne(before: seq<bool>, ok: bool, trail: seq<Attempt>, rows: seq<Attempt>)
    requires Verdicts(rows) == Verdicts(trail) + [ok]
    ensures Judged(before, before + [ok], trail, rows)
  {
    hide Verdicts;
  }

  lemma JudgedOn(start: seq<bool>, before: seq<bool>, after: seq<bool>, trail: seq<Attempt>, rows: seq<Attempt>)
    requires start <= before && before[|start|..] == Verdicts(trail) && Judged(before, after, trail, rows)
    ensures start <= after && after[|start|..] == Verdicts(rows)
  {
    hide Verdicts;
    assert after[|start|..] == before[|start|..] + after[|before|..];
  }

  /** Only the last reply of a turn can be a response to judge. */
  lemma {:induction false} RetriedVerdicts(routes: seq<Route>, i: nat, trail: seq<Attempt>, rows: seq<Attempt>,
                                           replies: seq<ConnectionPool.Reply>)
    requires i < |routes| && RowsOf(routes, i, trail, rows, replies) && OnlyTransient(replies)
    requires Erred(replies)
    ensures Verdicts(rows) == Verdicts(trail) + if replies != [] && replies[|replies| - 1].Body? then [true] else []
    ensures replies != [] && replies[|replies| - 1].Body? ==>
              rows != [] && rows[|rows| - 1].kind == Dispatch && rows[|rows| - 1].status == Some(200)
    decreases |replies|
  {
    if replies == [] {
      assert rows == trail;
    } else {
      var n := |replies| - 1;
      var front := rows[..|rows| - 1];
      RetriedVerdicts(routes, i, trail, front, replies[..n]);
      assert n > 0 ==> Transient(OutcomeOf(replies[n - 1]));
      assert rows[|trail| + n] == DispatchRow(routes, i, replies[n]);
    }
  }

  lemma Begun(routes: seq<Route>, catalog: Catalog, i: nat, trail: seq<Attempt>)
    requires i < |routes| && Chain(routes, catalog, trail)
    ensures Underway(routes, catalog, i, trail, trail, [])
  {
    hide Chain;
  }

  lemma Ends(routes: seq<Route>, catalog: Catalog, i: nat, trail: seq<Attempt>, rows: seq<Attempt>,
             replies: seq<ConnectionPool.Reply>)
    requires i < |routes| && Underway(routes, catalog, i, trail, rows, replies)
    ensures Retried(routes, catalog, i, trail, rows, replies) && (rows == trail <==> replies == [])
  {
    hide Chain, DispatchRow;
    assert forall k :: 0 <= k < |replies| ==> Transient(OutcomeOf(replies[k]));
  }

  lemma Advances(routes: seq<Route>, catalog: Catalog, i: nat, trail: seq<Attempt>, rows: seq<Attempt>,
                 replies: seq<ConnectionPool.Reply>, r: ConnectionPool.Reply)
    requires Chain(routes, catalog, trail) && Next(trail) == i < |routes| && (trail != [] ==> !trail[|trail| - 1].ok)
    requires Underway(routes, catalog, i, trail, rows, replies) && RowFits(routes, catalog, DispatchRow(routes, i, r))
    ensures Retried(routes, catalog, i, trail, rows + [DispatchRow(routes, i, r)], replies + [r])
    ensures Transient(OutcomeOf(r)) ==>
              Underway(routes, catalog, i, trail, rows + [DispatchRow(routes, i, r)], replies + [r])
  {
    hide Chain, RowFits, Dispatched, RowsOf, AllTransient, OnlyTransient;
    OneMore(routes, i, trail, rows, replies, r);
    AppendDispatch(routes, catalog, trail, rows, DispatchRow(routes, i, r));
  }

  // ----- the budget operations behind a call -----

  /** Another thread's cancel or close. */
  predicate FromOther(op: Op) { (op.OpCancel? || op.OpClose?) && op.who == Other }

  /** At this point a reservation has no attempt or no time left, or a backoff would leave none. */
  predicate OutOfBudget(s: State, op: Op) {
    match op
    case OpReserve(_, Finite(now)) => s.reserved >= s.maxAttempts || now >= s.deadline
    case OpBackoff(Finite(delay), now) =>
      s.reserved >= s.maxAttempts || (now.Finite? && now.v + delay >= s.deadline)
    case _ => false
  }

  /** After the first `from` operations another thread cancelled or closed the budget, or this call ran out of it. */
  ghost predicate Cause(start: State, log: seq<Op>, from: nat) {
    exists k :: from <= k < |log| && (FromOther(log[k]) || OutOfBudget(Run(start, log[..k]), log[k]))
  }

  /** What a call may do to its budget before it ends: reserve, note and ask for backoffs. If that stopped the
      budget, there was a cause. */
  ghost predicate Orderly(start: State, before: seq<Op>, after: seq<Op>) {
    && before <= after
    && (forall k :: |before| <= k < |after| ==>
          after[k].OpReserve? || after[k].OpNote? || after[k].OpBackoff? || FromOther(after[k]))
    && (IsStopped(Run(start, after)) ==> IsStopped(Run(start, before)) || Cause(start, after, |before|))
  }

  /** A turn's operations: orderly, and for one that served, one success mark at the end. */
  ghost predicate Settled(start: State, before: seq<Op>, after: seq<Op>, turn: Turn) {
    if turn.Serve? then EndsWith(start, before, after, OpSuccess) else Orderly(start, before, after)
  }

  /** Orderly up to the last operation, which ends the call. */
  ghost predicate EndsWith(start: State, before: seq<Op>, after: seq<Op>, op: Op) {
    after != [] && after[|after| - 1] == op && Orderly(start, before, after[..|after| - 1])
  }

  /** How a whole call leaves its budget: marked a success at the very end, or closed at the very end for the
      reason `closed`, or neither; then it was stopped before the call, or there was a cause. */
  ghost predicate Ended(start: State, before: seq<Op>, after: seq<Op>, served: bool, closed: Option<Reason>) {
    if served then EndsWith(start, before, after, OpSuccess)
    else if closed.Some? then EndsWith(start, before, after, OpClose(closed.value, Own))
    else Orderly(start, before, after) && (IsStopped(Run(start, before)) || Cause(start, after, |before|))
  }

  lemma EndedStopped(b: Budget, before: seq<Op>)
    requires b.Sound() && b.terminal.Some? && Orderly(b.start, before, b.log)
    ensures Ended(b.start, before, b.log, false, None)
  {
    hide Run, Cause;
  }

  lemma SettledTrans(start: State, a: seq<Op>, b: seq<Op>, c: seq<Op>, turn: Turn)
    requires Orderly(start, a, b) && Settled(start, b, c, turn)
    ensures Settled(start, a, c, turn)
  {
    hide Orderly;
    if turn.Serve? {
      OrderlyTrans(start, a, b, c[..|c| - 1]);
    } else {
      OrderlyTrans(start, a, b, c);
    }
  }

  lemma OrderlyNone(start: State, log: seq<Op>)
    ensures Orderly(start, log, log)
  {
  }

  lemma OrderlyPrefix(start: State, before: seq<Op>, after: seq<Op>)
    requires Orderly(start, before, after)
    ensures before <= after
  {
    hide Run, Cause;
  }

  lemma OrderlyTrans(start: State, a: seq<Op>, b: seq<Op>, c: seq<Op>)
    requires Orderly(start, a, b) && Orderly(start, b, c)
    ensures Orderly(start, a, c) && a <= b <= c
  {
    hide Run, IsStopped, FromOther, OutOfBudget;
    assert forall k :: 0 <= k < |b| ==> c[k] == b[k] && c[..k] == b[..k];
  }

  lemma OrderlyStep(start: State, log: seq<Op>, op: Op)
    requires op.OpReserve? || op.OpNote? || op.OpBackoff? || FromOther(op)
    requires var s := Run(start, log); IsStopped(Step(s, op).0) ==> IsStopped(s) || FromOther(op) || OutOfBudget(s, op)
    ensures Orderly(start, log, log + [op])
  {
    hide Step, IsStopped, FromOther, OutOfBudget;
    RunConcat(start, log, [op]);
    assert [op][1..] == [] && (log + [op])[..|log|] == log && (log + [op])[|log|] == op;
  }

  lemma OrderlyReserve(start: State, log: seq<Op>, timeout: Number, now: Number)
    ensures Orderly(start, log, log + [OpReserve(timeout, now)])
  {
    hide Run;
    OrderlyStep(start, log, OpReserve(timeout, now));
  }

  lemma OrderlyNote(start: State, log: seq<Op>, attempt: int, known: bool)
    ensures Orderly(start, log, log + [OpNote(attempt, known)])
  {
    hide Run;
    OrderlyStep(start, log, OpNote(attempt, known));
  }

  lemma OrderlyBackoff(start: State, log: seq<Op>, delay: Number, now: Number)
    ensures Orderly(start, log, log + [OpBackoff(delay, now)])
  {
    hide Run;
    OrderlyStep(start, log, OpBackoff(delay, now));
  }

  lemma OrderlyOther(start: State, log: seq<Op>, op: Op)
    requires FromOther(op)
    ensures Orderly(start, log, log + [op])
  {
    hide Run;
    OrderlyStep(start, log, op);
  }

  /** The note and the trail row after a newly reserved dispatch. */
  lemma NoteLast(s: State, known: bool)
    requires Valid(s) && s.dispatches != []
    ensures var (t, r) := NoteOutcomeStep(s, s.reserved, known);
            && r == Done && t.reserved == s.reserved && t.terminal == s.terminal && t.cancelled == s.cancelled
            && Flags(t.dispatches) == Flags(s.dispatches[..s.reserved - 1]) + [known]
  {
    var n := s.reserved;
    assert s.dispatches[n - 1].attempt == n && Find(s.dispatches, n) == n - 1;
    var t := NoteOutcomeStep(s, n, known).0;
    assert t.dispatches[..n - 1] == s.dispatches[..n - 1];
  }

  class Router {
    const catalog: Catalog
    const retryMax: int
    const pool: ConnectionPool.HttpPool
    const table: Cooldown.Table
    var now: real
    /** Time that passed outside authorised sends and accepted backoffs. */
    ghost var lag: real
    /** Every call of the poster, and how many of them failed before any request was started. */
    ghost var calls: seq<Call>
    ghost var unsent: nat
    /** For every response that was looked at, whether it is a chat completion. */
    ghost var judged: seq<bool>

    constructor (catalog: Catalog, retryMax: int, pool: ConnectionPool.HttpPool, table: Cooldown.Table, now: real)
      ensures this.catalog == catalog && this.retryMax == retryMax && this.pool == pool && this.table == table
      ensures this.now == now && calls == [] && unsent == 0
    {
      this.catalog, this.retryMax, this.pool, this.table, this.now := catalog, retryMax, pool, table, now;
      lag, calls, unsent, judged := 0.0, [], 0, [];
    }

    /** Everything a budgeted call has spent so far, read off its trail: for each dispatch row, in order, one
        poster call to its provider for its model with its status, one reservation and one dispatch record,
        known exactly when the row has a status; and one started request for each of them, but for the
        poster calls that failed before any request. The clock stays within the deadline, except for time
        other threads took; a budget stopped before the call spends nothing. */
    ghost predicate Accounted(b: Budget, s: Start, trail: seq<Attempt>)
      reads this, pool, table, b
    {
      && pool.Valid() && table.Valid() && b.Sound()
      && s.calls <= calls && Reported(catalog, trail, calls[|s.calls|..])
      && Flags(b.dispatches) == s.flags + Outcomes(trail)
      && |calls| - |s.calls| == b.reserved - s.reserved == |Outcomes(trail)|
      && (pool.sends - s.sends) + (unsent - s.unsent) == |Outcomes(trail)|
      && pool.sends >= s.sends && unsent >= s.unsent
      && s.log <= b.log
      && lag >= s.lag
      && now <= Max(s.now, b.deadline) + lag - s.lag
      && (s.stopped ==> Outcomes(trail) == [] && (b.cancelled || b.terminal.Some?))
    }

    /** Other threads: the clock moves on, cooldowns change, the budget may be cancelled or closed. */
    method Interfere(b: Budget?)
      requires table.Valid() && (b != null ==> b.Sound())
      modifies this`now, this`lag, table, b
      ensures table.Valid() && table.events == old(table.events) + [Cooldown.Tick]
      ensures now - old(now) == lag - old(lag) >= 0.0
      ensures b != null ==> b.Sound() && Meddled(old(b.Abs()), b.Abs()) && Orderly(b.start, old(b.log), b.log)
    {
      hide Cooldown.Table.Valid, Run, Cooldown.Changes, Orderly;
      var wait: real := *;
      if wait > 0.0 {
        now := now + wait;
        lag := lag + wait;
      }
      table.Others();
      if b != null {
        var cancels, closes, reason := *, *, *;
        OrderlyNone(b.start, b.log);
        if cancels {
          OrderlyOther(b.start, b.log, OpCancel(Other));
          b.Cancel(Other);
        }
        if closes {
          OrderlyOther(b.start, b.log, OpClose(reason, Other));
          OrderlyTrans(b.start, old(b.log), b.log, b.log + [OpClose(reason, Other)]);
          var _ := b.Close(reason, Other);
        }
      }
    }

    /** `_post_chat`: print the payload, then one call into the pool. A payload that is not JSON, a URL that does
        not parse and a connection object that cannot be made fail before any request is started. A budgeted
        call returns within its window. */
    method Post(key: ConnectionPool.Key, model: string, budgeted: bool, window: real) returns (r: ConnectionPool.Reply)
      requires pool.Valid() && window >= 0.0
      modifies this`now, this`calls, this`unsent, pool
      ensures pool.Valid() && calls == old(calls) + [Call(key, model, r)]
      ensures old(pool.wire) <= pool.wire
      ensures if pool.wire == old(pool.wire) then r == ConnectionPool.OtherError
              else ConnectionPool.Answered(budgeted, pool.wire[|old(pool.wire)|..], r)
      ensures pool.sends != old(pool.sends) ==>
                old(pool.calls) in pool.pool.calls && pool.pool.calls[old(pool.calls)].key == key
      ensures unsent - old(unsent) == if pool.sends == old(pool.sends) then 1 else 0
      ensures 0 <= pool.sends - old(pool.sends) <= if budgeted then 1 else 2
      ensures old(now) <= now && (budgeted ==> now <= old(now) + window)
      ensures r.HttpStatus? ==> r.status >= 400
    {
      var prints := *;
      if !prints {
        unsent := unsent + 1;
        r := ConnectionPool.OtherError;
        calls := calls + [Call(key, model, r)];
        return;
      }
      ghost var es, first;
      r, es, first := pool.RequestJson(key, budgeted);
      calls := calls + [Call(key, model, r)];
      if first.None? {
        unsent := unsent + 1;
      }
      var took: real := *;
      if 0.0 <= took && (budgeted ==> took <= window) {
        now := now + took;
      }
    }

    /** `_chat_response_error` on the last response. */
    method Judge() returns (wellFormed: bool)
      modifies this`judged
      ensures judged == old(judged) + [wellFormed]
    {
      wellFormed := *;
      judged := judged + [wellFormed];
    }

    /** A reserved dispatch: send it and note what is known of its outcome. */
    method Deliver(b: Budget, key: ConnectionPool.Key, model: string, attempt: nat, window: real)
      returns (r: ConnectionPool.Reply)
      requires pool.Valid() && table.Valid() && b.Sound() && window >= 0.0 && attempt == b.reserved > 0
      modifies this`now, this`lag, this`calls, this`unsent, pool, table, b
      ensures pool.Valid() && table.Valid() && b.Sound() && StopsKept(old(b.Abs()), b.Abs())
      ensures Quiet(old(table.events), table.events) && Orderly(b.start, old(b.log), b.log)
      ensures calls == old(calls) + [Call(key, model, r)] && b.reserved == old(b.reserved)
      ensures (pool.sends - old(pool.sends)) + (unsent - old(unsent)) == 1 && pool.sends >= old(pool.sends)
      ensures unsent >= old(unsent)
      ensures Flags(b.dispatches) == old(Flags(b.dispatches[..b.reserved - 1])) + [r.Body? || r.HttpStatus?]
      ensures lag >= old(lag) && now <= old(now) + window + lag - old(lag)
      ensures r.HttpStatus? ==> r.status >= 400
    {
      hide Flags, AnyUnknown, Run, ConnectionPool.HttpPool.Valid, Cooldown.Table.Valid;
      hide Orderly;
      Interfere(b);
      r := Post(key, model, true, window);
      ghost var sent := b.log;
      Interfere(b);
      OrderlyTrans(b.start, old(b.log), sent, b.log);
      OrderlyNote(b.start, b.log, attempt, r.Body? || r.HttpStatus?);
      OrderlyTrans(b.start, old(b.log), b.log, b.log + [OpNote(attempt, r.Body? || r.HttpStatus?)]);
      NoteLast(b.Abs(), r.Body? || r.HttpStatus?);
      var _ := b.NoteOutcome(attempt, r.Body? || r.HttpStatus?);
    }

    /** One turn of the budgeted loop: reserve, then deliver. */
    method SendOnce(b: Budget, key: ConnectionPool.Key, model: string, timeout: Number)
      returns (g: Reply, r: ConnectionPool.Reply)
      requires pool.Valid() && table.Valid() && b.Sound() && timeout.Finite? && timeout.v > 0.0
      modifies this`now, this`lag, this`calls, this`unsent, pool, table, b
      ensures pool.Valid() && table.Valid() && b.Sound() && StopsKept(old(b.Abs()), b.Abs())
      ensures Quiet(old(table.events), table.events) && Orderly(b.start, old(b.log), b.log)
      ensures g.Granted? || g.Stopped?
      ensures calls == old(calls) + if g.Granted? then [Call(key, model, r)] else []
      ensures g.Granted? ==> !old(b.cancelled) && old(b.terminal).None?
      ensures var n := if g.Granted? then 1 else 0;
              b.reserved == old(b.reserved) + n
              && (pool.sends - old(pool.sends)) + (unsent - old(unsent)) == n
      ensures pool.sends >= old(pool.sends) && unsent >= old(unsent)
      ensures Flags(b.dispatches) == old(Flags(b.dispatches)) + if g.Granted? then [r.Body? || r.HttpStatus?] else []
      ensures g.Stopped? ==> b.terminal.Some?
      ensures lag >= old(lag) && now <= Max(old(now), b.deadline) + lag - old(lag)
      ensures r.HttpStatus? ==> r.status >= 400
    {
      hide Flags, AnyUnknown, Run, ConnectionPool.HttpPool.Valid, Cooldown.Table.Valid;
      hide Orderly;
      Interfere(b);
      ghost var before := b.dispatches;
      OrderlyReserve(b.start, b.log, timeout, Finite(now));
      OrderlyTrans(b.start, old(b.log), b.log, b.log + [OpReserve(timeout, Finite(now))]);
      ghost var authorised := b.log + [OpReserve(timeout, Finite(now))];
      g := b.Reserve(timeout, Finite(now));
      if g.Stopped? {
        r := ConnectionPool.OtherError;
        return;
      }
      assert b.dispatches[..b.reserved - 1] == before;
      r := Deliver(b, key, model, g.attempt, g.sendTimeout);
      OrderlyTrans(b.start, old(b.log), authorised, b.log);
    }

    /** Accept the wait and sleep it out, or refuse. */
    method Backoff(b: Budget, trail: seq<Attempt>, ghost s: Start) returns (allowed: bool, delay: real)
      requires Accounted(b, s, trail)
      modifies this`now, this`lag, table, b
      ensures Accounted(b, s, trail) && Quiet(old(table.events), table.events)
      ensures Orderly(b.start, old(b.log), b.log)
      ensures !allowed ==> b.terminal.Some?
      ensures delay >= 0.0 && now - old(now) == (if allowed then delay else 0.0) + lag - old(lag)
      ensures b.reserved == old(b.reserved)
    {
      hide Orderly;
      hide Flags, Outcomes, AnyUnknown, Run, Reported, ConnectionPool.HttpPool.Valid, Cooldown.Table.Valid;
      delay := *;
      if delay < 0.0 {
        delay := 0.0;
      }
      Interfere(b);
      OrderlyBackoff(b.start, b.log, Finite(delay), Finite(now));
      ghost var asked := b.log + [OpBackoff(Finite(delay), Finite(now))];
      OrderlyTrans(b.start, old(b.log), b.log, asked);
      var r := b.AllowBackoff(Finite(delay), Finite(now));
      if !r.ok {
        return false, delay;
      }
      Interfere(b);
      OrderlyTrans(b.start, old(b.log), asked, b.log);
      now := now + delay;
      return true, delay;
    }

    /** One turn of the budgeted loop, with its row in the trail. */
    method Try(routes: seq<Route>, i: nat, b: Budget, timeout: Number, rows: seq<Attempt>, ghost s: Start)
      returns (g: Reply, r: ConnectionPool.Reply, rows': seq<Attempt>)
      requires Accounted(b, s, rows) && timeout.Finite? && timeout.v > 0.0
      requires i < |routes| && Eligible(catalog, routes[i])
      modifies this`now, this`lag, this`calls, this`unsent, pool, table, b
      ensures Accounted(b, s, rows') && Quiet(old(table.events), table.events)
      ensures Orderly(b.start, old(b.log), b.log)
      ensures g.Stopped? ==> rows' == rows && b.terminal.Some?
      ensures !g.Stopped? ==> b.reserved == old(b.reserved) + 1 && rows' == rows + [DispatchRow(routes, i, r)]
      ensures !g.Stopped? ==> RowFits(routes, catalog, DispatchRow(routes, i, r))
      ensures r.HttpStatus? ==> r.status >= 400
    {
      hide Flags, Outcomes, Coolings, AnyUnknown, Run, Reported, ConnectionPool.HttpPool.Valid, Cooldown.Table.Valid;
      hide Quiet, Orderly;
      ghost var before := calls[|s.calls|..];
      var key, model := catalog[routes[i].provider].endpoint, routes[i].model;
      g, r := SendOnce(b, key, model, timeout);
      OrderlyPrefix(b.start, old(b.log), b.log);
      rows' := rows;
      if g.Granted? {
        var a := DispatchRow(routes, i, r);
        assert s.calls <= calls;
        ReportedOn(catalog, rows, before, a, Call(key, model, r));
        assert calls[|s.calls|..] == before + [Call(key, model, r)];
        AppendCounts(rows, a);
        assert Flags(b.dispatches) == s.flags + Outcomes(rows + [a]);
        rows' := rows + [a];
      } else {
        assert calls[|s.calls|..] == before;
      }
    }

    /** `_post_with_retry` with a budget; every dispatch appends its row to the trail. `replies` are what the
        dispatches came to: all but the last are transient failures. */
    method PostBudgeted(routes: seq<Route>, i: nat, b: Budget, timeout: Number, trail: seq<Attempt>, ghost s: Start)
      returns (o: Outcome, rows: seq<Attempt>, ghost replies: seq<ConnectionPool.Reply>)
      requires Accounted(b, s, trail) && timeout.Finite? && timeout.v > 0.0
      requires Chain(routes, catalog, trail) && Next(trail) == i < |routes| && Eligible(catalog, routes[i])
      requires trail != [] ==> !trail[|trail| - 1].ok
      modifies this`now, this`lag, this`calls, this`unsent, pool, table, b
      ensures Accounted(b, s, rows) && Quiet(old(table.events), table.events)
      ensures Orderly(b.start, old(b.log), b.log)
      ensures Retried(routes, catalog, i, trail, rows, replies)
      ensures o.BudgetStop? ==> replies == [] && b.terminal.Some?
      ensures !o.BudgetStop? ==> replies != [] && o == OutcomeOf(replies[|replies| - 1])
      ensures Transient(o) ==> b.terminal.Some?
      ensures Erred(replies)
    {
      hide Underway, Retried, RowFits, DispatchRow, Coolings, Outcomes, Flags, AnyUnknown, Run, Reported;
      hide ConnectionPool.HttpPool.Valid, Cooldown.Table.Valid, Orderly;
      Begun(routes, catalog, i, trail);
      OrderlyNone(b.start, b.log);
      rows, replies := trail, [];
      var last: Outcome := Failed(false);
      while true
        invariant Accounted(b, s, rows) && Quiet(old(table.events), table.events)
        invariant Orderly(b.start, old(b.log), b.log)
        invariant Underway(routes, catalog, i, trail, rows, replies)
        invariant replies != [] ==> last == OutcomeOf(replies[|replies| - 1]) && Transient(last)
        invariant Erred(replies)
        decreases b.maxAttempts - b.reserved
      {
        ghost var before := b.log;
        var g, r, more := Try(routes, i, b, timeout, rows, s);
        OrderlyTrans(b.start, old(b.log), before, b.log);
        Ends(routes, catalog, i, trail, rows, replies);
        if g.Stopped? {
          return if rows == trail then BudgetStop else last, rows, replies;
        }
        Advances(routes, catalog, i, trail, rows, replies, r);
        rows, replies := more, replies + [r];
        last := OutcomeOf(r);
        if !Transient(last) {
          return last, rows, replies;
        }
        ghost var tried := b.log;
        var allowed, _ := Backoff(b, rows, s);
        OrderlyTrans(b.start, old(b.log), tried, b.log);
        if !allowed {
          return last, rows, replies;
        }
      }
    }

    // ----- without a budget -----

    /** What an unbudgeted call has spent so far, read off its trail: for each dispatch row, in order, its tries. */
    ghost predicate Rationed(s: Start, trail: seq<Attempt>)
      reads this, pool, table
    {
      && pool.Valid() && table.Valid()
      && s.calls <= calls && Grouped(catalog, Tries(retryMax), trail, calls[|s.calls|..])
      && s.unsent <= unsent <= s.unsent + (|calls| - |s.calls|)
      && |calls| - |s.calls| - (unsent - s.unsent) <= pool.sends - s.sends
      && pool.sends - s.sends <= 2 * (|calls| - |s.calls| - (unsent - s.unsent))
    }

    /** `_post_with_retry` without a budget: only transient failures are retried, at most `retryMax` tries.
        `more` are the calls it made. */
    method PostUnbudgeted(key: ConnectionPool.Key, model: string) returns (o: Outcome, ghost more: seq<Call>)
      requires pool.Valid()
      modifies this`now, this`calls, this`unsent, pool
      ensures pool.Valid() && calls == old(calls) + more && |more| <= Tries(retryMax)
      ensures o.Http? ==> o.status >= 400
      ensures old(unsent) <= unsent <= old(unsent) + |more|
      ensures |more| - (unsent - old(unsent)) <= pool.sends - old(pool.sends)
      ensures pool.sends - old(pool.sends) <= 2 * (|more| - (unsent - old(unsent)))
      ensures forall k :: 0 <= k < |more| ==> more[k].endpoint == key && more[k].model == model
      ensures forall k :: 0 <= k < |more| - 1 ==> Transient(OutcomeOf(more[k].reply))
      ensures if retryMax < 1 then o == Failed(false) && more == []
              else more != [] && o == OutcomeOf(more[|more| - 1].reply)
      ensures Transient(o) ==> |more| == retryMax
    {
      hide ConnectionPool.HttpPool.Valid;
      o := Failed(false);
      more := [];
      var attempt := 0;
      while attempt < retryMax
        invariant 0 <= attempt <= Tries(retryMax) && |more| == attempt
        invariant pool.Valid() && calls == old(calls) + more
        invariant old(unsent) <= unsent <= old(unsent) + attempt
        invariant attempt - (unsent - old(unsent)) <= pool.sends - old(pool.sends)
        invariant pool.sends - old(pool.sends) <= 2 * (attempt - (unsent - old(unsent)))
        invariant forall k :: 0 <= k < |more| ==>
                    && more[k].endpoint == key && more[k].model == model && Transient(OutcomeOf(more[k].reply))
        invariant if attempt == 0 then o == Failed(false) else o == OutcomeOf(more[attempt - 1].reply)
        invariant o.Http? ==> o.status >= 400
      {
        var r := Post(key, model, false, 0.0);
        more := more + [Call(key, model, r)];
        match r {
          case Body => return Served, more;
          case HttpStatus(code) =>
            o := Http(code);
            if !Retryable(code) {
              return;
            }
          case NetworkError => o := Failed(true);
          case OtherError => return Failed(false), more;
        }
        attempt := attempt + 1;
      }
    }

    // ----- cooldown -----

    /** `_warm_candidate_later`, while other threads change cooldowns. */
    method WarmCandidateLater(routes: seq<Route>, from: nat, b: Budget?) returns (warm: bool)
      requires from <= |routes| && table.Valid() && (b != null ==> b.Sound())
      modifies this`now, this`lag, table, b
      ensures table.Valid() && Quiet(old(table.events), table.events)
      ensures now - old(now) == lag - old(lag) >= 0.0
      ensures b != null ==> b.Sound() && Meddled(old(b.Abs()), b.Abs()) && Orderly(b.start, old(b.log), b.log)
      ensures warm ==> WarmAmong(table.world, routes, catalog, from, |old(table.events)|, table.events)
      ensures !warm ==> CoolingAll(table.world, routes, catalog, from, |routes|, |old(table.events)|, table.events)
    {
      hide Cooldown.Table.Valid, CoolingAll, WarmAmong, Eligible, Run, Orderly;
      var j := from;
      if b != null {
        OrderlyNone(b.start, b.log);
      }
      ghost var start := table.events;
      CoolingNone(table.world, routes, catalog, from, |start|, start);
      while j < |routes|
        invariant from <= j <= |routes| && table.Valid() && Quiet(start, table.events)
        invariant now - old(now) == lag - old(lag) >= 0.0
        invariant b != null ==> b.Sound() && Meddled(old(b.Abs()), b.Abs()) && Orderly(b.start, old(b.log), b.log)
        invariant CoolingAll(table.world, routes, catalog, from, j, |start|, table.events)
      {
        if Eligible(catalog, routes[j]) {
          ghost var before := table.events;
          ghost var log := if b == null then [] else b.log;
          Interfere(b);
          if b != null {
            OrderlyTrans(b.start, old(b.log), log, b.log);
          }
          var left := table.Remaining(routes[j].provider);
          if left <= 0.0 {
            WarmFound(table.world, routes, catalog, from, j, |start|, table.events);
            return true;
          }
          CoolingMore(table.world, routes, catalog, from, j, |start|, before, table.events);
        } else {
          CoolingSkip(table.world, routes, catalog, from, j, |start|, table.events);
        }
        j := j + 1;
      }
      return false;
    }

    // ----- one route -----

    ghost predicate Metered(b: Budget?, s: Start, trail: seq<Attempt>)
      reads this, pool, table, b
    {
      if b == null then Rationed(s, trail) else Accounted(b, s, trail)
    }

    /** This call's changes to the cooldown table and the readings behind its decisions are told by its trail. */
    ghost predicate Chilled(routes: seq<Route>, s: Start, trail: seq<Attempt>)
      reads this, table
    {
      Cooled(table.world, routes, catalog, s.events, table.events, trail)
    }

    /** The responses judged so far are those of the trail, and a row is a success exactly if it was judged one. */
    ghost predicate Weighed(s: Start, trail: seq<Attempt>)
      reads this
    {
      s.judged <= judged && judged[|s.judged|..] == Verdicts(trail)
    }

    /** The route loop is at route `i`. */
    ghost predicate Ready(routes: seq<Route>, i: nat, b: Budget?, timeout: Number, trail: seq<Attempt>, s: Start)
      reads this, pool, table, b
    {
      && Metered(b, s, trail) && (b != null ==> !BadTimeout(timeout))
      && Chain(routes, catalog, trail) && Next(trail) == i < |routes|
      && (trail != [] ==> !trail[|trail| - 1].ok)
      && Chilled(routes, s, trail) && Weighed(s, trail) && (b != null ==> Orderly(b.start, s.log, b.log))
    }

    /** The loop has dealt with route `i`; it halts only on a stopped budget. */
    ghost predicate Taken(routes: seq<Route>, i: nat, b: Budget?, trail: seq<Attempt>, s: Start, turn: Turn,
                          rows: seq<Attempt>)
      reads this, pool, table, b
    {
      && Metered(b, s, rows) && Chain(routes, catalog, rows) && Chilled(routes, s, rows) && Weighed(s, rows)
      && (b != null ==> Settled(b.start, s.log, b.log, turn))
      && (turn.Halt? ==> b != null)
      && (turn.Halt? || (turn.Serve? && b != null) ==> b.terminal.Some?)
      && ((rows == trail && turn.Halt?) || Next(rows) == i + 1)
      && (if turn.Serve? then rows != [] && rows[|rows| - 1].ok else rows != [] ==> !rows[|rows| - 1].ok)
      && (b == null ==> |rows| == |trail| + 1)
    }

    /** The dispatching half of a turn, unbudgeted: one row for the whole sequence of tries. */
    method ServeUnbudgeted(routes: seq<Route>, i: nat, trail: seq<Attempt>, ghost s: Start)
      returns (turn: Turn, rows: seq<Attempt>)
      requires Rationed(s, trail) && Chain(routes, catalog, trail) && Next(trail) == i < |routes|
      requires Eligible(catalog, routes[i])
      requires trail != [] ==> !trail[|trail| - 1].ok
      modifies this, pool, table
      ensures Rationed(s, rows) && Chain(routes, catalog, rows) && |rows| == |trail| + 1
      ensures Dispatched(trail, rows, i, turn.Serve?) && !turn.Halt?
      ensures Marked(table.world, routes, i, turn.Serve?, old(table.events), table.events)
      ensures Judged(old(judged), judged, trail, rows)
    {
      hide Verdicts;
      hide Chain, RowFits, Coolings, Outcomes, Grouped, Tried, Marked, ConnectionPool.HttpPool.Valid;
      hide Cooldown.Table.Valid;
      ghost var before := calls[|s.calls|..];
      var key, model := catalog[routes[i].provider].endpoint, routes[i].model;
      var o;
      ghost var more;
      o, more := PostUnbudgeted(key, model);
      var ok := false;
      if o.Served? {
        ok := Judge();
      }
      var a := At(routes, i, Dispatch, ok,
                  match o case Served => Some(200) case Http(code) => Some(code) case _ => None);
      TriedRow(catalog, Tries(retryMax), routes[i], a, o, more);
      GroupedOn(catalog, Tries(retryMax), trail, before, a, more);
      assert calls[|s.calls|..] == before + more;
      AppendVerdict(trail, a);
      AppendDispatch(routes, catalog, trail, trail, a) by {
        assert RowFits(routes, catalog, a) by { FitsDispatch(routes, catalog, a); }
      }
      rows := trail + [a];
      turn := Finish(routes, i, ok);
    }

    /** The end of a dispatched route: clear its provider's cooldown, or set it. */
    method Finish(routes: seq<Route>, i: nat, ok: bool) returns (turn: Turn)
      requires table.Valid() && i < |routes|
      modifies table
      ensures table.Valid() && turn == (if ok then Serve else Onward)
      ensures Marked(table.world, routes, i, ok, old(table.events), table.events)
    {
      hide Cooldown.Table.Valid, Cooldown.WallAt;
      ghost var before := table.events;
      if ok {
        table.Clear(routes[i].provider, i);
        turn := Serve;
      } else {
        table.Set(routes[i].provider, i);
        turn := Onward;
      }
      assert table.events[..|before|] == before;
    }

    /** The dispatching half of a turn, budgeted. */
    method ServeBudgeted(routes: seq<Route>, i: nat, b: Budget, timeout: Number, trail: seq<Attempt>, ghost s: Start)
      returns (turn: Turn, rows: seq<Attempt>)
      requires Accounted(b, s, trail) && timeout.Finite? && timeout.v > 0.0
      requires Chain(routes, catalog, trail) && Next(trail) == i < |routes| && Eligible(catalog, routes[i])
      requires trail != [] ==> !trail[|trail| - 1].ok
      modifies this, pool, table, b
      ensures Accounted(b, s, rows) && Chain(routes, catalog, rows)
      ensures turn.Halt? || turn.Serve? ==> b.terminal.Some?
      ensures Settled(b.start, old(b.log), b.log, turn)
      ensures Judged(old(judged), judged, trail, rows)
      ensures if rows == trail then turn.Halt? && Quiet(old(table.events), table.events)
              else && Dispatched(trail, rows, i, turn.Serve?)
                   && Marked(table.world, routes, i, turn.Serve?, old(table.events), table.events)
    {
      hide Chain, RowFits, Coolings, Outcomes, Flags, AnyUnknown, Label, Max, Spoil, Eligible, Reported, Marked, Quiet;
      hide ConnectionPool.HttpPool.Valid, Cooldown.Table.Valid, RowsOf, OnlyTransient, Orderly;
      ghost var start := table.events;
      var o;
      ghost var replies;
      o, rows, replies := PostBudgeted(routes, i, b, timeout, trail, s);
      RetriedVerdicts(routes, i, trail, rows, replies);
      hide Verdicts, Judged, Erred, Retried;
      if !o.Served? {
        JudgedNone(judged, trail, rows);
      }
      if o.BudgetStop? {
        return Halt, rows;
      }
      ghost var middle, log := table.events, b.log;
      if !o.Served? {
        var _ := Finish(routes, i, false);
        MarkedAfter(table.world, routes, i, false, start, middle, table.events);
        return if b.terminal.Some? then Halt else Onward, rows;
      }
      turn, rows := Weigh(routes, i, b, trail, rows, s);
      JudgedOne(old(judged), turn.Serve?, trail, rows);
      assert (log + [OpSuccess])[..|log|] == log;
      MarkedAfter(table.world, routes, i, turn.Serve?, start, middle, table.events);
    }

    /** A response came: it serves if it is a chat completion, else its row becomes a failure. */
    method Weigh(routes: seq<Route>, i: nat, b: Budget, trail: seq<Attempt>, served: seq<Attempt>, ghost s: Start)
      returns (turn: Turn, rows: seq<Attempt>)
      requires Accounted(b, s, served) && Chain(routes, catalog, served) && i < |routes|
      requires Dispatched(trail, served, i, true) && served[|served| - 1].status == Some(200)
      requires Verdicts(served) == Verdicts(trail) + [true]
      modifies this`judged, table, b`terminal, b`log
      ensures Accounted(b, s, rows) && Chain(routes, catalog, rows) && !turn.Halt?
      ensures turn.Serve? ==> b.terminal.Some? && b.log == old(b.log) + [OpSuccess]
      ensures turn.Onward? ==> b.log == old(b.log)
      ensures judged == old(judged) + [turn.Serve?] && Verdicts(rows) == Verdicts(trail) + [turn.Serve?]
      ensures Dispatched(trail, rows, i, turn.Serve?)
      ensures Marked(table.world, routes, i, turn.Serve?, old(table.events), table.events)
    {
      hide Chain, RowFits, Coolings, Outcomes, Flags, AnyUnknown, Label, Max, Eligible, Reported, Marked, Verdicts;
      hide ConnectionPool.HttpPool.Valid, Cooldown.Table.Valid;
      rows := served;
      var wellFormed := Judge();
      if !wellFormed {
        SpoilVerdict(rows, Verdicts(trail));
        SpoilKeeps(routes, catalog, trail, rows, i);
        hide Dispatched, Spoil;
        rows := Spoil(rows);
        turn := Finish(routes, i, false);
        return;
      }
      b.MarkSuccess();
      turn := Finish(routes, i, true);
    }

    /** Time passes while other threads run. */
    method Wait(b: Budget?, trail: seq<Attempt>, ghost s: Start)
      requires Metered(b, s, trail)
      modifies this`now, this`lag, table, b
      ensures Metered(b, s, trail)
      ensures table.events == old(table.events) + [Cooldown.Tick]
      ensures b != null ==> Meddled(old(b.Abs()), b.Abs()) && Orderly(b.start, old(b.log), b.log)
    {
      hide Orderly;
      hide Grouped, Reported, Outcomes, Flags, Run, Cooldown.Table.Valid;
      Interfere(b);
      if b != null {
        OrderlyPrefix(b.start, old(b.log), b.log);
      }
    }

    /** Whether route `i` is passed over: its provider was read as cooling and a later eligible one as warm. */
    method Passed(routes: seq<Route>, i: nat, b: Budget?, trail: seq<Attempt>, ghost s: Start) returns (skip: bool)
      requires Metered(b, s, trail) && i < |routes|
      modifies this`now, this`lag, table, b
      ensures Metered(b, s, trail) && Quiet(old(table.events), table.events)
      ensures b != null ==> Orderly(b.start, old(b.log), b.log)
      ensures Decided(table.world, routes, catalog, |old(table.events)|, table.events, i,
                      if skip then CooldownSkip else Dispatch)
    {
      hide Outcomes, Flags, AnyUnknown, Eligible, Tries, Grouped, Reported, Run, Cooldown.Table.Valid, Decided;
      hide Cooldown.Reading, Orderly;
      ghost var start := table.events;
      Wait(b, trail, s);
      ghost var first := table.events;
      ghost var log := if b == null then [] else b.log;
      var left := table.Remaining(routes[i].provider);
      assert first[..|first|] == first;
      if left <= 0.0 {
        WarmDecides(table.world, routes, catalog, |start|, first, i);
        return false;
      }
      skip := WarmCandidateLater(routes, i + 1, b);
      if b != null {
        OrderlyTrans(b.start, old(b.log), log, b.log);
      }
      ScanDecides(table.world, routes, catalog, start, first, table.events, i, skip);
    }

    /** A row for a route that is not dispatched. */
    method Refuse(routes: seq<Route>, i: nat, b: Budget?, trail: seq<Attempt>, ghost s: Start, kind: Kind)
      returns (rows: seq<Attempt>)
      requires Metered(b, s, trail) && Chain(routes, catalog, trail) && Next(trail) == i < |routes| && !kind.Dispatch?
      requires trail != [] ==> !trail[|trail| - 1].ok
      requires RowFits(routes, catalog, At(routes, i, kind, false, None))
      ensures rows == trail + [At(routes, i, kind, false, None)]
      ensures Metered(b, s, rows) && Chain(routes, catalog, rows) && Next(rows) == i + 1
      ensures Coolings(rows) == Coolings(trail) && Verdicts(rows) == Verdicts(trail)
    {
      hide Chain, Coolings, Outcomes, Flags, RowFits, Reported, Grouped, Run;
      var a := At(routes, i, kind, false, None);
      AppendRefusal(routes, catalog, trail, a);
      AppendVerdict(trail, a);
      rows := trail + [a];
      RefusalBacked(catalog, Tries(retryMax), trail, calls[|s.calls|..], a);
    }

    /** The turn of a route whose provider is available and sovereign. */
    method Consult(routes: seq<Route>, i: nat, b: Budget?, timeout: Number, trail: seq<Attempt>, ghost s: Start)
      returns (turn: Turn, rows: seq<Attempt>)
      requires Ready(routes, i, b, timeout, trail, s) && Eligible(catalog, routes[i])
      modifies this, pool, table, b
      ensures Taken(routes, i, b, trail, s, turn, rows)
    {
      hide Chain, RowFits, Coolings, Outcomes, Flags, Rationed, Accounted, Eligible, Cooled, Quiet, Verdicts, Taken;
      hide Orderly;
      ghost var start := table.events;
      StartsBefore(table.world, routes, catalog, s.events, start, trail);
      var skip := Passed(routes, i, b, trail, s);
      if b != null {
        OrderlyTrans(b.start, s.log, old(b.log), b.log);
      }
      CooledQuiet(table.world, routes, catalog, s.events, start, table.events, trail);
      DecidedWider(table.world, routes, catalog, |s.events|, |start|, table.events, i,
                   if skip then CooldownSkip else Dispatch);
      hide Decided;
      if skip {
        turn := Onward;
        rows := PassOver(routes, i, b, timeout, trail, s);
      } else {
        turn, rows := Send(routes, i, b, timeout, trail, s);
      }
    }

    /** A route passed over. */
    method PassOver(routes: seq<Route>, i: nat, b: Budget?, timeout: Number, trail: seq<Attempt>, ghost s: Start)
      returns (rows: seq<Attempt>)
      requires Ready(routes, i, b, timeout, trail, s) && Eligible(catalog, routes[i])
      requires Decided(table.world, routes, catalog, |s.events|, table.events, i, CooldownSkip)
      ensures Taken(routes, i, b, trail, s, Onward, rows)
    {
      hide Chain, RowFits, Coolings, Outcomes, Flags, Rationed, Accounted, Eligible, Cooled, Verdicts, Orderly;
      SkipLeaves(table.world, routes, catalog, |s.events|, table.events, i);
      FitsSkip(routes, catalog, i);
      rows := Refuse(routes, i, b, trail, s, CooldownSkip);
      CooledRow(table.world, routes, catalog, s.events, table.events, trail, At(routes, i, CooldownSkip, false, None));
    }

    /** A route dispatched to. */
    method Send(routes: seq<Route>, i: nat, b: Budget?, timeout: Number, trail: seq<Attempt>, ghost s: Start)
      returns (turn: Turn, rows: seq<Attempt>)
      requires Ready(routes, i, b, timeout, trail, s) && Eligible(catalog, routes[i])
      requires Decided(table.world, routes, catalog, |s.events|, table.events, i, Dispatch)
      modifies this, pool, table, b
      ensures Taken(routes, i, b, trail, s, turn, rows)
    {
      hide Chain, RowFits, Coolings, Outcomes, Flags, Rationed, Accounted, Eligible, Cooled, Quiet, Marked, Decided;
      hide Verdicts, Judged, Orderly;
      ghost var start := table.events;
      ghost var log := if b == null then [] else b.log;
      if b == null {
        turn, rows := ServeUnbudgeted(routes, i, trail, s);
      } else {
        turn, rows := ServeBudgeted(routes, i, b, timeout, trail, s);
        SettledTrans(b.start, s.log, log, b.log, turn);
      }
      JudgedOn(s.judged, old(judged), judged, trail, rows);
      if rows == trail {
        CooledQuiet(table.world, routes, catalog, s.events, start, table.events, trail);
      } else {
        CooledServe(table.world, routes, catalog, i, turn.Serve?, s.events, start, table.events, trail, rows);
      }
    }

    /** A route refused for a reason other than cooldown. */
    method Turned(routes: seq<Route>, i: nat, b: Budget?, timeout: Number, trail: seq<Attempt>, ghost s: Start,
                  kind: Kind)
      returns (rows: seq<Attempt>)
      requires Ready(routes, i, b, timeout, trail, s) && !kind.Dispatch? && !kind.CooldownSkip?
      requires RowFits(routes, catalog, At(routes, i, kind, false, None))
      ensures Taken(routes, i, b, trail, s, Onward, rows)
    {
      hide Chain, Coolings, Outcomes, Flags, Rationed, Accounted, Cooled, RowFits;
      rows := Refuse(routes, i, b, trail, s, kind);
      CooledRow(table.world, routes, catalog, s.events, table.events, trail, At(routes, i, kind, false, None));
    }

    /** One turn of the route loop. */
    method Visit(routes: seq<Route>, i: nat, b: Budget?, timeout: Number, trail: seq<Attempt>, ghost s: Start)
      returns (turn: Turn, rows: seq<Attempt>)
      requires Ready(routes, i, b, timeout, trail, s)
      modifies this, pool, table, b
      ensures Taken(routes, i, b, trail, s, turn, rows)
    {
      hide Chain, Coolings, Outcomes, Flags, Rationed, Accounted, Cooled;
      var name := routes[i].provider;
      if name !in catalog || !catalog[name].available {
        rows := Turned(routes, i, b, timeout, trail, s, Unavailable);
        return Onward, rows;
      }
      var tier := TierOf(catalog[name]);
      if tier == UnqualifiedGrid {
        rows := Turned(routes, i, b, timeout, trail, s, GridUnqualified);
        return Onward, rows;
      }
      if tier == PaidGrid {
        rows := Turned(routes, i, b, timeout, trail, s, PaidUnqualified);
        return Onward, rows;
      }
      turn, rows := Consult(routes, i, b, timeout, trail, s);
    }

    // ----- the whole call -----

    ghost predicate Walked(routes: seq<Route>, b: Budget?, s: Start, turn: Turn, rows: seq<Attempt>)
      reads this, pool, table, b
    {
      && Metered(b, s, rows) && Chain(routes, catalog, rows) && Chilled(routes, s, rows) && Weighed(s, rows)
      && (turn.Halt? ==> b != null)
      && (turn.Halt? || (turn.Serve? && b != null) ==> b.terminal.Some?)
      && (if turn.Serve? then rows != [] && rows[|rows| - 1].ok else rows != [] ==> !rows[|rows| - 1].ok)
      && (b == null ==> |rows| == Next(rows))
    }

    /** From any moment of the budget's history at which it was cancelled or closed, this call's own moments
        included, no further attempt was reserved. */
    ghost predicate NothingAfterStop(b: Budget)
      reads b
    {
      forall k :: 0 <= k <= |b.log| && IsStopped(Run(b.start, b.log[..k])) ==>
          Run(b.start, b.log[..k]).reserved == b.reserved
    }

    lemma SoundStops(b: Budget)
      requires b.Sound()
      ensures NothingAfterStop(b)
    {
      hide Run, IsStopped;
      forall k | 0 <= k <= |b.log| && IsStopped(Run(b.start, b.log[..k]))
        ensures Run(b.start, b.log[..k]).reserved == b.reserved
      {
        NothingReservedAfterStop(b.start, b.log, k);
      }
    }

    lemma MeteredValid(b: Budget?, s: Start, rows: seq<Attempt>)
      requires Metered(b, s, rows)
      ensures pool.Valid() && table.Valid() && (b != null ==> b.Sound())
      ensures s.calls <= calls && Backed(catalog, ModeOf(b), rows, calls[|s.calls|..])
      ensures b != null ==> s.log <= b.log && NothingAfterStop(b)
      ensures b != null ==>
                && (pool.sends - s.sends <= |calls| - |s.calls| == b.reserved - s.reserved)
                && (pool.sends - s.sends == |calls| - |s.calls| <==> unsent == s.unsent)
    {
      if b != null {
        SoundStops(b);
      }
      hide NothingAfterStop, Reported, Grouped;
    }

    /** With a budget one call for each row, without one up to `retryMax`. */
    function ModeOf(b: Budget?): Mode { Mode(b != null, Tries(retryMax)) }

    lemma WithinRoutes(routes: seq<Route>, s: Start, rows: seq<Attempt>)
      requires Rationed(s, rows) && Chain(routes, catalog, rows) && |rows| == Next(rows)
      ensures |calls| <= |s.calls| + |routes| * Tries(retryMax)
    {
      hide RowFits;
      AtMostRows(rows);
      NextAtMost(routes, catalog, rows);
      GroupedCount(catalog, Tries(retryMax), rows, calls[|s.calls|..]);
      RowsTimesTries(|Outcomes(rows)|, |routes|, Tries(retryMax));
    }

    lemma StartMetered(routes: seq<Route>, b: Budget?, s: Start)
      requires pool.Valid() && table.Valid() && (b != null ==> b.Sound()) && s == StartOf(b)
      ensures Metered(b, s, []) && Chain(routes, catalog, []) && Chilled(routes, s, []) && Weighed(s, [])
    {
      CooledStart(table.world, routes, catalog, table.events);
      assert calls[|calls|..] == [];
    }

    ghost function StartOf(b: Budget?): Start
      reads this, pool, table, b
    {
      Start(if b == null then [] else Flags(b.dispatches), calls, pool.sends, if b == null then 0 else b.reserved,
            unsent, now, lag, b != null && (b.cancelled || b.terminal.Some?), if b == null then [] else b.log,
            table.events, judged)
    }

    /** Nothing was ever dispatched, and pricing alone refused every route of a non-empty chain. */
    predicate PolicyOnly(routes: seq<Route>, reserved: nat) {
      reserved == 0 && routes != [] && forall i :: 0 <= i < |routes| ==> PricedOut(catalog, routes[i])
    }

    /** The end of a failed call with a budget. */
    method CloseOut(routes: seq<Route>, b: Budget, turn: Turn, rows: seq<Attempt>, ghost s: Start)
      returns (ghost closed: Option<Reason>)
      requires Walked(routes, b, s, turn, rows) && !turn.Serve? && (turn.Onward? ==> Next(rows) == |routes|)
      requires Orderly(b.start, s.log, b.log)
      modifies this`now, this`lag, table, b
      ensures Walked(routes, b, s, Halt, rows) && calls == old(calls) && b.Sound()
      ensures closed.Some? ==> Next(rows) == |routes| && b.terminal == closed
      ensures closed.Some? ==> (closed == Some(PolicyBlocked) <==> PolicyOnly(routes, b.reserved))
      ensures closed in {None, Some(PolicyBlocked), Some(ProviderUnavailable)}
      ensures closed.None? ==> Orderly(b.start, s.log, b.log)
      ensures closed.Some? ==> EndsWith(b.start, s.log, b.log, OpClose(closed.value, Own))
    {
      hide Orderly;
      hide Chain, Coolings, Outcomes, Flags, PricedOut, ClosedReason, Cooled, Reported, Run, Cooldown.Table.Valid;
      closed := None;
      ghost var start := table.events;
      Wait(b, rows, s);
      OrderlyTrans(b.start, s.log, old(b.log), b.log);
      CooledQuiet(table.world, routes, catalog, s.events, start, table.events, rows);
      if b.terminal.None? {
        PolicyBlockedExact(routes, catalog, rows, b.reserved);
        ClosedNotSuccess(rows, b.reserved);
        ghost var front := b.log;
        var _ := b.Close(ClosedReason(rows, b.reserved));
        assert b.log[..|front|] == front;
        closed := b.terminal;
      }
    }

    /** What a whole call leaves behind, told from its trail: the account, the cooldown changes and readings,
        the budget's stops, and the calls behind the dispatches. */
    ghost predicate Told(routes: seq<Route>, b: Budget?, s: Start, rows: seq<Attempt>)
      reads this, pool, table, b
    {
      && pool.Valid() && table.Valid() && (b != null ==> b.Sound())
      && Chain(routes, catalog, rows) && Metered(b, s, rows) && Chilled(routes, s, rows) && Weighed(s, rows)
      && s.calls <= calls && Backed(catalog, ModeOf(b), rows, calls[|s.calls|..])
      && (b != null ==>
            && (pool.sends - s.sends <= |calls| - |s.calls| == b.reserved - s.reserved)
            && (pool.sends - s.sends == |calls| - |s.calls| <==> unsent == s.unsent)
            && s.log <= b.log && NothingAfterStop(b))
      && (b == null ==> |rows| == Next(rows) && |calls| <= |s.calls| + |routes| * Tries(retryMax))
    }

    lemma Tell(routes: seq<Route>, b: Budget?, s: Start, turn: Turn, rows: seq<Attempt>)
      requires Walked(routes, b, s, turn, rows)
      ensures Told(routes, b, s, rows) && s.calls <= calls
    {
      hide Chain, Coolings, Outcomes, Flags, Rationed, Accounted, Cooled, Backed, NothingAfterStop;
      MeteredValid(b, s, rows);
      if b == null {
        WithinRoutes(routes, s, rows);
      }
    }

    /** Cooldown delayed but never refused, in the trail and in the calls behind it; with no tries allowed
        there are no calls at all. */
    ghost predicate Kept(routes: seq<Route>, b: Budget?, rows: seq<Attempt>, made: seq<Call>)
      reads this
    {
      && NeverRefused(routes, catalog, rows)
      && if ModeOf(b).Calls() then Carried(routes, catalog, rows, made) else made == []
    }

    lemma TellKept(routes: seq<Route>, b: Budget?, s: Start, rows: seq<Attempt>)
      requires Told(routes, b, s, rows) && (Next(rows) == |routes| || (rows != [] && rows[|rows| - 1].ok))
      ensures s.calls <= calls && Kept(routes, b, rows, calls[|s.calls|..])
    {
      hide Chain, Coolings, Outcomes, Flags, Rationed, Accounted, Cooled, Backed, NothingAfterStop, NeverRefused;
      hide Carried;
      CooldownNeverRefuses(routes, catalog, ModeOf(b), rows, calls[|s.calls|..]);
    }

    lemma WalkEnds(routes: seq<Route>, b: Budget?, s: Start, turn: Turn, rows: seq<Attempt>)
      requires Walked(routes, b, s, turn, rows)
      ensures turn.Serve? ==> rows != [] && rows[|rows| - 1].ok
      ensures !turn.Serve? ==> rows == [] || !rows[|rows| - 1].ok
      ensures turn.Halt? ==> b != null
      ensures turn.Halt? || (turn.Serve? && b != null) ==> b.terminal.Some?
    {
    }

    lemma StartCalls(b: Budget?)
      ensures StartOf(b).calls == calls && (b != null ==> StartOf(b).log == b.log)
    {
    }

    lemma WalkSettles(start: State, before: seq<Op>, after: seq<Op>, turn: Turn)
      requires Settled(start, before, after, turn)
      ensures turn.Serve? ==> Ended(start, before, after, true, None)
      ensures !turn.Serve? ==> Orderly(start, before, after)
    {
    }

    lemma ClosedEnds(start: State, before: seq<Op>, after: seq<Op>, reason: Reason)
      requires EndsWith(start, before, after, OpClose(reason, Own))
      ensures Ended(start, before, after, false, Some(reason))
    {
    }

    lemma EndedExcuses(b: Budget, before: seq<Op>)
      requires Ended(b.start, before, b.log, false, None)
      ensures Excused(b, before)
    {
    }

    /** The budget was stopped before the call, or during it ran out or was stopped by another thread. */
    ghost predicate Excused(b: Budget, before: seq<Op>)
      reads b
    {
      IsStopped(Run(b.start, before)) || Cause(b.start, b.log, |before|)
    }

    /** `chat`. `closed` is the reason this call itself wrote into its budget. */
    method Chat(routes: seq<Route>, b: Budget?, timeout: Number) returns (result: Result, ghost closed: Option<Reason>)
      requires pool.Valid() && table.Valid() && (b != null ==> b.Sound())
      modifies this, pool, table, b
      ensures result.ValueError? <==> b != null && BadTimeout(timeout)
      ensures result.ValueError? ==> unchanged(this) && unchanged(pool) && unchanged(table) && unchanged(b)
      ensures !result.ValueError? ==> Told(routes, b, old(StartOf(b)), result.attempts)
      ensures result.Answer? ==> result.attempts != [] && result.attempts[|result.attempts| - 1].ok
      ensures result.RouterError? ==> result.attempts == [] || !result.attempts[|result.attempts| - 1].ok
      ensures b != null && !result.ValueError? ==> b.terminal.Some?
      ensures result.RouterError? ==> result.reason == if b == null then None else b.terminal
      ensures !result.ValueError? && (result.Answer? || b == null || closed.Some?) ==>
                Kept(routes, b, result.attempts, calls[|old(calls)|..])
      ensures closed.Some? ==>
                b != null && b.terminal == closed && result.RouterError? && Next(result.attempts) == |routes|
      ensures closed in {None, Some(PolicyBlocked), Some(ProviderUnavailable)}
      ensures closed.Some? ==> (closed == Some(PolicyBlocked) <==> PolicyOnly(routes, b.reserved))
      ensures b != null && !result.ValueError? ==> Ended(b.start, old(b.log), b.log, result.Answer?, closed)
      ensures result.RouterError? && (b == null || !Excused(b, old(b.log))) ==>
                Next(result.attempts) == |routes| && Kept(routes, b, result.attempts, calls[|old(calls)|..])
      ensures !result.ValueError? && b != null && old(b.terminal).Some? ==> result.attempts == []
    {
      closed := None;
      if b != null && (timeout.NotFinite? || timeout.v <= 0.0) {
        return ValueError, closed;
      }
      hide Told, Kept, StartOf, PolicyOnly, Run, Excused, Ended, ConnectionPool.HttpPool.Valid, Cooldown.Table.Valid;
      result, closed := Answering(routes, b, timeout);
    }

    /** The whole call with an acceptable timeout. */
    method Answering(routes: seq<Route>, b: Budget?, timeout: Number)
      returns (result: Result, ghost closed: Option<Reason>)
      requires pool.Valid() && table.Valid() && (b != null ==> b.Sound() && !BadTimeout(timeout))
      modifies this, pool, table, b
      ensures !result.ValueError? && Told(routes, b, old(StartOf(b)), result.attempts)
      ensures old(calls) <= calls
      ensures result.Answer? ==> result.attempts != [] && result.attempts[|result.attempts| - 1].ok
      ensures result.RouterError? ==> result.attempts == [] || !result.attempts[|result.attempts| - 1].ok
      ensures b != null ==> b.terminal.Some?
      ensures result.RouterError? ==> result.reason == if b == null then None else b.terminal
      ensures result.Answer? || b == null || closed.Some? ==> Kept(routes, b, result.attempts, calls[|old(calls)|..])
      ensures closed.Some? ==>
                b != null && b.terminal == closed && result.RouterError? && Next(result.attempts) == |routes|
      ensures closed in {None, Some(PolicyBlocked), Some(ProviderUnavailable)}
      ensures closed.Some? ==> (closed == Some(PolicyBlocked) <==> PolicyOnly(routes, b.reserved))
      ensures b != null ==> Ended(b.start, old(b.log), b.log, result.Answer?, closed)
      ensures result.RouterError? && (b == null || !Excused(b, old(b.log))) ==>
                Next(result.attempts) == |routes| && Kept(routes, b, result.attempts, calls[|old(calls)|..])
      ensures b != null && old(b.terminal).Some? ==> result.attempts == []
    {
      hide *;
      closed := None;
      ghost var s := StartOf(b);
      StartCalls(b);
      ghost var log := if b == null then [] else b.log;
      var turn, rows := Walk(routes, b, timeout, s);
      Tell(routes, b, s, turn, rows);
      WalkEnds(routes, b, s, turn, rows);
      if b != null {
        WalkSettles(b.start, log, b.log, turn);
      }
      if turn.Serve? || b == null {
        TellKept(routes, b, s, rows);
        return if turn.Serve? then Answer(rows) else RouterError(rows, None), closed;
      }
      closed := CloseOut(routes, b, turn, rows, s);
      Tell(routes, b, s, Halt, rows);
      WalkEnds(routes, b, s, Halt, rows);
      if closed.Some? {
        TellKept(routes, b, s, rows);
        ClosedEnds(b.start, log, b.log, closed.value);
      } else {
        EndedStopped(b, log);
        EndedExcuses(b, log);
      }
      return RouterError(rows, b.terminal), closed;
    }

    /** The route loop. */
    method Walk(routes: seq<Route>, b: Budget?, timeout: Number, ghost s: Start)
      returns (turn: Turn, rows: seq<Attempt>)
      requires pool.Valid() && table.Valid() && (b != null ==> b.Sound() && !BadTimeout(timeout)) && s == StartOf(b)
      modifies this, pool, table, b
      ensures Walked(routes, b, s, turn, rows)
      ensures turn.Onward? ==> Next(rows) == |routes|
      ensures b != null ==> Settled(b.start, s.log, b.log, turn)
      ensures b != null && old(b.terminal).Some? ==> rows == [] && !turn.Serve?
    {
      hide Chain, Coolings, Rationed, Accounted, Cooled, Quiet, Orderly;
      rows := [];
      turn := Onward;
      StartMetered(routes, b, s);
      if b != null {
        OrderlyNone(b.start, b.log);
      }
      var i := 0;
      while i < |routes|
        invariant i <= |routes| && Walked(routes, b, s, Onward, rows) && Next(rows) == i
        invariant b != null ==> Orderly(b.start, s.log, b.log)
        invariant b != null && old(b.terminal).Some? ==> rows == [] && b.terminal.Some?
      {
        ghost var before := table.events;
        ghost var log := if b == null then [] else b.log;
        Wait(b, rows, s);
        if b != null {
          OrderlyTrans(b.start, s.log, log, b.log);
        }
        OneTick(before);
        CooledQuiet(table.world, routes, catalog, s.events, before, table.events, rows);
        if b != null && b.terminal.Some? {
          return Halt, rows;
        }
        turn, rows := Visit(routes, i, b, timeout, rows, s);
        if !turn.Onward? {
          return;
        }
        i := i + 1;
      }
      turn := Onward;
    }
  }
}
