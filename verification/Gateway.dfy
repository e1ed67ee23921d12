/** The control gateway's `chat`: one plan walked in order, one row for each provider looked at, and no
    second provider once the outcome of the first is unknown. */
module Gateway {
  import opened RoutePlan

  const MAX_TIMEOUT_SECONDS: real := 45.0
  const MAX_ROUTE_SECONDS: real := 660.0

  /** The state a row records; `unknown` is the outcome mark of a route deadline that cut an attempt. */
  datatype State =
    | RouteDeadline(unknown: bool)
    | CredentialUnavailable
    | Success
    | IdentityUnavailable
    | LocalDeadline
    | UpstreamDeadline
    | HttpError(status: int)
    | ContractError

  datatype Row = Row(provider: string, state: State)

  predicate Unknown(s: State) { s.LocalDeadline? || s.UpstreamDeadline? || s == RouteDeadline(true) }

  predicate Contacts(s: State) { !s.CredentialUnavailable? && s != RouteDeadline(false) }

  /** After such a row no other provider may be looked at. */
  predicate Stops(s: State) {
    || Unknown(s) || s.RouteDeadline? || s.Success? || s.IdentityUnavailable?
    || (s.HttpError? && 400 <= s.status < 500 && s.status != 429)
  }

  /** The states that are the last of their walk, one by one: an unknown outcome, a deadline, a success, a local
      model whose identity failed, and a client error other than 429. */
  predicate IsLast(s: State) {
    match s
    case LocalDeadline => true
    case UpstreamDeadline => true
    case RouteDeadline(_) => true
    case Success => true
    case IdentityUnavailable => true
    case HttpError(code) => 400 <= code < 500 && code != 429
    case CredentialUnavailable => false
    case ContractError => false
  }

  /** How one awaited attempt ends; `Answered` covers the receipt check of the full bundle. */
  datatype Result = Answered | Contract | Identity | WallTimeout | ClientTimeout | Http(status: int)

  datatype Reply = NoEligibleProvider | Answer | LocalModelIdentity | LocalRouteUnavailable | OutcomeUnknown | AllFailed

  /** Rows are those of the plan's first providers, in order; a row whose state is a last one ends the walk. */
  predicate Prefix(plan: seq<Candidate>, rows: seq<Row>) {
    && |rows| <= |plan|
    && (forall k :: 0 <= k < |rows| ==> rows[k].provider == plan[k].id)
    && (forall k :: 0 <= k < |rows| && IsLast(rows[k].state) ==> k == |rows| - 1)
  }

  lemma StopsAreLast(s: State)
    ensures Stops(s) <==> IsLast(s)
  {
  }

  /** The walk is over: at a last state, or at the end of the plan. */
  predicate Over(plan: seq<Candidate>, rows: seq<Row>) {
    |rows| == |plan| || (rows != [] && IsLast(rows[|rows| - 1].state))
  }

  /** The providers of the rows that say they were contacted, in order. */
  function Contacted(rows: seq<Row>): seq<string> {
    if rows == [] then []
    else Contacted(rows[..|rows| - 1]) + if Contacts(rows[|rows| - 1].state) then [rows[|rows| - 1].provider] else []
  }

  /** How the walk is answered: three states answer or raise at once, and after the loop any unknown outcome
      makes the whole outcome unknown. */
  function ReplyOf(rows: seq<Row>): Reply {
    if rows != [] && rows[|rows| - 1].state.Success? then Answer
    else if rows != [] && rows[|rows| - 1].state.IdentityUnavailable? then LocalModelIdentity
    else if rows != [] && rows[|rows| - 1].state.LocalDeadline? then LocalRouteUnavailable
    else if exists k :: 0 <= k < |rows| && Unknown(rows[k].state) then OutcomeUnknown
    else AllFailed
  }

  /** The reply that each last row calls for. */
  predicate Replies(last: State, reply: Reply) {
    match last
    case Success => reply == Answer
    case IdentityUnavailable => reply == LocalModelIdentity
    case LocalDeadline => reply == LocalRouteUnavailable
    case UpstreamDeadline => reply == OutcomeUnknown
    case RouteDeadline(unknown) => reply == if unknown then OutcomeUnknown else AllFailed
    case HttpError(_) => reply == AllFailed
    case ContractError => reply == AllFailed
    case CredentialUnavailable => reply == AllFailed
  }

  /** In a walk, the unknown outcome that decides the reply can only be the last row's. */
  lemma ReplyExact(plan: seq<Candidate>, rows: seq<Row>)
    requires Prefix(plan, rows) && rows != []
    ensures Replies(rows[|rows| - 1].state, ReplyOf(rows))
  {
    var last := rows[|rows| - 1];
    forall k | 0 <= k < |rows| && Unknown(rows[k].state) ensures k == |rows| - 1 {
      assert IsLast(rows[k].state);
    }
  }

  /** One wait on a provider, and what it came to. */
  datatype Wait = Wait(provider: string, begin: real, end: real, result: Result)

  function Providers(waits: seq<Wait>): seq<string> {
    if waits == [] then [] else Providers(waits[..|waits| - 1]) + [waits[|waits| - 1].provider]
  }

  lemma {:induction false} ProvidersAt(waits: seq<Wait>, j: nat)
    requires j < |waits|
    ensures |Providers(waits)| == |waits| && Providers(waits)[j] == waits[j].provider
    decreases |waits|
  {
    if j < |waits| - 1 {
      ProvidersAt(waits[..|waits| - 1], j);
    } else if |waits| > 1 {
      ProvidersAt(waits[..|waits| - 1], 0);
    }
  }

  lemma {:induction false} ContactedFrom(plan: seq<Candidate>, rows: seq<Row>, j: nat)
    requires Prefix(plan, rows) && j < |Contacted(rows)|
    ensures exists m :: 0 <= m < |rows| && Contacted(rows)[j] == plan[m].id
    decreases |rows|
  {
    var front := rows[..|rows| - 1];
    if j < |Contacted(front)| {
      ContactedFrom(plan, front, j);
    } else {
      assert Contacted(rows)[j] == plan[|rows| - 1].id;
    }
  }

  /** What the waits of a walk show, when they are those its rows claim: a row with an unknown outcome, an
      identity failure or a client error other than 429 is the last row; its own provider, if contacted, was
      the last one waited on; and no provider later in the plan was ever waited on. */
  lemma {:induction false} NobodyAfterUnknown(plan: seq<Candidate>, rows: seq<Row>, waits: seq<Wait>, k: nat)
    requires DistinctIds(plan) && Prefix(plan, rows) && Providers(waits) == Contacted(rows)
    requires k < |rows| && IsLast(rows[k].state)
    ensures k == |rows| - 1
    ensures forall j, m :: 0 <= j < |waits| && k < m < |plan| ==> waits[j].provider != plan[m].id
    ensures Contacts(rows[k].state) ==> waits != [] && waits[|waits| - 1].provider == plan[k].id
  {
    forall j, m | 0 <= j < |waits| && k < m < |plan| ensures waits[j].provider != plan[m].id {
      ProvidersAt(waits, j);
      ContactedFrom(plan, rows, j);
    }
    if Contacts(rows[k].state) {
      assert Contacted(rows) != [];
      if waits != [] {
        ProvidersAt(waits, |waits| - 1);
      }
    }
  }

  class Clock {
    var now: real
    /** Time that passed outside the waits, and every wait so far. */
    ghost var lag: real
    ghost var waits: seq<Wait>

    constructor (now: real)
      ensures this.now == now && lag == 0.0 && waits == []
    {
      this.now, lag, waits := now, 0.0, [];
    }

    /** Work between the waits. */
    method Elapse()
      modifies this`now, this`lag
      ensures now - old(now) == lag - old(lag) >= 0.0
    {
      var t: real := *;
      if t > 0.0 {
        now, lag := now + t, lag + t;
      }
    }

    /** `asyncio.wait_for` on one provider: returns within its timeout, with whatever the attempt came to. */
    method Await(provider: string, timeout: real) returns (r: Result)
      requires timeout >= 0.0
      modifies this`now, this`waits
      ensures old(now) <= now <= old(now) + timeout
      ensures waits == old(waits) + [Wait(provider, old(now), now, r)]
    {
      ghost var begin := now;
      var t: real := *;
      if 0.0 <= t <= timeout {
        now := now + t;
      }
      r := *;
      waits := waits + [Wait(provider, begin, now, r)];
    }
  }

  predicate InTime(w: Wait, limit: real) { w.begin <= w.end <= limit && w.end - w.begin <= 45.0 }

  ghost predicate Timely(waits: seq<Wait>, limit: real) {
    forall k :: 0 <= k < |waits| ==> InTime(waits[k], limit)
  }

  /** What the timeout of a wait is recorded as. */
  function TimeoutState(pinned: bool, routeExpired: bool): State {
    if pinned then LocalDeadline else if routeExpired then RouteDeadline(true) else UpstreamDeadline
  }

  function StateOf(r: Result, pinned: bool, routeExpired: bool): State {
    match r
    case Answered => Success
    case Contract => ContractError
    case Identity => IdentityUnavailable
    case WallTimeout => TimeoutState(pinned, routeExpired)
    case ClientTimeout => UpstreamDeadline
    case Http(status) => HttpError(status)
  }

  /** A row that says the route deadline passed before its provider was contacted tells the truth. */
  predicate GaveUpLate(rows: seq<Row>, deadline: real, now: real) {
    rows != [] && rows[|rows| - 1].state == RouteDeadline(false) ==> deadline <= now
  }

  /** The request's model is a local one of this provider, whose weights are pinned. */
  predicate Pinned(registry: seq<Provider>, id: string, r: PlanRequest) {
    var p := ById(registry, id);
    p.Some? && p.value.loopback && r.model in p.value.weightPinned
  }

  /** What the wait came to calls for the row's state; only the cause of an unpinned wall timeout is left open. */
  predicate CalledFor(registry: seq<Provider>, r: PlanRequest, row: Row, w: Wait) {
    var pinned := Pinned(registry, row.provider, r);
    match row.state
    case Success => w.result.Answered?
    case ContractError => w.result.Contract?
    case IdentityUnavailable => w.result.Identity?
    case LocalDeadline => w.result.WallTimeout? && pinned
    case RouteDeadline(unknown) => unknown && w.result.WallTimeout? && !pinned
    case UpstreamDeadline => w.result.ClientTimeout? || (w.result.WallTimeout? && !pinned)
    case HttpError(code) => w.result == Http(code)
    case CredentialUnavailable => false
  }

  /** The contacting rows' states are those their own waits call for, one wait for each, in order. */
  predicate Explained(registry: seq<Provider>, r: PlanRequest, rows: seq<Row>, waits: seq<Wait>) {
    if rows == [] then waits == []
    else
      var front, row := rows[..|rows| - 1], rows[|rows| - 1];
      if !Contacts(row.state) then Explained(registry, r, front, waits)
      else
        && waits != [] && CalledFor(registry, r, row, waits[|waits| - 1])
        && Explained(registry, r, front, waits[..|waits| - 1])
  }

  /** The waits are exactly those the rows claim, within the route's time, and came to what the rows say. */
  ghost predicate Witnessed(registry: seq<Provider>, r: PlanRequest, rows: seq<Row>, waits: seq<Wait>, limit: real) {
    Providers(waits) == Contacted(rows) && Timely(waits, limit) && Explained(registry, r, rows, waits)
  }

  /** The attempt loop of `chat`. `waits` are the waits it made, one after another. */
  method Chat(registry: seq<Provider>, r: PlanRequest, clock: Clock)
    returns (reply: Reply, rows: seq<Row>, ghost waits: seq<Wait>)
    requires UniqueIds(registry)
    modifies clock
    ensures Prefix(Plan(registry, r), rows)
    ensures if Plan(registry, r) == [] then reply == NoEligibleProvider && rows == []
            else rows != [] && Replies(rows[|rows| - 1].state, reply)
    ensures clock.waits == old(clock.waits) + waits
    ensures Witnessed(registry, r, rows, waits, old(clock.now) + 660.0 + clock.lag - old(clock.lag))
    ensures GaveUpLate(rows, old(clock.now) + 660.0, clock.now)
    ensures Over(Plan(registry, r), rows)
  {
    var plan := RouteCandidates(registry, r);
    rows, waits := [], [];
    if plan == [] {
      return NoEligibleProvider, rows, waits;
    }
    assert OnWay(registry, r, plan, [], [], clock.now + MAX_ROUTE_SECONDS);
    hide *;
    ghost var lag, before := clock.lag, clock.waits;
    var deadline := clock.now + MAX_ROUTE_SECONDS;
    while |rows| < |plan|
      invariant |rows| <= |plan| && OnWay(registry, r, plan, rows, waits, deadline + clock.lag - lag)
      invariant rows != [] ==> !Stops(rows[|rows| - 1].state)
      invariant clock.waits == before + waits && clock.lag >= lag
    {
      var state, more := NextRow(registry, r, rows, deadline, clock, lag, waits);
      assert before + waits + more == before + (waits + more);
      rows, waits := rows + [Row(plan[|rows|].id, state)], waits + more;
      OnWayParts(registry, r, plan, rows, waits, deadline + clock.lag - lag);
      StopsAreLast(state);
      if Stops(state) {
        ReplyExact(plan, rows);
        OverNow(plan, rows, state);
        LateRow(rows, plan[|rows| - 1].id, state, deadline, clock.now);
        return ReplyOf(rows), rows, waits;
      }
    }
    NotLate(rows, deadline, clock.now);
    OnWayParts(registry, r, plan, rows, waits, deadline + clock.lag - lag);
    ReplyExact(plan, rows);
    AllSeen(plan, rows);
    return ReplyOf(rows), rows, waits;
  }

  lemma OverNow(plan: seq<Candidate>, rows: seq<Row>, state: State)
    requires rows != [] && rows[|rows| - 1].state == state && IsLast(state)
    ensures Over(plan, rows)
  {
  }

  lemma AllSeen(plan: seq<Candidate>, rows: seq<Row>)
    requires |rows| == |plan|
    ensures Over(plan, rows)
  {
  }

  lemma LateRow(rows: seq<Row>, provider: string, state: State, deadline: real, now: real)
    requires rows != [] && rows[|rows| - 1] == Row(provider, state)
    requires state == RouteDeadline(false) ==> deadline <= now
    ensures GaveUpLate(rows, deadline, now)
  {
  }

  lemma NotLate(rows: seq<Row>, deadline: real, now: real)
    requires rows != [] ==> !Stops(rows[|rows| - 1].state)
    ensures GaveUpLate(rows, deadline, now)
  {
  }

  /** The rows and waits so far are sound. */
  ghost predicate OnWay(registry: seq<Provider>, r: PlanRequest, plan: seq<Candidate>, rows: seq<Row>,
                        waits: seq<Wait>, limit: real)
  {
    Prefix(plan, rows) && Witnessed(registry, r, rows, waits, limit)
  }

  lemma OnWayParts(registry: seq<Provider>, r: PlanRequest, plan: seq<Candidate>, rows: seq<Row>, waits: seq<Wait>,
                   limit: real)
    requires OnWay(registry, r, plan, rows, waits, limit)
    ensures |rows| <= |plan| && Prefix(plan, rows) && Witnessed(registry, r, rows, waits, limit)
  {
  }

  /** The turn of the next candidate and its row. */
  method NextRow(registry: seq<Provider>, r: PlanRequest, rows: seq<Row>, deadline: real, clock: Clock, ghost lag: real,
                 ghost waits: seq<Wait>)
    returns (state: State, ghost more: seq<Wait>)
    requires UniqueIds(registry) && |rows| < |Plan(registry, r)| && clock.lag >= lag
    requires OnWay(registry, r, Plan(registry, r), rows, waits, deadline + clock.lag - lag)
    requires rows != [] ==> !Stops(rows[|rows| - 1].state)
    modifies clock
    ensures clock.waits == old(clock.waits) + more && clock.lag >= lag
    ensures state == RouteDeadline(false) ==> deadline <= clock.now
    ensures OnWay(registry, r, Plan(registry, r), rows + [Row(Plan(registry, r)[|rows|].id, state)], waits + more,
                  deadline + clock.lag - lag)
  {
    var plan := Plan(registry, r);
    OnWayParts(registry, r, plan, rows, waits, deadline + clock.lag - lag);
    hide *;
    ghost var before := clock.lag;
    ghost var read;
    state, more, read := Attempt(registry, r, plan[|rows|], deadline, clock);
    var row := Row(plan[|rows|].id, state);
    AppendRow(plan, rows, row);
    LaterWitnessed(registry, r, rows, waits, deadline + before - lag, row, more, deadline + clock.lag - before,
                   deadline + clock.lag - lag);
    OnWayFrom(registry, r, plan, rows + [row], waits + more, deadline + clock.lag - lag);
  }

  lemma OnWayFrom(registry: seq<Provider>, r: PlanRequest, plan: seq<Candidate>, rows: seq<Row>, waits: seq<Wait>,
                  limit: real)
    requires Prefix(plan, rows) && Witnessed(registry, r, rows, waits, limit)
    ensures OnWay(registry, r, plan, rows, waits, limit)
  {
  }

  lemma AppendRow(plan: seq<Candidate>, rows: seq<Row>, row: Row)
    requires Prefix(plan, rows) && |rows| < |plan| && row.provider == plan[|rows|].id
    requires rows != [] ==> !Stops(rows[|rows| - 1].state)
    ensures Prefix(plan, rows + [row])
  {
    if rows != [] {
      StopsAreLast(rows[|rows| - 1].state);
    }
  }

  /** A row's own wait, if it claims one, came to what the row says. */
  ghost predicate OwnWait(registry: seq<Provider>, r: PlanRequest, row: Row, more: seq<Wait>) {
    if Contacts(row.state) then
      |more| == 1 && more[0].provider == row.provider && CalledFor(registry, r, row, more[0])
    else more == []
  }

  lemma LaterWitnessed(registry: seq<Provider>, r: PlanRequest, rows: seq<Row>, waits: seq<Wait>, limit: real,
                       row: Row, more: seq<Wait>, limit': real, later: real)
    requires Witnessed(registry, r, rows, waits, limit) && OwnWait(registry, r, row, more)
    requires Timely(more, limit') && limit <= later && limit' <= later
    ensures Witnessed(registry, r, rows + [row], waits + more, later)
  {
    hide Timely, CalledFor;
    assert Timely(waits + more, later) by { LaterTimely(waits, limit, more, limit', later); }
    assert (rows + [row])[..|rows|] == rows && (rows + [row])[|rows|] == row;
    if Contacts(row.state) {
      assert waits + more == waits + [more[0]] && (waits + [more[0]])[..|waits|] == waits;
    } else {
      assert waits + more == waits;
    }
  }

  lemma LaterTimely(waits: seq<Wait>, limit: real, more: seq<Wait>, limit': real, later: real)
    requires Timely(waits, limit) && Timely(more, limit') && limit <= later && limit' <= later
    ensures Timely(waits + more, later)
  {
    var all := waits + more;
    forall k | 0 <= k < |all| ensures InTime(all[k], later) {
      assert InTime(all[k], if k < |waits| then limit else limit') by {
        if k < |waits| { assert all[k] == waits[k]; } else { assert all[k] == more[k - |waits|]; }
      }
    }
  }

  /** The candidate's provider needs no credential or has one. */
  predicate Usable(registry: seq<Provider>, c: Candidate) {
    var p := ById(registry, c.id);
    p.Some? && (p.value.loopback || p.value.tokenPresent)
  }

  /** The clock readings of one turn: before the wait, and after it. */
  datatype Readings = Readings(before: real, after: real)

  /** One turn: check the clock and the credential, then wait on the provider. */
  method Attempt(registry: seq<Provider>, r: PlanRequest, c: Candidate, deadline: real, clock: Clock)
    returns (state: State, ghost more: seq<Wait>, ghost read: Readings)
    requires UniqueIds(registry) && c in Plan(registry, r)
    modifies clock
    ensures clock.lag >= old(clock.lag) && clock.waits == old(clock.waits) + more
    ensures OwnWait(registry, r, Row(c.id, state), more) && Timely(more, deadline + clock.lag - old(clock.lag))
    ensures old(clock.now) <= read.before <= clock.now
    ensures (Contacts(state) ==> read.before <= more[0].begin && more[0].end <= read.after <= clock.now)
    ensures state == RouteDeadline(false) <==> read.before >= deadline
    ensures state != RouteDeadline(false) ==> (state.CredentialUnavailable? <==> !Usable(registry, c))
    ensures Contacts(state) && more[0].result.WallTimeout? && !Pinned(registry, c.id, r) ==>
              (state == RouteDeadline(true) <==> read.before + 45.0 >= deadline || read.after >= deadline)
  {
    more := [];
    CandidateProvider(registry, r, c);
    var provider := ById(registry, c.id).value;
    clock.Elapse();
    var before := clock.now;
    read := Readings(before, before);
    var remaining := deadline - before;
    if remaining <= 0.0 {
      return RouteDeadline(false), more, read;
    }
    if !provider.loopback && !provider.tokenPresent {
      return CredentialUnavailable, more, read;
    }
    var routeLimited := remaining <= MAX_TIMEOUT_SECONDS;
    clock.Elapse();
    ghost var begin := clock.now;
    var came := clock.Await(c.id, if MAX_TIMEOUT_SECONDS <= remaining then MAX_TIMEOUT_SECONDS else remaining);
    more := [Wait(c.id, begin, clock.now, came)];
    clock.Elapse();
    var late := clock.now >= deadline;
    read := Readings(before, clock.now);
    clock.Elapse();
    return StateOf(came, provider.loopback && r.model in provider.weightPinned,
                   routeLimited || late), more, read;
  }
}
