/** The dual-GPU mesh router: client slots, in-flight counts and dispatch, with all its handler threads interleaved. */
module MeshRouter {
  import opened Text

  const MAX_CLIENTS: nat := 8

  datatype Backend = Dgpu | Igpu

  function Other(b: Backend): Backend { if b == Dgpu then Igpu else Dgpu }

  /** The global `inflight` dictionary. */
  datatype Load = Load(dgpu: int, igpu: int) {
    function Of(b: Backend): int { if b == Dgpu then dgpu else igpu }
    function Plus(b: Backend, n: int): Load { if b == Dgpu then Load(dgpu + n, igpu) else Load(dgpu, igpu + n) }
  }

  /** Where a handler is in `_proxy`. `index` is the loop counter. */
  datatype Pc =
    | Reading                                                       // request not read yet
    | Looping(index: nat, fallback: Option<Backend>)                // about to reserve a backend
    | Reserved(index: nat, backend: Backend, dispatched: bool)      // in the try block
    | Releasing(index: nat, backend: Backend, again: bool)          // in the finally block; `again` to continue
    | Ended                                                         // about to give the slot back
  {
    predicate Holds(b: Backend) { (Reserved? || Releasing?) && backend == b }
  }

  datatype Handler = Handler(embed: bool, pc: Pc)

  /** One `conn.request`. */
  datatype Sent = Sent(client: nat, backend: Backend)

  /** `inflight` as the program counts it; `seen` and `log` record all clients and all requests ever sent. */
  datatype Mesh = Mesh(free: int, inflight: Load, handlers: map<nat, Handler>, seen: set<nat>, log: seq<Sent>)

  datatype Event =
    | Accept(t: nat, embed: bool)
    | ThreadFails(t: nat)                 // a slot was taken, but the handler thread did not start
    | Admit(t: nat)                       // the request was read and goes to the backends
    | Refuse(t: nat)                      // answered without a backend, or the deadline passed before a pick
    | Pick(t: nat)
    | ConnectFails(t: nat)
    | Request(t: nat)                     // `dispatched = True`, then `conn.request`
    | Finish(t: nat)                      // the relay ended, well or not
    | Escape(t: nat)                      // an exception the handler does not catch
    | Release(t: nat, closeRaises: bool)  // the finally block
    | Leave(t: nat)

  /** `pick_backend`: the first choice and the fallback. */
  function PickBackend(embed: bool, inflight: Load): (r: (Backend, Backend))
    ensures r.1 == Other(r.0)
    ensures if embed then r.0 == Igpu else inflight.Of(r.0) <= inflight.Of(r.1)
  {
    if embed then (Igpu, Dgpu)
    else if inflight.dgpu <= inflight.igpu then (Dgpu, Igpu) else (Igpu, Dgpu)
  }

  function At(s: Mesh, t: nat): Pc { if t in s.handlers then s.handlers[t].pc else Ended }

  function SetPc(s: Mesh, t: nat, pc: Pc): Mesh
    requires t in s.handlers
  {
    s.(handlers := s.handlers[t := s.handlers[t].(pc := pc)])
  }

  function Add(s: Mesh, b: Backend, n: int): Mesh { s.(inflight := s.inflight.Plus(b, n)) }

  function AcceptStep(s: Mesh, t: nat, embed: bool): Mesh {
    if t in s.seen || s.free <= 0 then s
    else s.(free := s.free - 1, seen := s.seen + {t}, handlers := s.handlers[t := Handler(embed, Reading)])
  }

  function PickStep(s: Mesh, t: nat): Mesh
    requires t in s.handlers && s.handlers[t].pc.Looping?
  {
    var pc := s.handlers[t].pc;
    var backend :=
      if pc.index > 0 && pc.fallback.Some? then pc.fallback.value
      else PickBackend(s.handlers[t].embed, s.inflight).0;
    SetPc(Add(s, backend, 1), t, Reserved(pc.index, backend, false))
  }

  function ReleaseStep(s: Mesh, t: nat, closeRaises: bool): Mesh
    requires t in s.handlers && s.handlers[t].pc.Releasing?
  {
    var pc := s.handlers[t].pc;
    var next := if pc.again && !closeRaises then Looping(pc.index + 1, Some(Other(pc.backend))) else Ended;
    SetPc(Add(s, pc.backend, -1), t, next)
  }

  /** The mesh after `e`; an event that cannot happen now changes nothing. */
  function Apply(s: Mesh, e: Event): Mesh {
    var pc := At(s, e.t);
    if e.t !in s.handlers then
      match e
      case Accept(t, embed) => AcceptStep(s, t, embed)
      case _ => s
    else
      match e
      case Admit(t) => if pc.Reading? then SetPc(s, t, Looping(0, None)) else s
      case Refuse(t) => if pc.Reading? || pc.Looping? then SetPc(s, t, Ended) else s
      case Pick(t) => if pc.Looping? then PickStep(s, t) else s
      case ConnectFails(t) =>
        if pc.Reserved? && !pc.dispatched then SetPc(s, t, Releasing(pc.index, pc.backend, pc.index == 0)) else s
      case Request(t) =>
        if pc.Reserved? && !pc.dispatched then
          SetPc(s.(log := s.log + [Sent(t, pc.backend)]), t, Reserved(pc.index, pc.backend, true))
        else s
      case Finish(t) => if pc.Reserved? && pc.dispatched then SetPc(s, t, Releasing(pc.index, pc.backend, false)) else s
      case Escape(t) => if pc.Reserved? then SetPc(s, t, Releasing(pc.index, pc.backend, false)) else s
      case Release(t, closeRaises) => if pc.Releasing? then ReleaseStep(s, t, closeRaises) else s
      case Leave(t) => if pc.Ended? then s.(free := s.free + 1, handlers := s.handlers - {t}) else s
      case _ => s
  }

  function Run(s: Mesh, es: seq<Event>): Mesh
    decreases |es|
  {
    if es == [] then s else Run(Apply(s, es[0]), es[1..])
  }

  // ----- what every run keeps -----

  /** The handlers currently reserving `b`. */
  function Holding(s: Mesh, b: Backend): set<nat> { set t | t in s.handlers && s.handlers[t].pc.Holds(b) }

  /** The load counts are exact: `inflight[b]` is the number of handlers reserving `b`. */
  predicate Exact(s: Mesh) { s.inflight.dgpu == |Holding(s, Dgpu)| && s.inflight.igpu == |Holding(s, Igpu)| }

  /** Every slot is free or has its handler. */
  predicate Slots(s: Mesh) { s.free >= 0 && s.free + |s.handlers| == MAX_CLIENTS && s.handlers.Keys <= s.seen }

  /** Client `t` has been sent to some backend. */
  predicate WasSent(s: Mesh, t: nat) { exists i :: 0 <= i < |s.log| && s.log[i].client == t }

  /** A handler that may still send has sent nothing; the second try exists only because of that. */
  predicate Fresh(s: Mesh, t: nat, pc: Pc) {
    match pc
    case Reading => !WasSent(s, t)
    case Looping(index, fallback) => index <= 1 && (index == 1 <==> fallback.Some?) && !WasSent(s, t)
    case Reserved(index, _, dispatched) => index <= 1 && (dispatched <==> WasSent(s, t))
    case Releasing(index, _, again) => again ==> index == 0 && !WasSent(s, t)
    case Ended => true
  }

  /** At most one `conn.request` for each client, ever. */
  predicate AtMostOnce(s: Mesh) {
    && (forall i, j :: 0 <= i < j < |s.log| ==> s.log[i].client != s.log[j].client)
    && (forall i :: 0 <= i < |s.log| ==> s.log[i].client in s.seen)
    && (forall t :: t in s.handlers ==> Fresh(s, t, s.handlers[t].pc))
  }

  predicate Good(s: Mesh) { Exact(s) && Slots(s) && AtMostOnce(s) }

  function Start(): Mesh { Mesh(MAX_CLIENTS, Load(0, 0), map[], {}, []) }

  lemma StartGood()
    ensures Good(Start())
  {
    var s := Start();
    assert Holding(s, Dgpu) == {} && Holding(s, Igpu) == {};
  }

  function HoldingOthers(s: Mesh, t: nat, b: Backend): set<nat> {
    set u | u in s.handlers && u != t && s.handlers[u].pc.Holds(b)
  }

  lemma HoldingSplit(s: Mesh, t: nat, b: Backend)
    requires t in s.handlers
    ensures |Holding(s, b)| == |HoldingOthers(s, t, b)| + if s.handlers[t].pc.Holds(b) then 1 else 0
  {
    assert Holding(s, b) == if s.handlers[t].pc.Holds(b) then HoldingOthers(s, t, b) + {t} else HoldingOthers(s, t, b);
  }

  /** One handler moved: only its own backend's count changes. */
  lemma Moved(s: Mesh, s': Mesh, t: nat, b: Backend)
    requires t in s.handlers && s'.handlers.Keys == s.handlers.Keys
    requires forall u :: u in s.handlers && u != t ==> s'.handlers[u] == s.handlers[u]
    ensures |Holding(s', b)| == |Holding(s, b)| + (if s'.handlers[t].pc.Holds(b) then 1 else 0)
                                               - (if s.handlers[t].pc.Holds(b) then 1 else 0)
  {
    hide Holding;
    HoldingSplit(s, t, b);
    HoldingSplit(s', t, b);
    assert HoldingOthers(s', t, b) == HoldingOthers(s, t, b);
  }

  lemma StepExact(s: Mesh, e: Event)
    requires Exact(s) && Slots(s)
    ensures Exact(Apply(s, e))
  {
    hide Slots, Fresh;
    var s' := Apply(s, e);
    if e.t in s.handlers && s'.handlers.Keys == s.handlers.Keys {
      Moved(s, s', e.t, Dgpu);
      Moved(s, s', e.t, Igpu);
    } else {
      assert Holding(s', Dgpu) == Holding(s, Dgpu) && Holding(s', Igpu) == Holding(s, Igpu);
    }
  }

  lemma StepSlots(s: Mesh, e: Event)
    requires Slots(s)
    ensures Slots(Apply(s, e))
  {
    var s' := Apply(s, e);
    if e.Leave? && e.t in s.handlers && At(s, e.t).Ended? {
      assert s'.handlers.Keys == s.handlers.Keys - {e.t};
    } else if e.Accept? && e.t !in s.seen && s.free > 0 {
      assert s'.handlers.Keys == s.handlers.Keys + {e.t};
    } else {
      assert s'.free == s.free && s'.seen == s.seen && s'.handlers.Keys == s.handlers.Keys;
    }
  }

  lemma SentMore(s: Mesh, s': Mesh, x: Sent, t: nat)
    requires s'.log == s.log + [x]
    ensures WasSent(s', t) <==> t == x.client || WasSent(s, t)
  {
    assert s'.log[|s.log|] == x;
    if WasSent(s, t) {
      var i :| 0 <= i < |s.log| && s.log[i].client == t;
      assert s'.log[i].client == t;
    }
  }

  lemma StepAtMostOnce(s: Mesh, e: Event)
    requires Slots(s) && AtMostOnce(s)
    ensures AtMostOnce(Apply(s, e))
  {
    var s' := Apply(s, e);
    var sends := e.Request? && e.t in s.handlers && At(s, e.t).Reserved? && !At(s, e.t).dispatched;
    if sends {
      assert Fresh(s, e.t, s.handlers[e.t].pc);
      forall t ensures WasSent(s', t) <==> t == e.t || WasSent(s, t) {
        SentMore(s, s', Sent(e.t, At(s, e.t).backend), t);
      }
    } else {
      assert s'.log == s.log;
      assert forall t :: WasSent(s', t) <==> WasSent(s, t);
    }
    hide WasSent;
    forall t | t in s'.handlers ensures Fresh(s', t, s'.handlers[t].pc) {
      if t != e.t {
        assert Fresh(s, t, s.handlers[t].pc);
      }
    }
  }

  /** Whatever the threads do, in any order: exact counts, every slot accounted for, at most one request each. */
  lemma {:induction false} RunKeepsGood(s: Mesh, es: seq<Event>)
    requires Good(s)
    ensures Good(Run(s, es))
    decreases |es|
  {
    hide Exact, Slots, AtMostOnce, Apply;
    if es != [] {
      StepExact(s, es[0]);
      StepSlots(s, es[0]);
      StepAtMostOnce(s, es[0]);
      RunKeepsGood(Apply(s, es[0]), es[1..]);
    }
  }

  /** From the start: never more than eight handlers, at most one request for each client, and once all
      handlers are gone every count is back at zero and every slot is free. */
  lemma RunFromStart(es: seq<Event>)
    ensures var s := Run(Start(), es);
            && 0 <= s.free && s.free + |s.handlers| == MAX_CLIENTS
            && (forall i, j :: 0 <= i < j < |s.log| ==> s.log[i].client != s.log[j].client)
            && (s.handlers == map[] ==> s.inflight == Load(0, 0) && s.free == MAX_CLIENTS)
  {
    hide Apply, Fresh, Start;
    StartGood();
    RunKeepsGood(Start(), es);
    var s := Run(Start(), es);
    assert s.handlers == map[] ==> Holding(s, Dgpu) == {} && Holding(s, Igpu) == {};
  }

  /** A first pick for anything but embeddings reserves a backend that no other backend undercuts, the
      GPU on a tie; embeddings go to the integrated one. */
  lemma PickMinimal(s: Mesh, t: nat)
    requires Good(s) && t in s.handlers && s.handlers[t].pc == Looping(0, None)
    ensures var pc := Apply(s, Pick(t)).handlers[t].pc;
            && pc.Reserved? && !pc.dispatched
            && Apply(s, Pick(t)).inflight.Of(pc.backend) == s.inflight.Of(pc.backend) + 1
            && (if s.handlers[t].embed then pc.backend == Igpu
                else |Holding(s, pc.backend)| <= |Holding(s, Other(pc.backend))|
                     && (|Holding(s, Dgpu)| == |Holding(s, Igpu)| ==> pc.backend == Dgpu))
  {
    hide Slots, AtMostOnce;
  }

  /** A second pick happens only for a client that was never sent anywhere, and takes the other backend. */
  lemma FallbackIsOther(s: Mesh, t: nat, closeRaises: bool)
    requires Good(s) && t in s.handlers && s.handlers[t].pc.Releasing?
    ensures var s' := Apply(s, Release(t, closeRaises));
            s'.handlers[t].pc.Looping? ==>
              && !WasSent(s, t)
              && Apply(s', Pick(t)).handlers[t].pc == Reserved(1, Other(s.handlers[t].pc.backend), false)
  {
    hide Exact, Slots, WasSent;
    assert Fresh(s, t, s.handlers[t].pc);
  }

  // ----- one handler's thread -----

  datatype Attempt = Attempt(backend: Backend, unknown: bool)

  /** How a handler ends: the response went through, an error answer was sent, or an exception left the loop. */
  datatype Reply = Relayed | Answered | Escaped

  /** The trail and the requests of one client agree: connect failures only, on distinct backends, before
      the one backend that got the request, which a failed relay marks as unknown. */
  predicate Honest(attempts: seq<Attempt>, requests: seq<Backend>) {
    && |attempts| <= 2 && |requests| <= 1
    && (|attempts| == 2 ==> !attempts[0].unknown && attempts[0].backend != attempts[1].backend)
    && (forall k :: 0 <= k < |attempts| ==> (attempts[k].unknown ==> requests == [attempts[k].backend]))
    && (forall k :: 0 <= k < |attempts| ==> (!attempts[k].unknown ==> attempts[k].backend !in requests))
  }

  /** The backends client `t` was sent to, in order. */
  function Requests(log: seq<Sent>, t: nat): seq<Backend> {
    if log == [] then []
    else
      var x := log[|log| - 1];
      Requests(log[..|log| - 1], t) + if x.client == t then [x.backend] else []
  }

  lemma {:induction false} NotSentNoRequests(log: seq<Sent>, t: nat)
    requires forall i :: 0 <= i < |log| ==> log[i].client != t
    ensures Requests(log, t) == []
  {
    if log != [] {
      NotSentNoRequests(log[..|log| - 1], t);
    }
  }

  ghost predicate Reaches(s: Mesh, s': Mesh) { exists es :: Run(s, es) == s' }

  lemma {:induction false} RunConcat(s: Mesh, a: seq<Event>, b: seq<Event>)
    ensures Run(s, a + b) == Run(Run(s, a), b)
    decreases |a|
  {
    hide Apply;
    if a == [] {
      assert a + b == b;
    } else {
      assert (a + b)[1..] == a[1..] + b;
      RunConcat(Apply(s, a[0]), a[1..], b);
    }
  }

  lemma ReachesStep(s: Mesh, m: Mesh, e: Event)
    requires Reaches(s, m)
    ensures Reaches(s, Apply(m, e))
  {
    hide Apply;
    var es :| Run(s, es) == m;
    RunConcat(s, es, [e]);
    assert Run(m, [e]) == Run(Apply(m, e), []);
    assert Run(s, es + [e]) == Apply(m, e);
  }

  lemma ReachesRun(s: Mesh, m: Mesh, more: seq<Event>)
    requires Reaches(s, m)
    ensures Reaches(s, Run(m, more))
  {
    hide Run;
    var es :| Run(s, es) == m;
    RunConcat(s, es, more);
  }

  lemma ReachesOn(s: Mesh, m: Mesh, s': Mesh)
    requires Reaches(s, m) && Reaches(m, s')
    ensures Reaches(s, s')
  {
    hide Run;
    var more :| Run(m, more) == s';
    ReachesRun(s, m, more);
  }

  lemma ReachesSelf(s: Mesh)
    ensures Reaches(s, s)
  {
    assert Run(s, []) == s;
  }

  lemma StepGood(s: Mesh, e: Event)
    requires Good(s)
    ensures Good(Apply(s, e))
  {
    hide Exact, Slots, AtMostOnce, Apply;
    StepExact(s, e);
    StepSlots(s, e);
    StepAtMostOnce(s, e);
  }

  /** What other handlers do leaves this one where it is and sends nothing for it. */
  predicate Steady(s: Mesh, s': Mesh, t: nat) {
    && t in s.handlers && t in s'.handlers && s'.handlers[t] == s.handlers[t]
    && Requests(s'.log, t) == Requests(s.log, t)
  }

  lemma OtherStep(s: Mesh, e: Event, t: nat)
    requires t in s.handlers && e.t != t
    ensures Steady(s, Apply(s, e), t)
  {
    var s' := Apply(s, e);
    assert s'.log == s.log || s'.log[..|s'.log| - 1] == s.log;
  }

  lemma {:induction false} OthersSteady(s: Mesh, es: seq<Event>, t: nat)
    requires t in s.handlers && forall i :: 0 <= i < |es| ==> es[i].t != t
    ensures Steady(s, Run(s, es), t)
    decreases |es|
  {
    hide Apply;
    if es != [] {
      OtherStep(s, es[0], t);
      OthersSteady(Apply(s, es[0]), es[1..], t);
    }
  }

  /** Handler `t` is at `pc`, and `requests` is what has been sent for it. */
  predicate HandlerAt(s: Mesh, t: nat, embed: bool, pc: Pc, requests: seq<Backend>) {
    t in s.handlers && s.handlers[t] == Handler(embed, pc) && Requests(s.log, t) == requests
  }

  /** Where a handler's own events, apart from reserving and releasing, take it. */
  lemma OwnStep(s: Mesh, t: nat, embed: bool, pc: Pc, requests: seq<Backend>, e: Event)
    requires HandlerAt(s, t, embed, pc, requests) && e.t == t && !e.Pick? && !e.Release?
    ensures var s' := Apply(s, e);
            && s'.inflight == s.inflight
            && (e.Admit? && pc.Reading? ==> HandlerAt(s', t, embed, Looping(0, None), requests))
            && (e.Refuse? && pc.Looping? ==> HandlerAt(s', t, embed, Ended, requests))
            && (e.Request? && pc.Reserved? && !pc.dispatched ==>
                  HandlerAt(s', t, embed, Reserved(pc.index, pc.backend, true), requests + [pc.backend]))
            && (e.ConnectFails? && pc.Reserved? && !pc.dispatched ==>
                  HandlerAt(s', t, embed, Releasing(pc.index, pc.backend, pc.index == 0), requests))
            && (e.Finish? && pc.Reserved? && pc.dispatched ==>
                  HandlerAt(s', t, embed, Releasing(pc.index, pc.backend, false), requests))
            && (e.Escape? && pc.Reserved? ==>
                  HandlerAt(s', t, embed, Releasing(pc.index, pc.backend, false), requests))
  {
    var s' := Apply(s, e);
    assert s'.log == s.log || s'.log[..|s'.log| - 1] == s.log;
  }

  lemma OthersHandlerAt(s: Mesh, es: seq<Event>, t: nat, embed: bool, pc: Pc, requests: seq<Backend>)
    requires HandlerAt(s, t, embed, pc, requests) && forall i :: 0 <= i < |es| ==> es[i].t != t
    ensures HandlerAt(Run(s, es), t, embed, pc, requests)
  {
    OthersSteady(s, es, t);
  }

  /** What a handler's trail, its reply and its first pick have to do with what was sent for it. */
  ghost predicate Accounted(embed: bool, attempts: seq<Attempt>, reply: Reply, first: Option<(Backend, Mesh)>,
                            requests: seq<Backend>)
  {
    && Honest(attempts, requests)
    && (reply.Relayed? ==> |requests| == 1 && forall k :: 0 <= k < |attempts| ==> !attempts[k].unknown)
    && (reply.Answered? ==> attempts != [] && (requests == [] ==> |attempts| == 2))
    && (first.Some? ==> first.value.0 == PickBackend(embed, first.value.1.inflight).0 && Exact(first.value.1))
    && (attempts != [] ==> first.Some? && attempts[0].backend == first.value.0)
    && (requests != [] ==> first.Some? && (requests[0] == first.value.0 || (attempts != [] && !attempts[0].unknown)))
  }

  /** The first pick was made on a mesh of this very run, with this handler about to pick. */
  ghost predicate PickedOnTheWay(s: Mesh, t: nat, embed: bool, first: Option<(Backend, Mesh)>, s': Mesh) {
    first.Some? ==> ByWayOf(s, t, embed, 0, None, first.value.1, s')
  }

  ghost predicate ByWayOf(s: Mesh, t: nat, embed: bool, index: nat, fallback: Option<Backend>, m: Mesh, s': Mesh) {
    Reaches(s, m) && HandlerAt(m, t, embed, Looping(index, fallback), []) && Reaches(Apply(m, Pick(t)), s')
  }

  lemma ByWayOfPick(s: Mesh, t: nat, embed: bool, index: nat, fallback: Option<Backend>, m: Mesh, s': Mesh)
    requires Reaches(s, m) && HandlerAt(m, t, embed, Looping(index, fallback), []) && Reaches(Apply(m, Pick(t)), s')
    ensures ByWayOf(s, t, embed, index, fallback, m, s') && Reaches(s, s')
  {
    hide Reaches, Apply;
    ReachesStep(s, m, Pick(t));
    ReachesOn(s, Apply(m, Pick(t)), s');
  }

  /** `base` is where the first pick led. */
  ghost predicate PickedAt(s: Mesh, t: nat, embed: bool, first: Option<(Backend, Mesh)>, base: Mesh) {
    && first.Some? && Reaches(s, first.value.1) && HandlerAt(first.value.1, t, embed, Looping(0, None), [])
    && base == Apply(first.value.1, Pick(t))
  }

  /** What one pass of the loop tells: it goes on exactly when the first backend could not be reached and
      nothing else went wrong. */
  predicate Outcome(late: bool, again: bool, index: nat, backend: Backend, attempt: Option<Attempt>, reply: Reply,
                    requests: seq<Backend>)
  {
    && (requests == [] || requests == [backend])
    && (attempt.Some? ==> attempt.value == Attempt(backend, requests == [backend]))
    && (late ==> attempt == None && reply == Escaped && requests == [])
    && (again ==> index == 0 && attempt == Some(Attempt(backend, false)) && !late)
    && (attempt.None? ==> reply.Escaped? || (reply.Relayed? && requests == [backend]))
    && (reply.Answered? && !again ==> attempt.Some? && (index == 0 ==> requests != []))
    && (reply.Relayed? ==> attempt == None)
  }

  /** The trail after a first pass. */
  predicate AfterFirst(embed: bool, attempts: seq<Attempt>, first: Option<(Backend, Mesh)>, fallback: Backend) {
    && first.Some? && first.value.0 == PickBackend(embed, first.value.1.inflight).0 && Exact(first.value.1)
    && fallback == Other(first.value.0) && attempts == [Attempt(first.value.0, false)]
  }

  lemma EndsAtFirst(late: bool, embed: bool, backend: Backend, attempt: Option<Attempt>, reply: Reply,
                    requests: seq<Backend>, before: Mesh)
    requires Outcome(late, false, 0, backend, attempt, reply, requests)
    requires !late ==> Exact(before) && backend == PickBackend(embed, before.inflight).0
    ensures Accounted(embed, if attempt.Some? then [attempt.value] else [], reply,
                      if late then None else Some((backend, before)), requests)
  {
    hide PickBackend, Exact;
  }

  lemma EndsAtSecond(late: bool, embed: bool, attempt: Option<Attempt>, reply: Reply, requests: seq<Backend>,
                     attempts: seq<Attempt>, first: Option<(Backend, Mesh)>, fallback: Backend)
    requires AfterFirst(embed, attempts, first, fallback)
    requires Outcome(late, false, 1, fallback, attempt, reply, requests)
    ensures Accounted(embed, attempts + if attempt.Some? then [attempt.value] else [], reply, first, requests)
  {
    hide PickBackend, Exact;
  }

  /** The process as the thread of one handler runs in it. `inflight` is the global dictionary; `mesh` is
      bookkeeping of the model: the state of the machine above, whose events the methods below are. */
  class Process {
    var inflight: Load
    var mesh: Mesh

    constructor ()
      ensures Valid() && mesh == Start()
    {
      inflight, mesh := Load(0, 0), Start();
      StartGood();
    }

    ghost predicate Valid()
      reads this
    {
      Good(mesh) && inflight == mesh.inflight
    }

    /** The mesh is one that a run of the machine leads to from `s`. */
    ghost predicate Since(s: Mesh)
      reads this
    {
      Valid() && Reaches(s, mesh)
    }

    /** An event of the machine that leaves the counts alone. */
    method Note(ghost s: Mesh, e: Event, ghost embed: bool, ghost pc: Pc, ghost requests: seq<Backend>)
      requires Since(s) && HandlerAt(mesh, e.t, embed, pc, requests) && !e.Pick? && !e.Release?
      modifies this`mesh
      ensures Since(s) && mesh == Apply(old(mesh), e)
    {
      hide Good, Apply, Reaches, HandlerAt;
      OwnStep(mesh, e.t, embed, pc, requests, e);
      StepGood(mesh, e);
      ReachesStep(s, mesh, e);
      mesh := Apply(mesh, e);
    }

    /** Other handlers, existing and new, take any number of steps. */
    method Interfere(ghost s: Mesh, t: nat, ghost embed: bool, ghost pc: Pc, ghost requests: seq<Backend>)
      requires Since(s) && HandlerAt(mesh, t, embed, pc, requests)
      modifies this
      ensures Since(s) && HandlerAt(mesh, t, embed, pc, requests)
    {
      hide Good, Run, Reaches, HandlerAt;
      var es: seq<Event> := *;
      if forall i :: 0 <= i < |es| ==> es[i].t != t {
        RunKeepsGood(mesh, es);
        OthersHandlerAt(mesh, es, t, embed, pc, requests);
        ReachesRun(s, mesh, es);
        mesh := Run(mesh, es);
        inflight := mesh.inflight;
      }
    }

    /** Under the lock: pick a backend, or take the fallback, and count it. */
    method Reserve(ghost s: Mesh, t: nat, embed: bool, index: nat, fallback: Backend)
      returns (backend: Backend, next: Backend)
      requires Since(s) && HandlerAt(mesh, t, embed, Looping(index, if index == 0 then None else Some(fallback)), [])
      modifies this
      ensures Since(s) && HandlerAt(mesh, t, embed, Reserved(index, backend, false), [])
      ensures mesh == Apply(old(mesh), Pick(t))
      ensures if index == 0 then (backend, next) == PickBackend(embed, old(mesh).inflight)
              else backend == fallback && next == fallback
    {
      hide Good, Reaches;
      StepGood(mesh, Pick(t));
      ReachesStep(s, mesh, Pick(t));
      if index == 0 {
        var (pick, other) := PickBackend(embed, inflight);
        backend, next := pick, other;
      } else {
        backend, next := fallback, fallback;
      }
      inflight := inflight.Plus(backend, 1);
      mesh := Apply(mesh, Pick(t));
    }

    /** The finally block. */
    method Free(ghost s: Mesh, t: nat, ghost embed: bool, ghost index: nat, b: Backend, ghost again: bool,
                closeRaises: bool, ghost requests: seq<Backend>)
      requires Since(s) && HandlerAt(mesh, t, embed, Releasing(index, b, again), requests)
      modifies this
      ensures Since(s)
      ensures HandlerAt(mesh, t, embed, if again && !closeRaises then Looping(index + 1, Some(Other(b))) else Ended,
                        requests)
    {
      hide Good, Reaches;
      StepGood(mesh, Release(t, closeRaises));
      ReachesStep(s, mesh, Release(t, closeRaises));
      inflight := inflight.Plus(b, -1);
      mesh := Apply(mesh, Release(t, closeRaises));
    }

    /** `dispatched = True`, then `conn.request`. */
    method Dispatch(ghost s: Mesh, t: nat, ghost embed: bool, ghost index: nat, b: Backend)
      requires Since(s) && HandlerAt(mesh, t, embed, Reserved(index, b, false), [])
      modifies this
      ensures Since(s) && HandlerAt(mesh, t, embed, Reserved(index, b, true), [b])
    {
      hide Good, Reaches, Apply, HandlerAt;
      OwnStep(mesh, t, embed, Reserved(index, b, false), [], Request(t));
      assert [] + [b] == [b];
      Note(s, Request(t), embed, Reserved(index, b, false), []);
    }

    /** The try block with a backend reserved: connect, send, relay; and which failures the handler catches. */
    method Exchange(ghost s: Mesh, t: nat, ghost embed: bool, ghost index: nat, b: Backend)
      returns (attempt: Option<Attempt>, reply: Reply, ghost requests: seq<Backend>)
      requires Since(s) && HandlerAt(mesh, t, embed, Reserved(index, b, false), [])
      modifies this
      ensures requests == [] || requests == [b]
      ensures Since(s)
      ensures HandlerAt(mesh, t, embed, Releasing(index, b, index == 0 && attempt == Some(Attempt(b, false))), requests)
      ensures attempt.Some? ==> reply.Answered? && attempt.value == Attempt(b, requests == [b])
      ensures attempt.None? ==> reply.Escaped? || (reply.Relayed? && requests == [b])
    {
      hide Good, Reaches, Apply, HandlerAt;
      var connects, relays, caught := *, *, *;
      attempt, requests := None, [];
      var dispatched := false;
      if connects {
        dispatched := true;
        Dispatch(s, t, embed, index, b);
        requests := [b];
        Interfere(s, t, embed, Reserved(index, b, true), requests);
      }
      ghost var pc := Reserved(index, b, dispatched);
      var e := if dispatched then Finish(t) else ConnectFails(t);
      if dispatched && relays {
        reply := Relayed;
      } else if caught {
        attempt, reply := Some(Attempt(b, dispatched)), Answered;
      } else {
        e, reply := Escape(t), Escaped;
      }
      OwnStep(mesh, t, embed, pc, requests, e);
      Note(s, e, embed, pc, requests);
    }

    /** The request goes to the backends. */
    method Enter(t: nat, embed: bool)
      requires Valid() && t in mesh.handlers && mesh.handlers[t] == Handler(embed, Reading)
      modifies this
      ensures Since(old(mesh)) && HandlerAt(mesh, t, embed, Looping(0, None), [])
    {
      StartsHere(mesh, t);
      hide Good, Reaches, Apply, Requests;
      OwnStep(mesh, t, embed, Reading, [], Admit(t));
      Note(mesh, Admit(t), embed, Reading, []);
    }

    /** The deadline passed before a backend was reserved. */
    method GiveUp(ghost s: Mesh, t: nat, ghost embed: bool, ghost index: nat, ghost fallback: Backend)
      requires Since(s)
      requires HandlerAt(mesh, t, embed, Looping(index, if index == 0 then None else Some(fallback)), [])
      modifies this
      ensures Since(s) && HandlerAt(mesh, t, embed, Ended, [])
    {
      hide Good, Reaches, Apply, HandlerAt;
      ghost var pc := Looping(index, if index == 0 then None else Some(fallback));
      OwnStep(mesh, t, embed, pc, [], Refuse(t));
      Note(s, Refuse(t), embed, pc, []);
    }

    /** One pass of the loop. `again`: the backend could not be reached and the fallback is next. */
    method Turn(ghost s: Mesh, t: nat, embed: bool, index: nat, fallback: Backend)
      returns (late: bool, again: bool, backend: Backend, next: Backend, attempt: Option<Attempt>, reply: Reply,
               ghost before: Mesh, ghost requests: seq<Backend>)
      requires Since(s) && index <= 1
      requires HandlerAt(mesh, t, embed, Looping(index, if index == 0 then None else Some(fallback)), [])
      modifies this
      ensures Since(s) && HandlerAt(mesh, t, embed, if again then Looping(1, Some(next)) else Ended, requests)
      ensures !late ==> Exact(before) && (if index == 0 then (backend, next) == PickBackend(embed, before.inflight)
                                          else backend == fallback && next == fallback)
      ensures !late ==>
                ByWayOf(s, t, embed, index, if index == 0 then None else Some(fallback), before, mesh)
      ensures Outcome(late, again, index, backend, attempt, reply, requests)
    {
      hide Good, Reaches, HandlerAt, PickBackend, Exact, Apply;
      var closeRaises;
      late, closeRaises := *, *;
      backend, next := fallback, fallback;
      Interfere(s, t, embed, Looping(index, if index == 0 then None else Some(fallback)), []);
      before := mesh;
      GoodExact(before);
      if late {
        GiveUp(s, t, embed, index, fallback);
        again, attempt, reply, requests := false, None, Escaped, [];
        return;
      }
      backend, next := Reserve(s, t, embed, index, fallback);
      ghost var m := mesh;
      ReachesSelf(m);
      Interfere(m, t, embed, Reserved(index, backend, false), []);
      attempt, reply, requests := Exchange(m, t, embed, index, backend);
      again := index == 0 && attempt == Some(Attempt(backend, false));
      Interfere(m, t, embed, Releasing(index, backend, again), requests);
      Free(m, t, embed, index, backend, again, closeRaises, requests);
      ByWayOfPick(s, t, embed, index, if index == 0 then None else Some(fallback), before, mesh);
      if closeRaises {
        again, reply := false, Escaped;
      }
    }

    lemma AfterPick(s: Mesh, t: nat, embed: bool, index: nat, late: bool, backend: Backend, before: Mesh)
      returns (base: Mesh)
      requires Since(s) && index == 0 && !late && ByWayOf(s, t, embed, 0, None, before, mesh)
      ensures Since(base) && PickedAt(s, t, embed, Some((backend, before)), base)
    {
      hide Good, Reaches, HandlerAt, Apply;
      base := Apply(before, Pick(t));
    }

    lemma SecondOnTheWay(s: Mesh, t: nat, embed: bool, first: Option<(Backend, Mesh)>, base: Mesh)
      requires Since(base) && PickedAt(s, t, embed, first, base)
      ensures Since(s) && PickedOnTheWay(s, t, embed, first, mesh)
    {
      hide Good, Reaches, HandlerAt, Apply;
      ByWayOfPick(s, t, embed, 0, None, first.value.1, mesh);
    }

    /** `_proxy` once the request is read. It is a run of the machine in which this handler ends, so every
        path gives back what it reserved; the client is sent at most once, and to the fallback only when
        nothing could have reached the first backend. `first` is the first pick and the mesh it was made on. */
    method Proxy(t: nat, embed: bool)
      returns (attempts: seq<Attempt>, reply: Reply, ghost first: Option<(Backend, Mesh)>)
      requires Valid() && t in mesh.handlers && mesh.handlers[t] == Handler(embed, Reading)
      modifies this
      ensures Since(old(mesh)) && HandlerAt(mesh, t, embed, Ended, Requests(mesh.log, t))
      ensures Accounted(embed, attempts, reply, first, Requests(mesh.log, t))
      ensures PickedOnTheWay(old(mesh), t, embed, first, mesh)
    {
      attempts, first := [], None;
      ghost var s, base := mesh, mesh;
      Enter(t, embed);
      hide *;
      var fallback := Igpu;
      var index := 0;
      while true
        invariant Since(base) && 0 <= index <= 1
        invariant HandlerAt(mesh, t, embed, Looping(index, if index == 0 then None else Some(fallback)), [])
        invariant if index == 0 then attempts == [] && first == None && base == s
                  else AfterFirst(embed, attempts, first, fallback) && PickedAt(s, t, embed, first, base)
        decreases 2 - index
      {
        hide *;
        var late, again, backend, next, attempt;
        ghost var before, requests;
        late, again, backend, next, attempt, reply, before, requests := Turn(base, t, embed, index, fallback);
        if !again {
          SameRequests(mesh, t, embed, requests);
          if index == 0 {
            EndsAtFirst(late, embed, backend, attempt, reply, requests, before);
            attempts := if attempt.Some? then [attempt.value] else [];
            first := if late then None else Some((backend, before));
            EndsOnTheWay(s, t, embed, late, backend, before, mesh);
            return;
          }
          SecondOnTheWay(s, t, embed, first, base);
          EndsAtSecond(late, embed, attempt, reply, requests, attempts, first, fallback);
          attempts := attempts + if attempt.Some? then [attempt.value] else [];
          return;
        }
        GoesOn(embed, index, late, backend, next, attempt, reply, requests, before);
        attempts, first := [attempt.value], Some((backend, before));
        base := AfterPick(s, t, embed, index, late, backend, before);
        fallback, index := next, index + 1;
      }
    }
  }

  lemma EndsOnTheWay(s: Mesh, t: nat, embed: bool, late: bool, backend: Backend, before: Mesh, s': Mesh)
    requires !late ==> ByWayOf(s, t, embed, 0, None, before, s')
    ensures PickedOnTheWay(s, t, embed, if late then None else Some((backend, before)), s')
  {
  }

  lemma GoesOn(embed: bool, index: nat, late: bool, backend: Backend, next: Backend, attempt: Option<Attempt>,
               reply: Reply, requests: seq<Backend>, before: Mesh)
    requires Outcome(late, true, index, backend, attempt, reply, requests)
    requires !late && index == 0 ==> Exact(before) && (backend, next) == PickBackend(embed, before.inflight)
    ensures index == 0 && !late && attempt.Some? && AfterFirst(embed, [attempt.value], Some((backend, before)), next)
  {
    hide Exact;
  }

  lemma StartsHere(s: Mesh, t: nat)
    requires Good(s) && t in s.handlers && s.handlers[t].pc.Reading?
    ensures Reaches(s, s) && Requests(s.log, t) == []
  {
    assert Run(s, []) == s;
    assert Fresh(s, t, s.handlers[t].pc);
    NotSentNoRequests(s.log, t);
  }

  lemma SameRequests(s: Mesh, t: nat, embed: bool, requests: seq<Backend>)
    requires HandlerAt(s, t, embed, Ended, requests)
    ensures Requests(s.log, t) == requests
  {
  }

  lemma GoodExact(s: Mesh)
    requires Good(s)
    ensures Exact(s)
  {
  }
}
