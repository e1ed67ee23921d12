/** One logical request's attempt counter and absolute deadline, shared by everything that serves it.
    Each method of the class runs under one lock, so concurrent use is a sequence of whole methods. */
module RequestBudget {
  import opened Text

  const MAX_ATTEMPT_CEILING: nat := 16

  datatype Reason =
    | Success | TestsFailed | AttemptExhausted | DeadlineExhausted
    | ProviderUnavailable | PolicyBlocked | CostUnknown | Cancellation

  datatype InFlight = Nothing | Known | Unknown

  datatype Row = Row(attempt: nat, known: bool)

  /** A number a caller or a clock supplies: `_finite_real` refuses all but finite ones. */
  datatype Number = Finite(v: real) | NotFinite

  datatype State = State(
    maxAttempts: nat, deadline: real, reserved: nat, cancelled: bool,
    terminal: Option<Reason>, inFlight: InFlight, dispatches: seq<Row>)

  /** What a call returns or raises: `Stopped` is BudgetStop, `Rejected` is ValueError. */
  datatype Reply =
    | Granted(attempt: nat, sendTimeout: real)
    | Stopped(reason: Reason, inFlight: InFlight)
    | Rejected
    | Done
    | Allowed(ok: bool)

  function Stop(s: State, reason: Reason): (State, Reply) {
    (s.(terminal := Some(reason)), Stopped(reason, s.inFlight))
  }

  function ReserveStep(s: State, timeout: Number, now: Number): (State, Reply) {
    if timeout.NotFinite? || timeout.v <= 0.0 then (s, Rejected)
    else if s.terminal.Some? then (s, Stopped(s.terminal.value, s.inFlight))
    else if s.cancelled then Stop(s, Cancellation)
    else if now.NotFinite? then (s, Rejected)
    else if now.v >= s.deadline then Stop(s, DeadlineExhausted)
    else if s.reserved >= s.maxAttempts then Stop(s, AttemptExhausted)
    else
      var remain := s.deadline - now.v;
      var sendTimeout := if timeout.v <= remain then timeout.v else remain;
      if sendTimeout <= 0.0 then Stop(s, DeadlineExhausted)
      else
        (s.(reserved := s.reserved + 1, inFlight := Unknown, dispatches := s.dispatches + [Row(s.reserved + 1, false)]),
         Granted(s.reserved + 1, sendTimeout))
  }

  /** Index of the first row with this attempt number, or the length. */
  function Find(rows: seq<Row>, attempt: int): (i: nat)
    ensures i <= |rows| && (i < |rows| ==> rows[i].attempt == attempt)
    ensures forall k :: 0 <= k < i ==> rows[k].attempt != attempt
  {
    if rows == [] || rows[0].attempt == attempt then 0 else 1 + Find(rows[1..], attempt)
  }

  predicate AnyUnknown(rows: seq<Row>) { exists i :: 0 <= i < |rows| && !rows[i].known }

  function Label(rows: seq<Row>): InFlight {
    if rows == [] then Nothing else if AnyUnknown(rows) then Unknown else Known
  }

  function NoteOutcomeStep(s: State, attempt: int, known: bool): (State, Reply) {
    var i := Find(s.dispatches, attempt);
    if attempt < 1 || i == |s.dispatches| then (s, Rejected)
    else
      var rows := s.dispatches[i := s.dispatches[i].(known := known)];
      (s.(dispatches := rows, inFlight := if AnyUnknown(rows) then Unknown else Known), Done)
  }

  function AllowBackoffStep(s: State, delay: Number, now: Number): (State, Reply) {
    if delay.NotFinite? || delay.v < 0.0 then (s, Rejected)
    else if s.cancelled then
      (if s.terminal.None? then s.(terminal := Some(Cancellation)) else s, Allowed(false))
    else if s.terminal.Some? then (s, Allowed(false))
    else if s.reserved >= s.maxAttempts then (s.(terminal := Some(AttemptExhausted)), Allowed(false))
    else if now.NotFinite? then (s, Rejected)
    else if s.deadline - now.v <= delay.v then (s.(terminal := Some(DeadlineExhausted)), Allowed(false))
    else (s, Allowed(true))
  }

  function CancelStep(s: State): State {
    s.(cancelled := true,
       terminal := if s.terminal.None? && s.inFlight.Nothing? then Some(Cancellation) else s.terminal)
  }

  function CloseStep(s: State, reason: Reason): (State, Reply) {
    if reason == Success then (s, Rejected)
    else (if s.terminal.None? then s.(terminal := Some(reason)) else s, Done)
  }

  function MarkSuccessStep(s: State): State { if s.terminal.None? then s.(terminal := Some(Success)) else s }

  /** The constructor, with its refusals. */
  function Create(maxAttempts: int, deadline: Number, now: Number): Option<State> {
    if !(1 <= maxAttempts <= MAX_ATTEMPT_CEILING) || deadline.NotFinite? || now.NotFinite? then None
    else Some(State(maxAttempts, deadline.v, 0, false, None, Nothing, []))
  }

  predicate Valid(s: State) {
    && 1 <= s.maxAttempts <= MAX_ATTEMPT_CEILING
    && s.reserved == |s.dispatches| <= s.maxAttempts
    && (forall i :: 0 <= i < |s.dispatches| ==> s.dispatches[i].attempt == i + 1)
    && s.inFlight == Label(s.dispatches)
  }

  // ----- any sequence of calls, from any threads -----

  /** Whose call it is: the request's own, or another thread's. */
  datatype Caller = Own | Other

  datatype Op =
    | OpReserve(timeout: Number, now: Number)
    | OpNote(attempt: int, known: bool)
    | OpBackoff(delay: Number, now: Number)
    | OpCancel(who: Caller)
    | OpClose(reason: Reason, who: Caller)
    | OpSuccess

  function Step(s: State, op: Op): (State, Reply) {
    match op
    case OpReserve(timeout, now) => ReserveStep(s, timeout, now)
    case OpNote(attempt, known) => NoteOutcomeStep(s, attempt, known)
    case OpBackoff(delay, now) => AllowBackoffStep(s, delay, now)
    case OpCancel(_) => (CancelStep(s), Done)
    case OpClose(reason, _) => CloseStep(s, reason)
    case OpSuccess => (MarkSuccessStep(s), Done)
  }

  function Run(s: State, ops: seq<Op>): State
    decreases |ops|
  {
    if ops == [] then s else Run(Step(s, ops[0]).0, ops[1..])
  }

  /** How many reservations succeed in a run. */
  function Grants(s: State, ops: seq<Op>): nat
    decreases |ops|
  {
    if ops == [] then 0
    else (if Step(s, ops[0]).1.Granted? then 1 else 0) + Grants(Step(s, ops[0]).0, ops[1..])
  }

  /** When a reservation succeeds, and what it grants: a window that ends by the deadline. */
  lemma ReserveExact(s: State, timeout: Number, now: Number)
    requires Valid(s)
    ensures ReserveStep(s, timeout, now).1.Granted? <==>
            timeout.Finite? && timeout.v > 0.0 && now.Finite? && now.v < s.deadline
            && s.terminal.None? && !s.cancelled && s.reserved < s.maxAttempts
    ensures match ReserveStep(s, timeout, now).1
            case Granted(n, window) => n == s.reserved + 1 && 0.0 < window <= timeout.v && now.v + window <= s.deadline
            case _ => ReserveStep(s, timeout, now).0.dispatches == s.dispatches
  {
  }

  /** The reason a stop carries: the first of cancellation, deadline and attempts that a reservation runs into,
      the first of cancellation, attempts and deadline for a backoff. A stop reports the reason that stands. */
  lemma StopReasonExact(s: State, timeout: Number, delay: Number, now: real)
    requires Valid(s) && s.terminal.None? && timeout.Finite? && timeout.v > 0.0 && delay.Finite? && delay.v >= 0.0
    ensures var (t, r) := ReserveStep(s, timeout, Finite(now));
            && (t.terminal == Some(Cancellation) <==> s.cancelled)
            && (t.terminal == Some(DeadlineExhausted) <==> !s.cancelled && now >= s.deadline)
            && (t.terminal == Some(AttemptExhausted) <==>
                  !s.cancelled && now < s.deadline && s.reserved >= s.maxAttempts)
            && (t.terminal.None? || t.terminal.value in {Cancellation, DeadlineExhausted, AttemptExhausted})
            && (r.Stopped? <==> t.terminal.Some?) && (r.Stopped? ==> r == Stopped(t.terminal.value, s.inFlight))
    ensures var t := AllowBackoffStep(s, delay, Finite(now)).0;
            && (t.terminal == Some(Cancellation) <==> s.cancelled)
            && (t.terminal == Some(AttemptExhausted) <==> !s.cancelled && s.reserved >= s.maxAttempts)
            && (t.terminal == Some(DeadlineExhausted) <==>
                  !s.cancelled && s.reserved < s.maxAttempts && now + delay.v >= s.deadline)
            && (t.terminal.None? || t.terminal.value in {Cancellation, DeadlineExhausted, AttemptExhausted})
  {
  }

  /** What ends a budget: a cancellation is the reason at once only if nothing was ever dispatched, and neither
      it nor a close nor a success replaces a reason that stands. */
  lemma EndingExact(s: State, reason: Reason)
    requires Valid(s)
    ensures var t := CancelStep(s);
            && t == s.(cancelled := true, terminal := t.terminal)
            && t.terminal == if s.terminal.None? && s.dispatches == [] then Some(Cancellation) else s.terminal
    ensures var (t, r) := CloseStep(s, reason);
            && t == s.(terminal := t.terminal) && (r == Rejected <==> reason == Success)
            && t.terminal == if s.terminal.None? && reason != Success then Some(reason) else s.terminal
    ensures var t := MarkSuccessStep(s);
            t == s.(terminal := t.terminal) && (t.terminal == Some(Success) <==> s.terminal in {None, Some(Success)})
    ensures MarkSuccessStep(s).terminal.Some?
  {
  }

  /** A backoff is allowed exactly when a later reservation could still be granted after it. */
  lemma BackoffExact(s: State, delay: Number, now: Number, timeout: Number)
    requires Valid(s) && delay.Finite? && delay.v >= 0.0 && now.Finite? && timeout.Finite? && timeout.v > 0.0
    ensures AllowBackoffStep(s, delay, now).1 == Allowed(ReserveStep(s, timeout, Finite(now.v + delay.v)).1.Granted?)
    ensures AllowBackoffStep(s, delay, now).1 == Allowed(true) ==>
              now.v + delay.v < s.deadline && AllowBackoffStep(s, delay, now).0 == s
  {
  }

  lemma StepKeepsValid(s: State, op: Op)
    requires Valid(s)
    ensures Valid(Step(s, op).0)
  {
    var rows := Step(s, op).0.dispatches;
    if op.OpReserve? && |rows| > |s.dispatches| {
      assert !rows[|rows| - 1].known;
    }
  }

  /** Over every run: rows numbered 1..n, never more than the ceiling, and the label exact: unknown as
      long as any dispatch is unresolved. */
  lemma {:induction false} RunKeepsValid(s: State, ops: seq<Op>)
    requires Valid(s)
    ensures Valid(Run(s, ops)) && Run(s, ops).maxAttempts == s.maxAttempts && Run(s, ops).deadline == s.deadline
    ensures Run(s, ops).reserved == s.reserved + Grants(s, ops) <= 16
    decreases |ops|
  {
    if ops != [] {
      StepKeepsValid(s, ops[0]);
      RunKeepsValid(Step(s, ops[0]).0, ops[1..]);
    }
  }

  /** The terminal reason is written once and never changes. */
  lemma {:induction false} TerminalWriteOnce(s: State, ops: seq<Op>)
    requires s.terminal.Some?
    ensures Run(s, ops).terminal == s.terminal
    decreases |ops|
  {
    if ops != [] {
      TerminalWriteOnce(Step(s, ops[0]).0, ops[1..]);
    }
  }

  /** After a cancellation or a terminal reason no reservation ever succeeds again, in any run. */
  lemma {:induction false} StopIsFinal(s: State, ops: seq<Op>)
    requires s.cancelled || s.terminal.Some?
    ensures Grants(s, ops) == 0 && Run(s, ops).reserved == s.reserved
    decreases |ops|
  {
    if ops != [] {
      StopIsFinal(Step(s, ops[0]).0, ops[1..]);
    }
  }

  /** One response never resolves another dispatch: only `note_outcome` with a row's own number can
      change that row, whatever else runs. */
  lemma {:induction false} OnlyOwnNote(s: State, ops: seq<Op>, i: nat)
    requires Valid(s) && i < |s.dispatches|
    requires forall k :: 0 <= k < |ops| ==> !(ops[k].OpNote? && ops[k].attempt == i + 1)
    ensures i < |Run(s, ops).dispatches| && Run(s, ops).dispatches[i] == s.dispatches[i]
    decreases |ops|
  {
    if ops != [] {
      StepKeepsValid(s, ops[0]);
      OnlyOwnNote(Step(s, ops[0]).0, ops[1..], i);
    }
  }

  /** So a dispatch that is never noted keeps the request's outcome unknown for good. */
  lemma UnnotedStaysUnknown(s: State, ops: seq<Op>, i: nat)
    requires Valid(s) && i < |s.dispatches| && !s.dispatches[i].known
    requires forall k :: 0 <= k < |ops| ==> !(ops[k].OpNote? && ops[k].attempt == i + 1)
    ensures Run(s, ops).inFlight == Unknown
  {
    OnlyOwnNote(s, ops, i);
    RunKeepsValid(s, ops);
  }

  lemma {:induction false} RunConcat(s: State, a: seq<Op>, b: seq<Op>)
    ensures Run(s, a + b) == Run(Run(s, a), b)
    decreases |a|
  {
    hide Step;
    if a == [] {
      assert a + b == b;
    } else {
      assert (a + b)[1..] == a[1..] + b;
      RunConcat(Step(s, a[0]).0, a[1..], b);
    }
  }

  predicate IsStopped(s: State) { s.cancelled || s.terminal.Some? }

  /** Of a whole history: from the first moment the budget is stopped, nothing more is reserved. */
  lemma NothingReservedAfterStop(s: State, ops: seq<Op>, k: nat)
    requires Valid(s) && k <= |ops| && IsStopped(Run(s, ops[..k]))
    ensures Run(s, ops).reserved == Run(s, ops[..k]).reserved
  {
    assert ops == ops[..k] + ops[k..];
    RunConcat(s, ops[..k], ops[k..]);
    StopIsFinal(Run(s, ops[..k]), ops[k..]);
  }

  /** An attempt reserved before a cancellation is still sent and noted after it: the stop refuses later
      reservations, not the send already authorised. */
  lemma ReservedBeforeStopIsSent(s: State, timeout: Number, now: Number, who: Caller)
    requires Valid(s) && s.dispatches == [] && ReserveStep(s, timeout, now).1.Granted?
    ensures var t := Run(s, [OpReserve(timeout, now), OpCancel(who), OpNote(1, true)]);
            t.cancelled && t.dispatches == [Row(1, true)] && t.inFlight == Known && t.terminal.None?
  {
    var ops := [OpReserve(timeout, now), OpCancel(who), OpNote(1, true)];
    assert ops[1..] == [OpCancel(who), OpNote(1, true)] && ops[1..][1..] == [OpNote(1, true)];
    assert ops[1..][1..][1..] == [];
    var reserved := ReserveStep(s, timeout, now).0;
    assert reserved.dispatches == [Row(1, false)] && Find(reserved.dispatches, 1) == 0;
    var t := NoteOutcomeStep(CancelStep(reserved), 1, true).0;
    assert t.dispatches == [Row(1, true)];
    assert Run(s, ops) == Run(reserved, ops[1..]) == Run(CancelStep(reserved), ops[1..][1..]) == t;
  }

  // ----- the object -----

  class Budget {
    const maxAttempts: nat
    const deadline: real
    var reserved: nat
    var cancelled: bool
    var terminal: Option<Reason>
    var inFlight: InFlight
    var dispatches: seq<Row>
    /** The state the object began in and every call made on it since. */
    ghost const start: State
    ghost var log: seq<Op>

    /** The object is where its history leads. */
    ghost predicate Sound()
      reads this
    {
      Valid(start) && Abs() == Run(start, log) && Valid(Abs())
    }

    ghost function Abs(): State
      reads this
    {
      State(maxAttempts, deadline, reserved, cancelled, terminal, inFlight, dispatches)
    }

    constructor (maxAttempts: int, deadline: Number, now: Number)
      requires Create(maxAttempts, deadline, now).Some?
      ensures Sound() && Some(Abs()) == Create(maxAttempts, deadline, now) && log == []
    {
      this.maxAttempts, this.deadline := maxAttempts, deadline.v;
      reserved, cancelled, terminal, inFlight, dispatches := 0, false, None, Nothing, [];
      start, log := Create(maxAttempts, deadline, now).value, [];
    }

    method Reserve(timeout: Number, now: Number) returns (r: Reply)
      requires Sound()
      modifies this
      ensures Sound() && log == old(log) + [OpReserve(timeout, now)]
      ensures (Abs(), r) == ReserveStep(old(Abs()), timeout, now)
    {
      Append(OpReserve(timeout, now));
      if timeout.NotFinite? || timeout.v <= 0.0 {
        return Rejected;
      }
      if terminal.Some? {
        return Stopped(terminal.value, inFlight);
      }
      if cancelled {
        terminal := Some(Cancellation);
        return Stopped(Cancellation, inFlight);
      }
      if now.NotFinite? {
        return Rejected;
      }
      if now.v >= deadline {
        terminal := Some(DeadlineExhausted);
        return Stopped(DeadlineExhausted, inFlight);
      }
      if reserved >= maxAttempts {
        terminal := Some(AttemptExhausted);
        return Stopped(AttemptExhausted, inFlight);
      }
      var remain := deadline - now.v;
      var sendTimeout := if timeout.v <= remain then timeout.v else remain;
      reserved := reserved + 1;
      inFlight := Unknown;
      dispatches := dispatches + [Row(reserved, false)];
      return Granted(reserved, sendTimeout);
    }

    method NoteOutcome(attempt: int, known: bool) returns (r: Reply)
      requires Sound()
      modifies this
      ensures Sound() && log == old(log) + [OpNote(attempt, known)]
      ensures (Abs(), r) == NoteOutcomeStep(old(Abs()), attempt, known)
    {
      Append(OpNote(attempt, known));
      if attempt < 1 {
        return Rejected;
      }
      var i := 0;
      while i < |dispatches| && dispatches[i].attempt != attempt
        invariant 0 <= i <= |dispatches|
        invariant forall k :: 0 <= k < i ==> dispatches[k].attempt != attempt
      {
        i := i + 1;
      }
      if i == |dispatches| {
        return Rejected;
      }
      dispatches := dispatches[i := dispatches[i].(known := known)];
      inFlight := if AnyUnknown(dispatches) then Unknown else Known;
      return Done;
    }

    method AllowBackoff(delay: Number, now: Number) returns (r: Reply)
      requires Sound()
      modifies this`terminal, this`log
      ensures Sound() && log == old(log) + [OpBackoff(delay, now)]
      ensures (Abs(), r) == AllowBackoffStep(old(Abs()), delay, now)
    {
      Append(OpBackoff(delay, now));
      if delay.NotFinite? || delay.v < 0.0 {
        return Rejected;
      }
      if cancelled {
        if terminal.None? {
          terminal := Some(Cancellation);
        }
        return Allowed(false);
      }
      if terminal.Some? {
        return Allowed(false);
      }
      if reserved >= maxAttempts {
        terminal := Some(AttemptExhausted);
        return Allowed(false);
      }
      if now.NotFinite? {
        return Rejected;
      }
      if deadline - now.v <= delay.v {
        terminal := Some(DeadlineExhausted);
        return Allowed(false);
      }
      return Allowed(true);
    }

    method Cancel(ghost who: Caller := Own)
      requires Sound()
      modifies this`cancelled, this`terminal, this`log
      ensures Sound() && log == old(log) + [OpCancel(who)] && Abs() == CancelStep(old(Abs()))
    {
      Append(OpCancel(who));
      cancelled := true;
      if terminal.None? && inFlight.Nothing? {
        terminal := Some(Cancellation);
      }
    }

    method Close(reason: Reason, ghost who: Caller := Own) returns (r: Reply)
      requires Sound()
      modifies this`terminal, this`log
      ensures Sound() && log == old(log) + [OpClose(reason, who)] && (Abs(), r) == CloseStep(old(Abs()), reason)
    {
      Append(OpClose(reason, who));
      if reason == Success {
        return Rejected;
      }
      if terminal.None? {
        terminal := Some(reason);
      }
      return Done;
    }

    method MarkSuccess()
      requires Sound()
      modifies this`terminal, this`log
      ensures Sound() && log == old(log) + [OpSuccess] && Abs() == MarkSuccessStep(old(Abs()))
    {
      Append(OpSuccess);
      if terminal.None? {
        terminal := Some(Success);
      }
    }

    /** The history grows by one call, whose effect the caller's code then has to produce. */
    ghost method Append(op: Op)
      requires Sound()
      modifies this`log
      ensures log == old(log) + [op]
      ensures Valid(start) && Run(start, log) == Step(Abs(), op).0 && Valid(Step(Abs(), op).0)
    {
      RunConcat(start, log, [op]);
      assert [op][1..] == [];
      StepKeepsValid(Abs(), op);
      log := log + [op];
    }
  }
}
