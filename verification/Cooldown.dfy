/** Failure cooldown: a shared table of moments that every thread reads and writes. */
module Cooldown {
  import opened Text

  function Positive(a: real): real { if a > 0.0 then a else 0.0 }

  /** `_cooldown_remaining`, read at wall-clock time `wall`. */
  function CooldownLeft(until: map<string, real>, name: string, wall: Wall): real {
    Positive((if name in until then until[name] else 0.0) - wall)
  }

  /** Wall-clock time, which others may set; `time.time()` is not negative. */
  type Wall = w: real | w >= 0.0 witness 0.0

  /** A provider failed, or served, at some moment. */
  datatype CoolOp = SetAt(name: string, wall: Wall) | Clear(name: string)

  /** `_set_cooldown` and `_clear_cooldown` */
  function CoolStep(until: map<string, real>, seconds: real, op: CoolOp): map<string, real> {
    match op
    case SetAt(name, wall) => if seconds <= 0.0 then until else until[name := wall + seconds]
    case Clear(name) => until - {name}
  }

  function CoolRun(seconds: real, ops: seq<CoolOp>): map<string, real> {
    if ops == [] then map[] else CoolStep(CoolRun(seconds, ops[..|ops| - 1]), seconds, ops[|ops| - 1])
  }

  /** When this provider last failed, unless it has served since. */
  function LastFailure(ops: seq<CoolOp>, name: string): Option<Wall> {
    if ops == [] then None
    else if ops[|ops| - 1].name != name then LastFailure(ops[..|ops| - 1], name)
    else if ops[|ops| - 1].SetAt? then Some(ops[|ops| - 1].wall) else None
  }

  /** After any failures and successes of any providers, one reads as cooling exactly if cooldown is enabled, it
      failed after it last served, and less than the cooldown length has passed since that failure. */
  lemma {:induction false} CoolingExact(seconds: real, ops: seq<CoolOp>, name: string, wall: Wall)
    ensures CooldownLeft(CoolRun(seconds, ops), name, wall) > 0.0 <==>
            seconds > 0.0 && LastFailure(ops, name).Some? && wall < LastFailure(ops, name).value + seconds
    decreases |ops|
  {
    if ops != [] {
      CoolingExact(seconds, ops[..|ops| - 1], name, wall);
    }
  }

  // ----- the table while other threads run -----

  /** What other threads do to the table between two steps of this one, and the wall clock afterwards. */
  datatype Meddling = Meddling(ops: seq<CoolOp>, wall: Wall)

  /** The cooldown length, and everything others will do, step by step: any behaviour at all, but decided
      by them and not by this thread. */
  datatype World = World(seconds: real, others: nat -> Meddling)

  /** Others ran, or this thread changed the table for route `route`. */
  datatype Event = Tick | Own(route: nat, op: CoolOp)

  function Ticks(events: seq<Event>): nat {
    if events == [] then 0 else Ticks(events[..|events| - 1]) + if events[|events| - 1].Tick? then 1 else 0
  }

  /** All changes to the table so far, by anyone. */
  function Changes(w: World, events: seq<Event>): seq<CoolOp> {
    if events == [] then []
    else
      var front, e := events[..|events| - 1], events[|events| - 1];
      Changes(w, front) + if e.Tick? then w.others(Ticks(front)).ops else [e.op]
  }

  function WallAt(w: World, events: seq<Event>): Wall {
    if events == [] then 0.0
    else
      var front, e := events[..|events| - 1], events[|events| - 1];
      if e.Tick? then w.others(Ticks(front)).wall else WallAt(w, front)
  }

  /** What `_cooldown_remaining` gives after these events. */
  function Reading(w: World, events: seq<Event>, name: string): real {
    CooldownLeft(CoolRun(w.seconds, Changes(w, events)), name, WallAt(w, events))
  }

  /** A reading is positive exactly if cooldown is enabled and, by the changes made so far, the provider failed
      after it last served and less than the cooldown length ago. */
  lemma ReadingExact(w: World, events: seq<Event>, name: string)
    ensures Reading(w, events, name) > 0.0 <==>
            && w.seconds > 0.0
            && var failed := LastFailure(Changes(w, events), name);
               failed.Some? && WallAt(w, events) < failed.value + w.seconds
  {
    CoolingExact(w.seconds, Changes(w, events), name, WallAt(w, events));
  }

  lemma {:induction false} CoolRunOn(seconds: real, ops: seq<CoolOp>, more: seq<CoolOp>, k: nat)
    requires k < |more|
    ensures CoolRun(seconds, ops + more[..k + 1]) == CoolStep(CoolRun(seconds, ops + more[..k]), seconds, more[k])
  {
    var all := ops + more[..k + 1];
    assert all[..|all| - 1] == ops + more[..k] && all[|all| - 1] == more[k];
  }

  lemma AppendEvent(w: World, events: seq<Event>, e: Event)
    ensures Ticks(events + [e]) == Ticks(events) + if e.Tick? then 1 else 0
    ensures Changes(w, events + [e]) == Changes(w, events) + if e.Tick? then w.others(Ticks(events)).ops else [e.op]
    ensures WallAt(w, events + [e]) == if e.Tick? then w.others(Ticks(events)).wall else WallAt(w, events)
  {
    assert (events + [e])[..|events|] == events;
  }

  /** A change of this thread's own is one step of the table. */
  lemma OwnChange(w: World, events: seq<Event>, e: Event)
    requires e.Own?
    ensures var after := CoolRun(w.seconds, Changes(w, events + [e]));
            after == CoolStep(CoolRun(w.seconds, Changes(w, events)), w.seconds, e.op)
    ensures WallAt(w, events + [e]) == WallAt(w, events) && Ticks(events + [e]) == Ticks(events)
  {
    AppendEvent(w, events, e);
    var before := Changes(w, events);
    hide CoolStep, Changes, WallAt, Ticks;
    CoolRunOn(w.seconds, before, [e.op], 0);
    assert before + [e.op][..0] == before && [e.op][..1] == [e.op];
  }

  /** `_COOLDOWN_UNTIL` and its lock. `ticks`, `wall` and `events` are bookkeeping of the model: how often the
      others ran, what the clock says, and all that happened. */
  class Table {
    const world: World
    var until: map<string, real>
    var wall: Wall
    var ticks: nat
    ghost var events: seq<Event>

    constructor (world: World)
      ensures Valid() && this.world == world && until == map[] && events == []
    {
      this.world := world;
      until, wall, ticks, events := map[], 0.0, 0, [];
    }

    /** The table and the clock are what the events made of them. */
    ghost predicate Valid()
      reads this
    {
      && until == CoolRun(world.seconds, Changes(world, events))
      && wall == WallAt(world, events) && ticks == Ticks(events)
    }

    /** Other threads run. */
    method Others()
      requires Valid()
      modifies this
      ensures Valid() && events == old(events) + [Tick]
    {
      hide CoolStep, CoolRun, Changes, WallAt, Ticks;
      var m := world.others(ticks);
      ghost var before := Changes(world, events);
      var k := 0;
      assert before + m.ops[..0] == before;
      while k < |m.ops|
        invariant k <= |m.ops| && until == CoolRun(world.seconds, before + m.ops[..k])
        invariant events == old(events) && ticks == old(ticks)
      {
        CoolRunOn(world.seconds, before, m.ops, k);
        until := CoolStep(until, world.seconds, m.ops[k]);
        k := k + 1;
      }
      assert m.ops[..k] == m.ops;
      AppendEvent(world, events, Tick);
      wall, ticks := m.wall, ticks + 1;
      events := events + [Tick];
    }

    /** `_cooldown_remaining` */
    method Remaining(name: string) returns (left: real)
      requires Valid()
      ensures left == Reading(world, events, name)
    {
      left := Positive((if name in until then until[name] else 0.0) - wall);
    }

    /** `_set_cooldown`, after route `i` failed. */
    method Set(name: string, ghost i: nat)
      requires Valid()
      modifies this
      ensures Valid() && events == old(events) + [Own(i, SetAt(name, WallAt(world, old(events))))]
    {
      ghost var e := Own(i, SetAt(name, wall));
      hide CoolRun, Changes, WallAt, Ticks;
      OwnChange(world, events, e);
      events := events + [e];
      if world.seconds <= 0.0 {
        return;
      }
      until := until[name := wall + world.seconds];
    }

    /** `_clear_cooldown`, after route `i` served. */
    method Clear(name: string, ghost i: nat)
      requires Valid()
      modifies this
      ensures Valid() && events == old(events) + [Own(i, CoolOp.Clear(name))]
    {
      ghost var e := Own(i, CoolOp.Clear(name));
      hide CoolRun, Changes, WallAt, Ticks;
      OwnChange(world, events, e);
      events := events + [e];
      until := until - {name};
    }
  }
}
