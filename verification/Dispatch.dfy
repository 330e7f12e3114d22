/** Delivering one event (src/runner/engine/dispatch.rs, src/runner/events.rs): one visit
    for scripts that share a context, against one script after another. */
module Dispatch {
  import opened Wrappers

  /** A loaded script: its context, and its handlers of the event being delivered, none
      where it does not listen. */
  datatype Script = Script(context: nat, handlers: seq<nat>)

  /** The payload as the handlers of one context see it: they may change it. */
  type Payload = int

  /** One handler's run: what it leaves of the payload, the scripts whose handlers it
      changed, its error, and whether the operation must stop. */
  datatype Reaction = Reaction(
    payload: Payload, changes: seq<(nat, seq<nat>)>, error: Option<string>, stop: bool)

  /** `react` is the k-th handler run; `encode` is the payload in a context, or why it has
      none; `stopsLate` is whether the check after the k-th delivery finds that the
      operation must stop. */
  datatype World = World(
    react: (nat, nat, Payload) -> Reaction, encode: nat -> Result<Payload, string>, stopsLate: nat -> bool)

  /** After how many handlers and deliveries a look at whether the operation must stop
      found that it must. */
  datatype Stop = Stop(ran: nat, delivered: nat)

  /** `trace` lists the handlers run, each with its script and the payload it was given,
      and `stops` every stop found, after a handler or after a delivery. */
  datatype Delivery = Delivery(
    scripts: seq<Script>, trace: seq<(nat, nat, Payload)>, stops: seq<Stop>,
    delivered: nat, error: Option<string>, stopped: bool)
  {
    function Looking(stop: bool): Delivery {
      if stop then this.(stops := stops + [Stop(|trace|, delivered)], stopped := true) else this
    }
  }

  // ---------------------------------------------------------------- one script's handlers

  function Change(scripts: seq<Script>, changes: seq<(nat, seq<nat>)>): (changed: seq<Script>)
    ensures |changed| == |scripts| && forall i | 0 <= i < |scripts| :: changed[i].context == scripts[i].context
    decreases |changes|
  {
    if changes == [] then scripts
    else
      var (at, handlers) := changes[0];
      Change(if at < |scripts| then scripts[at := scripts[at].(handlers := handlers)] else scripts, changes[1..])
  }

  function FirstError(first: Option<string>, next: Option<string>): Option<string> {
    if first.Some? then first else next
  }

  function RunHandler(d: Delivery, at: nat, handler: nat, payload: Payload, world: World): (Delivery, Payload) {
    var reaction := world.react(|d.trace|, handler, payload);
    (d.(scripts := Change(d.scripts, reaction.changes), trace := d.trace + [(at, handler, payload)],
        error := FirstError(d.error, reaction.error)).Looking(reaction.stop),
     reaction.payload)
  }

  /** Every handler of a snapshot in order, until one stops the operation. */
  function RunHandlers(d: Delivery, at: nat, handlers: seq<nat>, payload: Payload, world: World): (Delivery, Payload)
    decreases |handlers|
  {
    if handlers == [] || d.stopped then (d, payload)
    else
      var (next, left) := RunHandler(d, at, handlers[0], payload, world);
      RunHandlers(next, at, handlers[1..], left, world)
  }

  /** One script that listens, given the payload. */
  function DeliverTo(d: Delivery, at: nat, payload: Payload, world: World): (Delivery, Payload)
    requires at < |d.scripts| && d.scripts[at].handlers != []
  {
    var (after, left) := RunHandlers(d.(delivered := d.delivered + 1), at, d.scripts[at].handlers, payload, world);
    (after.Looking(after.stopped || world.stopsLate(d.delivered)), left)
  }

  lemma {:induction false} SameScripts(d: Delivery, at: nat, handlers: seq<nat>, payload: Payload, world: World)
    ensures var after := RunHandlers(d, at, handlers, payload, world).0;
      && |after.scripts| == |d.scripts| && after.delivered == d.delivered
      && forall i | 0 <= i < |d.scripts| :: after.scripts[i].context == d.scripts[i].context
    decreases |handlers|
  {
    if handlers != [] && !d.stopped {
      var (next, left) := RunHandler(d, at, handlers[0], payload, world);
      SameScripts(next, at, handlers[1..], left, world);
    }
  }

  // ------------------------------------------------------------------ script by script

  /** One script after another in load order, each given the payload encoded for it. */
  function OneByOne(d: Delivery, at: nat, world: World): Delivery
    decreases |d.scripts| - at
  {
    if at >= |d.scripts| || d.stopped then d
    else if d.scripts[at].handlers == [] then OneByOne(d, at + 1, world)
    else
      match world.encode(d.scripts[at].context)
      case Err(error) => OneByOne(CannotEncode(d, error, world), at + 1, world)
      case Ok(payload) =>
        SameScripts(d.(delivered := d.delivered + 1), at, d.scripts[at].handlers, payload, world);
        OneByOne(DeliverTo(d, at, payload, world).0, at + 1, world)
  }

  function CannotEncode(d: Delivery, error: string, world: World): Delivery {
    d.(delivered := d.delivered + 1, error := FirstError(d.error, Some(error))).Looking(world.stopsLate(d.delivered))
  }

  // ------------------------------------------------------------------- context by context

  /** Where the run of scripts that share the context of `start` ends. */
  function EndOf(scripts: seq<Script>, start: nat, end: nat): (last: nat)
    requires start < end <= |scripts|
    ensures end <= last <= |scripts|
    ensures forall i | end <= i < last :: scripts[i].context == scripts[start].context
    decreases |scripts| - end
  {
    if end < |scripts| && scripts[end].context == scripts[start].context then EndOf(scripts, start, end + 1) else end
  }

  function Listening(scripts: seq<Script>, start: nat, end: nat): nat
    requires start <= end <= |scripts|
    decreases end - start
  {
    if start == end then 0 else (if scripts[start].handlers != [] then 1 else 0) + Listening(scripts, start + 1, end)
  }

  /** The scripts of one visit, all given the same payload. */
  function Shared(d: Delivery, at: nat, end: nat, payload: Payload, world: World): Delivery
    requires at <= end <= |d.scripts|
    decreases end - at
  {
    if at == end || d.stopped then d
    else if d.scripts[at].handlers == [] then Shared(d, at + 1, end, payload, world)
    else
      SameScripts(d.(delivered := d.delivered + 1), at, d.scripts[at].handlers, payload, world);
      var (after, left) := DeliverTo(d, at, payload, world);
      Shared(after, at + 1, end, left, world)
  }

  /** One visit to the context of the scripts from `start` to `end`. */
  function VisitContext(d: Delivery, start: nat, end: nat, world: World): (after: Delivery)
    requires start < end <= |d.scripts|
  {
    if Listening(d.scripts, start, end) == 0 then d
    else
      match world.encode(d.scripts[start].context)
      case Ok(payload) => Shared(d, start, end, payload, world)
      case Err(error) =>
        if end == start + 1 then CannotEncode(d, error, world)
        else d.(delivered := d.delivered + Listening(d.scripts, start, end), error := FirstError(d.error, Some(error)))
  }

  lemma {:induction false} SharedSameScripts(d: Delivery, at: nat, end: nat, payload: Payload, world: World)
    requires at <= end <= |d.scripts|
    ensures var after := Shared(d, at, end, payload, world);
      |after.scripts| == |d.scripts| && forall i | 0 <= i < |d.scripts| :: after.scripts[i].context == d.scripts[i].context
    decreases end - at
  {
    if at < end && !d.stopped {
      if d.scripts[at].handlers == [] {
        SharedSameScripts(d, at + 1, end, payload, world);
      } else {
        SameScripts(d.(delivered := d.delivered + 1), at, d.scripts[at].handlers, payload, world);
        var (after, left) := DeliverTo(d, at, payload, world);
        SharedSameScripts(after, at + 1, end, left, world);
      }
    }
  }

  lemma VisitSameScripts(d: Delivery, start: nat, end: nat, world: World)
    requires start < end <= |d.scripts|
    ensures var after := VisitContext(d, start, end, world);
      |after.scripts| == |d.scripts| && forall i | 0 <= i < |d.scripts| :: after.scripts[i].context == d.scripts[i].context
  {
    if world.encode(d.scripts[start].context).Ok? {
      SharedSameScripts(d, start, end, world.encode(d.scripts[start].context).value, world);
    }
  }

  /** The engine's loop. */
  function ByContext(d: Delivery, start: nat, world: World): Delivery
    decreases |d.scripts| - start
  {
    if start >= |d.scripts| || d.stopped then d
    else
      var end := EndOf(d.scripts, start, start + 1);
      VisitSameScripts(d, start, end, world);
      ByContext(VisitContext(d, start, end, world), end, world)
  }

  function Begin(scripts: seq<Script>): Delivery { Delivery(scripts, [], [], 0, None, false) }

  // ------------------------------------------------------------------------- stopping

  /** Nothing was run or counted after a stop was found. */
  ghost predicate StopsAtOnce(d: Delivery) {
    && d.stopped == (d.stops != [])
    && forall i | 0 <= i < |d.stops| :: d.stops[i] == Stop(|d.trace|, d.delivered)
  }

  lemma {:induction false} HandlersStopAtOnce(d: Delivery, at: nat, handlers: seq<nat>, payload: Payload, world: World)
    requires StopsAtOnce(d) && !d.stopped
    ensures StopsAtOnce(RunHandlers(d, at, handlers, payload, world).0)
    decreases |handlers|
  {
    if handlers != [] {
      var (next, left) := RunHandler(d, at, handlers[0], payload, world);
      if !next.stopped { HandlersStopAtOnce(next, at, handlers[1..], left, world); }
    }
  }

  lemma {:induction false} SharedStopsAtOnce(d: Delivery, at: nat, end: nat, payload: Payload, world: World)
    requires StopsAtOnce(d) && at <= end <= |d.scripts|
    ensures StopsAtOnce(Shared(d, at, end, payload, world))
    decreases end - at
  {
    if at < end && !d.stopped {
      if d.scripts[at].handlers == [] {
        SharedStopsAtOnce(d, at + 1, end, payload, world);
      } else {
        var counted, handlers := d.(delivered := d.delivered + 1), d.scripts[at].handlers;
        SameScripts(counted, at, handlers, payload, world);
          HandlersStopAtOnce(counted, at, handlers, payload, world);
        var (after, left) := DeliverTo(d, at, payload, world);
        SharedStopsAtOnce(after, at + 1, end, left, world);
      }
    }
  }

  /** Whatever the handlers do, once a stop was found, by the look after a handler or the
      one after a delivery, no handler is run and no script counted. */
  lemma {:induction false} NoHandlerAfterStop(d: Delivery, start: nat, world: World)
    requires StopsAtOnce(d)
    ensures StopsAtOnce(ByContext(d, start, world))
    decreases |d.scripts| - start
  {
    if start < |d.scripts| && !d.stopped {
      var end := EndOf(d.scripts, start, start + 1);
      VisitSameScripts(d, start, end, world);
      if world.encode(d.scripts[start].context).Ok? {
        SharedStopsAtOnce(d, start, end, world.encode(d.scripts[start].context).value, world);
      }
      NoHandlerAfterStop(VisitContext(d, start, end, world), end, world);
    }
  }

  // ------------------------------------------------------------------------ the engine

  /** One delivery in progress. */
  class Dispatcher {
    const world: World
    var scripts: seq<Script>
    ghost var trace: seq<(nat, nat, Payload)>
    ghost var stops: seq<Stop>
    var calls: nat
    var delivered: nat
    var firstError: Option<string>
    var stopped: bool

    constructor (scripts: seq<Script>, world: World)
      ensures this.world == world && Valid() && View() == Begin(scripts)
    {
      this.world, this.scripts, trace, stops, calls := world, scripts, [], [], 0;
      delivered, firstError, stopped := 0, None, false;
    }

    ghost predicate Valid()
      reads this
    {
      calls == |trace|
    }

    ghost function View(): Delivery
      reads this
    {
      Delivery(scripts, trace, stops, delivered, firstError, stopped)
    }

    /** Whether the operation must stop. */
    method Look(stop: bool)
      requires !stopped || stop
      modifies this`stopped, this`stops
      ensures View() == old(View()).Looking(stop)
    {
      if stop {
        stops := stops + [Stop(|trace|, delivered)];
      }
      stopped := stop;
    }

    /** Runs every handler even after one throws, until one stops the operation. */
    method Deliver(at: nat, handlers: seq<nat>, payload: Payload) returns (left: Payload)
      requires Valid() && !stopped
      modifies this
      ensures Valid() && (View(), left) == RunHandlers(old(View()), at, handlers, payload, world)
    {
      left := payload;
      ghost var all := RunHandlers(View(), at, handlers, payload, world);
      assert handlers[0..] == handlers;
      var i := 0;
      while i < |handlers| && !stopped
        invariant i <= |handlers| && Valid()
        invariant RunHandlers(View(), at, handlers[i..], left, world) == all
        decreases |handlers| - i, !stopped
      {
        assert handlers[i..][1..] == handlers[i + 1..];
        var reaction := world.react(calls, handlers[i], left);
        trace, calls := trace + [(at, handlers[i], left)], calls + 1;
        scripts := Change(scripts, reaction.changes);
        if firstError.None? {
          firstError := reaction.error;
        }
        left := reaction.payload;
        Look(reaction.stop);
        i := i + 1;
      }
    }

    method DeliverScript(at: nat, payload: Payload) returns (left: Payload)
      requires Valid() && at < |scripts| && scripts[at].handlers != [] && !stopped
      modifies this
      ensures Valid() && (View(), left) == DeliverTo(old(View()), at, payload, world)
    {
      var k := delivered;
      delivered := delivered + 1;
      left := Deliver(at, scripts[at].handlers, payload);
      Look(stopped || world.stopsLate(k));
    }

    method DeliverShared(start: nat, end: nat, payload: Payload)
      requires Valid() && start <= end <= |scripts| && !stopped
      modifies this
      ensures Valid() && View() == Shared(old(View()), start, end, payload, world)
    {
      ghost var all := Shared(View(), start, end, payload, world);
      var i, shared := start, payload;
      while i < end && !stopped
        invariant start <= i <= end <= |scripts| && Valid()
        invariant Shared(View(), i, end, shared, world) == all
        decreases end - i, !stopped
      {
        if scripts[i].handlers != [] {
          SameScripts(View().(delivered := delivered + 1), i, scripts[i].handlers, shared, world);
          shared := DeliverScript(i, shared);
        }
        i := i + 1;
      }
    }

    method Emit()
      requires Valid() && View() == Begin(scripts)
      modifies this
      ensures Valid() && View() == ByContext(old(View()), 0, world)
    {
      var start := 0;
      ghost var all := ByContext(View(), 0, world);
      while start < |scripts| && !stopped
        invariant start <= |scripts| && Valid()
        invariant ByContext(View(), start, world) == all
        decreases |scripts| - start, !stopped
      {
        var end := start + 1;
        while end < |scripts| && scripts[end].context == scripts[start].context
          invariant start < end <= |scripts|
          invariant EndOf(scripts, start, end) == EndOf(scripts, start, start + 1)
        {
          end := end + 1;
        }
        VisitSameScripts(View(), start, end, world);
        EnterContext(start, end);
        start := end;
      }
    }

    method EnterContext(start: nat, end: nat)
      requires Valid() && start < end <= |scripts| && !stopped
      modifies this
      ensures Valid() && View() == VisitContext(old(View()), start, end, world)
    {
      var listening := CountListening(start, end);
      if listening == 0 {
        return;
      }
      var encoded := world.encode(scripts[start].context);
      if encoded.Ok? {
        DeliverShared(start, end, encoded.value);
        return;
      }
      if firstError.None? {
        firstError := Some(encoded.error);
      }
      if end == start + 1 {
        // A context of its own checks for a stop; a shared one does not.
        delivered := delivered + 1;
        Look(world.stopsLate(delivered - 1));
      } else {
        delivered := delivered + listening;
      }
    }

    method CountListening(start: nat, end: nat) returns (count: nat)
      requires start <= end <= |scripts|
      ensures count == Listening(scripts, start, end)
    {
      count := 0;
      var i := end;
      while i > start
        invariant start <= i <= end
        invariant count == Listening(scripts, i, end)
      {
        i := i - 1;
        count := count + if scripts[i].handlers != [] then 1 else 0;
      }
    }
  }
}
