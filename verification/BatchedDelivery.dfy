/** When one visit to scripts that share a context is the same as serving every script by
    itself (src/runner/engine/dispatch.rs). */
module BatchedDelivery {
  import opened Wrappers
  import opened Dispatch

  // ------------------------------------------------------------------- when they agree

  /** What the host can tell: the handlers run with their payloads, the count and the
      first error. */
  function Outcome(d: Delivery): (seq<(nat, nat, Payload)>, nat, Option<string>) { (d.trace, d.delivered, d.error) }

  /** What a script's handlers leave of a shared payload is what they were given, unless
      the operation stops there or no later script of the visit listens. */
  predicate HandsOn(d: Delivery, at: nat, end: nat, payload: Payload, world: World)
    requires at <= end <= |d.scripts|
    decreases end - at
  {
    if at == end || d.stopped then true
    else if d.scripts[at].handlers == [] then HandsOn(d, at + 1, end, payload, world)
    else
      SameScripts(d.(delivered := d.delivered + 1), at, d.scripts[at].handlers, payload, world);
      var (after, left) := DeliverTo(d, at, payload, world);
      if left == payload then HandsOn(after, at + 1, end, payload, world)
      else after.stopped || Listening(after.scripts, at + 1, end) == 0
  }

  /** While the listening scripts of a shared context are told that their payload cannot be
      encoded no stop is found, but for the last of them where no later context listens. */
  predicate GoesOn(d: Delivery, start: nat, end: nat, world: World)
    requires start < end <= |d.scripts|
  {
    var all := d.delivered + Listening(d.scripts, start, end);
    forall k: nat | d.delivered <= k < all && world.stopsLate(k) ::
      k == all - 1 && Listening(d.scripts, end, |d.scripts|) == 0
  }

  predicate VisitAgrees(d: Delivery, start: nat, end: nat, world: World)
    requires start < end <= |d.scripts|
  {
    Listening(d.scripts, start, end) > 0 ==>
      match world.encode(d.scripts[start].context)
      case Ok(payload) => HandsOn(d, start, end, payload, world)
      case Err(_) => end > start + 1 ==> GoesOn(d, start, end, world)
  }

  /** Every visit of a delivery by context agrees. */
  predicate Agrees(d: Delivery, start: nat, world: World)
    decreases |d.scripts| - start
  {
    if start >= |d.scripts| || d.stopped then true
    else
      var end := EndOf(d.scripts, start, start + 1);
      VisitSameScripts(d, start, end, world);
      VisitAgrees(d, start, end, world) && Agrees(VisitContext(d, start, end, world), end, world)
  }

  /** `later` came after `d`. */
  predicate Follows(d: Delivery, later: Delivery) {
    d.trace <= later.trace && d.delivered <= later.delivered
  }

  lemma {:induction false} HandlersFollow(d: Delivery, at: nat, handlers: seq<nat>, payload: Payload, world: World)
    ensures Follows(d, RunHandlers(d, at, handlers, payload, world).0)
    ensures handlers != [] && !d.stopped ==>
      var trace := RunHandlers(d, at, handlers, payload, world).0.trace;
      |d.trace| < |trace| && trace[|d.trace|] == (at, handlers[0], payload)
    decreases |handlers|
  {
    if handlers != [] && !d.stopped {
      var (next, left) := RunHandler(d, at, handlers[0], payload, world);
      HandlersFollow(next, at, handlers[1..], left, world);
    }
  }

  lemma {:induction false} OneByOneFollows(d: Delivery, at: nat, world: World)
    ensures Follows(d, OneByOne(d, at, world))
    decreases |d.scripts| - at
  {
    if at < |d.scripts| && !d.stopped {
      if d.scripts[at].handlers == [] {
        OneByOneFollows(d, at + 1, world);
      } else {
        match world.encode(d.scripts[at].context)
        case Err(error) => OneByOneFollows(CannotEncode(d, error, world), at + 1, world);
        case Ok(payload) =>
          var counted, handlers := d.(delivered := d.delivered + 1), d.scripts[at].handlers;
          SameScripts(counted, at, handlers, payload, world);
          HandlersFollow(counted, at, handlers, payload, world);
          OneByOneFollows(DeliverTo(d, at, payload, world).0, at + 1, world);
      }
    }
  }

  lemma {:induction false} SharedFollows(d: Delivery, at: nat, end: nat, payload: Payload, world: World)
    requires at <= end <= |d.scripts|
    ensures Follows(d, Shared(d, at, end, payload, world))
    decreases end - at
  {
    if at < end && !d.stopped {
      if d.scripts[at].handlers == [] {
        SharedFollows(d, at + 1, end, payload, world);
      } else {
        var counted, handlers := d.(delivered := d.delivered + 1), d.scripts[at].handlers;
        SameScripts(counted, at, handlers, payload, world);
        HandlersFollow(counted, at, handlers, payload, world);
        var (after, left) := DeliverTo(d, at, payload, world);
        SharedFollows(after, at + 1, end, left, world);
      }
    }
  }

  lemma {:induction false} ByContextFollows(d: Delivery, start: nat, world: World)
    ensures Follows(d, ByContext(d, start, world))
    decreases |d.scripts| - start
  {
    if start < |d.scripts| && !d.stopped {
      var end := EndOf(d.scripts, start, start + 1);
      VisitSameScripts(d, start, end, world);
      if world.encode(d.scripts[start].context).Ok? {
        SharedFollows(d, start, end, world.encode(d.scripts[start].context).value, world);
      }
      ByContextFollows(VisitContext(d, start, end, world), end, world);
    }
  }

  lemma {:induction false} NoneListening(d: Delivery, at: nat, end: nat, world: World)
    requires at <= end <= |d.scripts| && Listening(d.scripts, at, end) == 0
    ensures OneByOne(d, at, world) == OneByOne(d, end, world)
    decreases end - at
  {
    if at < end { NoneListening(d, at + 1, end, world); }
  }

  lemma {:induction false} NoneShared(d: Delivery, at: nat, end: nat, payload: Payload, world: World)
    requires at <= end <= |d.scripts| && Listening(d.scripts, at, end) == 0
    ensures Shared(d, at, end, payload, world) == d
    decreases end - at
  {
    if at < end { NoneShared(d, at + 1, end, payload, world); }
  }

  /** A visit with one payload that is handed on is its scripts one by one. */
  lemma {:induction false} SharedIsOneByOne(d: Delivery, at: nat, end: nat, payload: Payload, world: World)
    requires at <= end <= |d.scripts| && HandsOn(d, at, end, payload, world)
    requires forall i | at <= i < end :: world.encode(d.scripts[i].context) == Ok(payload)
    ensures |Shared(d, at, end, payload, world).scripts| == |d.scripts|
    ensures OneByOne(d, at, world) == OneByOne(Shared(d, at, end, payload, world), end, world)
    decreases end - at
  {
    SharedSameScripts(d, at, end, payload, world);
    if at < end && !d.stopped {
      if d.scripts[at].handlers == [] {
        SharedIsOneByOne(d, at + 1, end, payload, world);
      } else {
        SameScripts(d.(delivered := d.delivered + 1), at, d.scripts[at].handlers, payload, world);
        var (after, left) := DeliverTo(d, at, payload, world);
        assert OneByOne(d, at, world) == OneByOne(after, at + 1, world);
        assert Shared(d, at, end, payload, world) == Shared(after, at + 1, end, left, world);
        if left == payload {
          SharedIsOneByOne(after, at + 1, end, payload, world);
        } else if !after.stopped {
          NoneListening(after, at + 1, end, world);
          NoneShared(after, at + 1, end, left, world);
        }
      }
    }
  }

  /** A payload that is not handed on as it was gives some handler another one. */
  lemma {:induction false} SharedDiffers(d: Delivery, at: nat, end: nat, payload: Payload, world: World)
    requires at <= end <= |d.scripts| && !HandsOn(d, at, end, payload, world)
    requires forall i | at <= i < end :: world.encode(d.scripts[i].context) == Ok(payload)
    ensures PartWays(Shared(d, at, end, payload, world).trace, OneByOne(d, at, world).trace)
    decreases end - at
  {
    if d.scripts[at].handlers == [] {
      SharedDiffers(d, at + 1, end, payload, world);
    } else {
      SameScripts(d.(delivered := d.delivered + 1), at, d.scripts[at].handlers, payload, world);
      var (after, left) := DeliverTo(d, at, payload, world);
      if left == payload {
        SharedDiffers(after, at + 1, end, payload, world);
      } else {
        NextDiffers(after, at + 1, end, left, payload, world);
      }
    }
  }

  /** Both traces have an entry where they differ, so whatever follows they differ. */
  predicate PartWays(a: seq<(nat, nat, Payload)>, b: seq<(nat, nat, Payload)>) {
    exists i | 0 <= i < |a| && i < |b| :: a[i] != b[i]
  }

  lemma {:induction false} NextDiffers(d: Delivery, at: nat, end: nat, left: Payload, payload: Payload, world: World)
    requires at <= end <= |d.scripts| && !d.stopped && Listening(d.scripts, at, end) > 0 && left != payload
    requires forall i | at <= i < end :: world.encode(d.scripts[i].context) == Ok(payload)
    ensures PartWays(Shared(d, at, end, left, world).trace, OneByOne(d, at, world).trace)
    decreases end - at
  {
    if d.scripts[at].handlers == [] {
      NextDiffers(d, at + 1, end, left, payload, world);
    } else {
      var counted, handlers := d.(delivered := d.delivered + 1), d.scripts[at].handlers;
      SameScripts(counted, at, handlers, left, world);
      SameScripts(counted, at, handlers, payload, world);
      HandlersFollow(counted, at, handlers, left, world);
      HandlersFollow(counted, at, handlers, payload, world);
      var (fast, more) := DeliverTo(d, at, left, world);
      SharedFollows(fast, at + 1, end, more, world);
      OneByOneFollows(DeliverTo(d, at, payload, world).0, at + 1, world);
      assert Shared(d, at, end, left, world).trace[|d.trace|] == (at, handlers[0], left);
      assert OneByOne(d, at, world).trace[|d.trace|] == (at, handlers[0], payload);
    }
  }

  /** The listening scripts of a context that has no payload fail one after another. */
  function Failed(d: Delivery, at: nat, end: nat, error: string): Delivery
    requires at <= end <= |d.scripts|
  {
    d.(delivered := d.delivered + Listening(d.scripts, at, end), error := FirstError(d.error, Some(error)))
  }

  lemma {:induction false} AllFail(d: Delivery, at: nat, end: nat, error: string, world: World)
    requires at <= end <= |d.scripts| && !d.stopped && Listening(d.scripts, at, end) > 0
    requires forall i | at <= i < end :: world.encode(d.scripts[i].context) == Err(error)
    requires forall k: nat | d.delivered <= k < d.delivered + Listening(d.scripts, at, end) :: !world.stopsLate(k)
    ensures OneByOne(d, at, world) == OneByOne(Failed(d, at, end, error), end, world)
    decreases end - at
  {
    if d.scripts[at].handlers == [] {
      AllFail(d, at + 1, end, error, world);
    } else {
      var next := CannotEncode(d, error, world);
      assert !next.stopped && OneByOne(d, at, world) == OneByOne(next, at + 1, world);
      if Listening(d.scripts, at + 1, end) == 0 {
        NoneListening(next, at + 1, end, world);
      } else {
        AllFail(next, at + 1, end, error, world);
      }
    }
  }

  /** They stop at the first that finds a stop, which may be the last. */
  lemma {:induction false} FailuresStop(d: Delivery, at: nat, end: nat, error: string, world: World, k: nat)
    requires at <= end <= |d.scripts| && !d.stopped && d.delivered <= k < d.delivered + Listening(d.scripts, at, end)
    requires forall i | at <= i < end :: world.encode(d.scripts[i].context) == Err(error)
    requires world.stopsLate(k)
    ensures OneByOne(d, at, world).delivered <= k + 1
    ensures (forall earlier: nat | d.delivered <= earlier < k :: !world.stopsLate(earlier)) ==>
      Outcome(OneByOne(d, at, world)) == (d.trace, k + 1, FirstError(d.error, Some(error)))
    decreases end - at
  {
    if d.scripts[at].handlers == [] {
      FailuresStop(d, at + 1, end, error, world, k);
    } else {
      var next := CannotEncode(d, error, world);
      assert OneByOne(d, at, world) == OneByOne(next, at + 1, world);
      if !next.stopped {
        assert k != d.delivered;
        FailuresStop(next, at + 1, end, error, world, k);
      }
    }
  }

  lemma {:induction false} NoneByContext(d: Delivery, start: nat, world: World)
    requires start <= |d.scripts| && Listening(d.scripts, start, |d.scripts|) == 0
    ensures ByContext(d, start, world) == d
    decreases |d.scripts| - start
  {
    if start < |d.scripts| && !d.stopped {
      var end := EndOf(d.scripts, start, start + 1);
      ListeningParts(d.scripts, start, end, |d.scripts|);
      NoneByContext(d, end, world);
    }
  }

  lemma {:induction false} ListeningParts(scripts: seq<Script>, start: nat, middle: nat, end: nat)
    requires start <= middle <= end <= |scripts|
    ensures Listening(scripts, start, end) == Listening(scripts, start, middle) + Listening(scripts, middle, end)
    decreases middle - start
  {
    if start < middle { ListeningParts(scripts, start + 1, middle, end); }
  }

  /** Where a script still listens, one more delivery is counted. */
  lemma {:induction false} ListenerIsCounted(d: Delivery, start: nat, world: World)
    requires start <= |d.scripts| && !d.stopped && Listening(d.scripts, start, |d.scripts|) > 0
    ensures ByContext(d, start, world).delivered > d.delivered
    decreases |d.scripts| - start
  {
    var end := EndOf(d.scripts, start, start + 1);
    VisitSameScripts(d, start, end, world);
    ByContextFollows(VisitContext(d, start, end, world), end, world);
    ListeningParts(d.scripts, start, end, |d.scripts|);
    if Listening(d.scripts, start, end) == 0 {
      ListenerIsCounted(d, end, world);
    } else if world.encode(d.scripts[start].context).Ok? {
      SharedCounts(d, start, end, world.encode(d.scripts[start].context).value, world);
    }
  }

  lemma {:induction false} SharedCounts(d: Delivery, at: nat, end: nat, payload: Payload, world: World)
    requires at <= end <= |d.scripts| && !d.stopped && Listening(d.scripts, at, end) > 0
    ensures Shared(d, at, end, payload, world).delivered > d.delivered
    decreases end - at
  {
    if d.scripts[at].handlers == [] {
      SharedCounts(d, at + 1, end, payload, world);
    } else {
      SameScripts(d.(delivered := d.delivered + 1), at, d.scripts[at].handlers, payload, world);
      var (after, left) := DeliverTo(d, at, payload, world);
      SharedFollows(after, at + 1, end, left, world);
    }
  }

  /** A visit that agrees: the rest decides, or nothing is left to decide. */
  lemma AgreeingVisit(d: Delivery, start: nat, end: nat, world: World)
    requires start < end <= |d.scripts| && !d.stopped && VisitAgrees(d, start, end, world)
    requires forall i | start <= i < end :: d.scripts[i].context == d.scripts[start].context
    ensures var after := VisitContext(d, start, end, world);
      || OneByOne(d, start, world) == OneByOne(after, end, world)
      || (after.scripts == d.scripts && Listening(d.scripts, end, |d.scripts|) == 0
          && Outcome(OneByOne(d, start, world)) == Outcome(after))
  {
    if Listening(d.scripts, start, end) == 0 {
      NoneListening(d, start, end, world);
    } else {
      match world.encode(d.scripts[start].context)
      case Ok(payload) => SharedIsOneByOne(d, start, end, payload, world);
      case Err(error) => AgreeingFailure(d, start, end, error, world);
    }
  }

  lemma AgreeingFailure(d: Delivery, start: nat, end: nat, error: string, world: World)
    requires start < end <= |d.scripts| && !d.stopped && Listening(d.scripts, start, end) > 0
    requires end > start + 1 ==> GoesOn(d, start, end, world)
    requires forall i | start <= i < end :: world.encode(d.scripts[i].context) == Err(error)
    ensures var after := VisitContext(d, start, end, world);
      || OneByOne(d, start, world) == OneByOne(after, end, world)
      || (after.scripts == d.scripts && Listening(d.scripts, end, |d.scripts|) == 0
          && Outcome(OneByOne(d, start, world)) == Outcome(after))
  {
    if end == start + 1 {
      assert Listening(d.scripts, end, end) == 0;
      assert OneByOne(d, start, world) == OneByOne(CannotEncode(d, error, world), end, world);
    } else {
      var all := d.delivered + Listening(d.scripts, start, end);
      assert VisitContext(d, start, end, world) == Failed(d, start, end, error);
      if world.stopsLate(all - 1) {
        FailuresStop(d, start, end, error, world, all - 1);
      } else {
        AllFail(d, start, end, error, world);
      }
    }
  }

  /** A visit that does not agree shows in the outcome. */
  lemma DisagreeingVisit(d: Delivery, start: nat, end: nat, world: World)
    requires start < end <= |d.scripts| && !d.stopped && !VisitAgrees(d, start, end, world)
    requires forall i | start <= i < end :: d.scripts[i].context == d.scripts[start].context
    requires |VisitContext(d, start, end, world).scripts| == |d.scripts|
    ensures Outcome(ByContext(VisitContext(d, start, end, world), end, world)) != Outcome(OneByOne(d, start, world))
  {
    var after := VisitContext(d, start, end, world);
    ByContextFollows(after, end, world);
    match world.encode(d.scripts[start].context)
    case Ok(payload) =>
      SharedDiffers(d, start, end, payload, world);
      var i :| 0 <= i < |after.trace| && i < |OneByOne(d, start, world).trace|
               && after.trace[i] != OneByOne(d, start, world).trace[i];
      assert ByContext(after, end, world).trace[i] == after.trace[i];
    case Err(error) => DisagreeingFailure(d, start, end, error, world);
  }

  lemma DisagreeingFailure(d: Delivery, start: nat, end: nat, error: string, world: World)
    requires start + 1 < end <= |d.scripts| && !d.stopped && Listening(d.scripts, start, end) > 0
    requires !GoesOn(d, start, end, world)
    requires forall i | start <= i < end :: world.encode(d.scripts[i].context) == Err(error)
    ensures OneByOne(d, start, world).delivered < ByContext(VisitContext(d, start, end, world), end, world).delivered
  {
    var after := VisitContext(d, start, end, world);
    assert after == Failed(d, start, end, error);
    ByContextFollows(after, end, world);
    var k: nat :| d.delivered <= k < after.delivered && world.stopsLate(k)
                  && !(k == after.delivered - 1 && Listening(d.scripts, end, |d.scripts|) == 0);
    FailuresStop(d, start, end, error, world, k);
    if k == after.delivered - 1 {
      ListenerIsCounted(after, end, world);
    }
  }

  /** Serving scripts that share a context in one visit runs the same handlers with the same
      payloads in the same order, and gives the same count and first error, as serving every
      script by itself, exactly when every visit agrees: a payload is handed on unchanged
      wherever a later script of its visit gets it, and no stop goes unnoticed while a
      shared payload cannot be encoded. */
  lemma {:induction false} ByContextIsOneByOne(d: Delivery, start: nat, world: World)
    ensures Outcome(ByContext(d, start, world)) == Outcome(OneByOne(d, start, world)) <==> Agrees(d, start, world)
    decreases |d.scripts| - start
  {
    if start < |d.scripts| && !d.stopped {
      var end := EndOf(d.scripts, start, start + 1);
      VisitSameScripts(d, start, end, world);
      var after := VisitContext(d, start, end, world);
      if VisitAgrees(d, start, end, world) {
        AgreeingVisit(d, start, end, world);
        ByContextIsOneByOne(after, end, world);
        if OneByOne(d, start, world) != OneByOne(after, end, world) {
          NoneByContext(after, end, world);
          NoneListening(after, end, |d.scripts|, world);
        }
      } else {
        DisagreeingVisit(d, start, end, world);
      }
    }
  }

  /** Handlers that never change a payload, in contexts that can all encode it: what a host
      may check beforehand. */
  ghost predicate Harmless(world: World) {
    && (forall k, handler, payload :: world.react(k, handler, payload).payload == payload)
    && (forall context :: world.encode(context).Ok?)
  }

  lemma {:induction false} PayloadStays(d: Delivery, at: nat, handlers: seq<nat>, payload: Payload, world: World)
    requires Harmless(world)
    ensures RunHandlers(d, at, handlers, payload, world).1 == payload
    decreases |handlers|
  {
    if handlers != [] && !d.stopped {
      var (next, left) := RunHandler(d, at, handlers[0], payload, world);
      PayloadStays(next, at, handlers[1..], left, world);
    }
  }

  lemma {:induction false} HarmlessHandsOn(d: Delivery, at: nat, end: nat, payload: Payload, world: World)
    requires at <= end <= |d.scripts| && Harmless(world)
    ensures HandsOn(d, at, end, payload, world)
    decreases end - at
  {
    if at < end && !d.stopped {
      if d.scripts[at].handlers == [] {
        HarmlessHandsOn(d, at + 1, end, payload, world);
      } else {
        var counted, handlers := d.(delivered := d.delivered + 1), d.scripts[at].handlers;
        SameScripts(counted, at, handlers, payload, world);
        PayloadStays(counted, at, handlers, payload, world);
        HarmlessHandsOn(DeliverTo(d, at, payload, world).0, at + 1, end, payload, world);
      }
    }
  }

  lemma {:induction false} HarmlessAgrees(d: Delivery, start: nat, world: World)
    requires Harmless(world)
    ensures Agrees(d, start, world)
    decreases |d.scripts| - start
  {
    if start < |d.scripts| && !d.stopped {
      var end := EndOf(d.scripts, start, start + 1);
      VisitSameScripts(d, start, end, world);
      HarmlessHandsOn(d, start, end, world.encode(d.scripts[start].context).value, world);
      HarmlessAgrees(VisitContext(d, start, end, world), end, world);
    }
  }

  lemma RunsOne(d: Delivery, at: nat, handler: nat, payload: Payload, world: World)
    requires !d.stopped
    ensures RunHandlers(d, at, [handler], payload, world) == RunHandler(d, at, handler, payload, world)
  {
    assert [handler][1..] == [];
  }

  /** Each handler adds one to its payload. */
  function ChangingWorld(): World {
    World((k, handler, payload) => Reaction(payload + 1, [], None, false), context => Ok(0), k => false)
  }

  /** The first context has no payload, and the operation is interrupted meanwhile. */
  function StoppingWorld(): World {
    World((k, handler, payload) => Reaction(payload, [], None, false),
          context => if context == 0 then Err("no") else Ok(0), k => true)
  }

  /** A payload one script's handler changes reaches the next script of its context, but no
      script of another context. */
  lemma ChangedPayloadIsShared()
    ensures !Agrees(Begin([Script(0, [1]), Script(0, [2])]), 0, ChangingWorld())
    ensures Agrees(Begin([Script(0, [1]), Script(1, [2])]), 0, ChangingWorld())
  {
    ChangedIsNotHandedOn([Script(0, [1]), Script(0, [2])]);
    ChangedIsNotHandedOn([Script(0, [1]), Script(1, [2])]);
    var first := DeliverTo(Begin([Script(0, [1]), Script(1, [2])]), 0, 0, ChangingWorld()).0;
    assert EndOf(first.scripts, 1, 2) == 2;
    LastHandsOn(first, 1, 0, ChangingWorld());
  }

  /** A visit's last script may leave anything. */
  lemma LastHandsOn(d: Delivery, at: nat, payload: Payload, world: World)
    requires at < |d.scripts|
    ensures HandsOn(d, at, at + 1, payload, world)
  {
    if d.scripts[at].handlers != [] {
      SameScripts(d.(delivered := d.delivered + 1), at, d.scripts[at].handlers, payload, world);
      var after := DeliverTo(d, at, payload, world).0;
      assert Listening(after.scripts, at + 1, at + 1) == 0;
    }
  }

  lemma ChangedIsNotHandedOn(scripts: seq<Script>)
    requires |scripts| == 2 && scripts[0] == Script(0, [1]) && scripts[1].handlers == [2]
    ensures var world := ChangingWorld();
      var (after, left) := DeliverTo(Begin(scripts), 0, 0, world);
      && after.scripts == scripts && !after.stopped && left == 1
      && HandsOn(Begin(scripts), 0, 1, 0, world) && !HandsOn(Begin(scripts), 0, 2, 0, world)
      && Shared(Begin(scripts), 0, 1, 0, world) == after
  {
    var world, d := ChangingWorld(), Begin(scripts);
    RunsOne(d.(delivered := 1), 0, 1, 0, world);
    assert Change(scripts, []) == scripts;
    LastHandsOn(d, 0, 0, world);
    assert Listening(scripts, 1, 2) == 1;
    var (after, left) := DeliverTo(d, 0, 0, world);
    assert Shared(after, 1, 1, left, world) == after;
  }

  /** A stop found while a shared payload cannot be encoded is not looked at: the scripts
      of the next context are still entered. */
  lemma StopIsOverlooked()
    ensures var scripts := [Script(0, [1]), Script(0, [2]), Script(1, [3])];
      && !Agrees(Begin(scripts), 0, StoppingWorld())
      && OneByOne(Begin(scripts), 0, StoppingWorld()).trace == []
      && (2, 3, 0) in ByContext(Begin(scripts), 0, StoppingWorld()).trace
  {
    var world := StoppingWorld();
    var scripts := [Script(0, [1]), Script(0, [2]), Script(1, [3])];
    assert EndOf(scripts, 0, 1) == 2 && EndOf(scripts, 2, 3) == 3;
    assert Listening(scripts, 0, 2) == 2 && Listening(scripts, 2, 3) == 1;
    assert !GoesOn(Begin(scripts), 0, 2, world) by { assert world.stopsLate(0); }
    var failed := Failed(Begin(scripts), 0, 2, "no");
    assert VisitContext(Begin(scripts), 0, 2, world) == failed;
    var counted := failed.(delivered := 3);
    RunsOne(counted, 2, 3, 0, world);
    var last := DeliverTo(failed, 2, 0, world).0;
    assert last.trace == [(2, 3, 0)];
    assert VisitContext(failed, 2, 3, world) == Shared(last, 3, 3, 0, world) == last;
    assert ByContext(failed, 2, world) == ByContext(last, 3, world) == last;
    assert OneByOne(Begin(scripts), 0, world) == OneByOne(CannotEncode(Begin(scripts), "no", world), 1, world);
  }
}
