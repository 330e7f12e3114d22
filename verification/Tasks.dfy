/** Results of deferred calls and requests (src/runner/tasks.rs): replies settle in any
    order, the result is published once. */
module Tasks {
  import opened Wrappers

  datatype Error = Cancelled | Failed(message: string)

  /** A handler's reply, with its script. */
  datatype Reply = Reply(script: string, value: int)

  type Outcome = Result<Reply, Error>
  type Published = Result<seq<Reply>, Error>

  // ----------------------------------------------------------------- what is published

  /** The replies in slot order, or the first error in slot order. */
  function Collect(slots: seq<Option<Outcome>>): Published {
    if slots == [] then Ok([])
    else
      var before, last := Collect(slots[..|slots| - 1]), slots[|slots| - 1];
      if before.Err? || last.None? then before
      else if last.value.Err? then Err(last.value.error)
      else Ok(before.value + [last.value.value])
  }

  predicate AllFilled(slots: seq<Option<Outcome>>) {
    forall slot | slot in slots :: slot.Some?
  }

  /** Every handler replied: the result lists the replies in the order the handlers ran;
      otherwise it is the error of the first handler that failed. */
  lemma {:induction false} CollectIsInOrder(slots: seq<Option<Outcome>>)
    requires AllFilled(slots)
    ensures Collect(slots).Ok? <==> forall i | 0 <= i < |slots| :: slots[i].value.Ok?
    ensures Collect(slots).Ok? ==>
      |Collect(slots).value| == |slots| && forall i | 0 <= i < |slots| :: Collect(slots).value[i] == slots[i].value.value
    ensures Collect(slots).Err? ==> exists i | 0 <= i < |slots| :: FirstFailure(slots, i, Collect(slots).error)
    decreases |slots|
  {
    if slots != [] {
      var rest, last := slots[..|slots| - 1], slots[|slots| - 1];
      assert forall slot | slot in rest :: slot in slots;
      assert last in slots;
      CollectIsInOrder(rest);
      if Collect(rest).Err? {
        var i :| 0 <= i < |rest| && FirstFailure(rest, i, Collect(rest).error);
        assert FirstFailure(slots, i, Collect(slots).error);
      } else if last.value.Err? {
        assert FirstFailure(slots, |rest|, last.value.error);
      }
    }
  }

  /** Slot `i` failed with `error`, and none before it failed. */
  predicate FirstFailure(slots: seq<Option<Outcome>>, i: nat, error: Error)
    requires AllFilled(slots) && i < |slots|
  {
    slots[i] == Some(Err(error)) && forall j | 0 <= j < i :: slots[j].Some? && slots[j].value.Ok?
  }

  // --------------------------------------------------------------------- one request

  /** `handle` is the host's; `handed` is every value the aggregator completed it with,
      whether or not the handle was still empty. */
  datatype Request = Request(
    handle: Option<Published>, handed: seq<Published>, replies: seq<Option<Outcome>>, active: bool, finished: bool)

  const NEW_REQUEST := Request(None, [], [], false, false)

  function Complete(handle: Option<Published>, value: Published): Option<Published> {
    if handle.None? then Some(value) else handle
  }

  function Hand(request: Request, value: Published): Request {
    request.(handle := Complete(request.handle, value), handed := request.handed + [value])
  }

  predicate Ready(request: Request) {
    !request.finished && request.active && AllFilled(request.replies)
  }

  function CompleteIfReady(request: Request): Request {
    if !Ready(request) then request
    else Hand(request.(replies := [], active := false, finished := true), Collect(request.replies))
  }

  function Record(request: Request, slot: nat, outcome: Outcome): Request
    requires slot < |request.replies|
  {
    CompleteIfReady(request.(replies := request.replies[slot := Some(outcome)]))
  }

  function Fail(request: Request, error: Error): Request {
    CompleteIfReady(request.(replies := request.replies + [Some(Err(error))]))
  }

  function Activate(request: Request): Request { CompleteIfReady(request.(active := true)) }

  function Cancel(request: Request): Request {
    if request.finished then request else Hand(request.(finished := true), Err(Cancelled))
  }

  // --------------------------------------------------------------------- the classes

  class PendingCall {
    var result: Option<Published>

    constructor ()
      ensures result == None
    {
      result := None;
    }

    method CompleteWith(value: Published)
      modifies this
      ensures result == Complete(old(result), value)
    {
      if result.None? {
        result := Some(value);
      }
    }

    method Take() returns (taken: Option<Published>)
      modifies this
      ensures taken == old(result) && result == None
    {
      taken, result := result, None;
    }
  }

  class RequestResults {
    const handle: PendingCall
    var replies: seq<Option<Outcome>>
    var active: bool
    var finished: bool
    ghost var handed: seq<Published>

    constructor (handle: PendingCall)
      ensures this.handle == handle && handed == [] && replies == [] && !active && !finished
    {
      this.handle, handed, replies, active, finished := handle, [], [], false, false;
    }

    ghost function View(): Request
      reads this, handle
    {
      Request(handle.result, handed, replies, active, finished)
    }

    /** The slot of the next handler's reply. */
    method Reserve() returns (slot: nat)
      modifies this`replies
      ensures slot == |old(replies)| && replies == old(replies) + [None]
    {
      slot := |replies|;
      replies := replies + [None];
    }

    method RecordReply(slot: nat, outcome: Outcome)
      requires slot < |replies|
      modifies this, handle
      ensures View() == Record(old(View()), slot, outcome)
    {
      replies := replies[slot := Some(outcome)];
      PublishIfReady();
    }

    method FailWith(error: Error)
      modifies this, handle
      ensures View() == Fail(old(View()), error)
    {
      replies := replies + [Some(Err(error))];
      PublishIfReady();
    }

    method ActivateResults()
      modifies this, handle
      ensures View() == Activate(old(View()))
    {
      active := true;
      PublishIfReady();
    }

    method CancelRequest()
      modifies this, handle
      ensures View() == Cancel(old(View()))
    {
      if !finished {
        finished := true;
        Publish(Err(Cancelled));
      }
    }

    method PublishIfReady()
      modifies this, handle
      ensures View() == CompleteIfReady(old(View()))
    {
      var filled := EverySlotFilled();
      if finished || !active || !filled {
        return;
      }
      var firstError: Option<Error>, collected := None, [];
      for i := 0 to |replies|
        invariant (if firstError.Some? then Err(firstError.value) else Ok(collected)) == Collect(replies[..i])
      {
        assert replies[..i + 1][..i] == replies[..i];
        match replies[i].value {
          case Ok(reply) => collected := collected + [reply];
          case Err(error) => if firstError.None? { firstError := Some(error); }
        }
      }
      assert replies[..|replies|] == replies;
      replies := [];
      active := false;
      finished := true;
      Publish(if firstError.Some? then Err(firstError.value) else Ok(collected));
    }

    /** Completes the handle, unless a task that was dropped did. */
    method Publish(value: Published)
      modifies this`handed, handle
      ensures View() == Hand(old(View()), value)
    {
      handed := handed + [value];
      handle.CompleteWith(value);
    }

    method EverySlotFilled() returns (filled: bool)
      ensures filled <==> AllFilled(replies)
    {
      for i := 0 to |replies|
        invariant forall k | 0 <= k < i :: replies[k].Some?
      {
        if replies[i].None? {
          assert replies[i] in replies;
          return false;
        }
      }
      filled := true;
    }
  }

  // ------------------------------------------------------------------ over whole lives

  /** A handler returns a Promise that is watched from then on, or replies at once; a
      watched Promise settles once, at any time. A retired script's guard cancels the
      request, then its tasks are dropped, and the engine's end drops every task: a task
      that is dropped completes the handle without looking at the aggregator. The host may
      take the result at any time. */
  datatype Event =
    | Watched(script: string)
    | Replied(script: string, outcome: Outcome)
    | Settled(slot: nat, outcome: Outcome)
    | HandlersFailed(error: Error)
    | Activated
    | Retired(script: string)
    | EngineEnds
    | Taken

  /** A request and what happened to it: every slot's script and outcome, kept even once
      the aggregator let go of it, the slots whose Promise a task still watches, and
      whether a participant's retirement is what finished it. */
  datatype Life = Life(
    request: Request, owners: seq<Option<string>>, outcomes: seq<Option<Outcome>>, watching: set<nat>,
    activated: bool, cancelled: bool, ended: bool)

  const NEW_LIFE := Life(NEW_REQUEST, [], [], {}, false, false, false)

  predicate Enabled(life: Life, event: Event) {
    match event
    case Taken => true
    case EngineEnds => true
    case Settled(slot, _) => !life.ended && slot in life.watching
    case Retired(_) => !life.ended
    case _ => !life.ended && !life.activated
  }

  predicate InRange(life: Life, event: Event) {
    event.Settled? ==> event.slot < |life.request.replies| && event.slot < |life.outcomes|
  }

  /** The watched slots of one script's version, or of all of them. */
  function Dropping(life: Life, event: Event): set<nat> {
    match event
    case Retired(script) => set slot | slot in life.watching && slot < |life.owners| && life.owners[slot] == Some(script)
    case EngineEnds => life.watching
    case _ => {}
  }

  function DropTasks(life: Life, slots: set<nat>): Life {
    if slots == {} then life
    else life.(request := life.request.(handle := Complete(life.request.handle, Err(Cancelled))),
               watching := life.watching - slots)
  }

  /** `life` with one more slot, in the aggregator and in the record. */
  function WithSlot(life: Life, owner: Option<string>, outcome: Option<Outcome>): Life {
    life.(request := life.request.(replies := life.request.replies + [outcome]),
          owners := life.owners + [owner], outcomes := life.outcomes + [outcome])
  }

  /** A settled reply always finds its slot: `InRange`, proved of every life. */
  function Step(life: Life, event: Event): Life
    requires Enabled(life, event)
  {
    match event
    case Watched(script) =>
      WithSlot(life, Some(script), None).(watching := life.watching + {|life.outcomes|})
    case Replied(script, outcome) =>
      var reserved := WithSlot(life, Some(script), None);
      reserved.(request := Record(reserved.request, |life.request.replies|, outcome),
                outcomes := life.outcomes + [Some(outcome)])
    case Settled(slot, outcome) =>
      if !InRange(life, event) then life
      else life.(request := Record(life.request, slot, outcome), outcomes := life.outcomes[slot := Some(outcome)],
                 watching := life.watching - {slot})
    case HandlersFailed(error) =>
      life.(request := Fail(life.request, error),
            owners := life.owners + [None], outcomes := life.outcomes + [Some(Err(error))])
    case Activated => life.(request := Activate(life.request), activated := true)
    case Retired(script) =>
      var guarded := Some(script) in life.owners && !life.request.finished;
      DropTasks(if guarded then life.(request := Cancel(life.request), cancelled := true) else life, Dropping(life, event))
    case EngineEnds => DropTasks(life, Dropping(life, event)).(ended := true)
    case Taken => life.(request := life.request.(handle := None))
  }

  /** The aggregator finishes once: because a participant was retired, or because every
      slot was filled and the request active. Until it finishes, while the engine lives,
      the handle is empty; until it delivered it holds every slot. */
  predicate Inv(life: Life) {
    var request := life.request;
    && |life.owners| == |life.outcomes|
    && (forall slot | slot in life.watching :: slot < |life.outcomes| && life.outcomes[slot].None?)
    && (!request.finished ==>
          && request.handed == [] && !life.cancelled
          && (request.handle.None? || life.ended)
          && request.active == life.activated && !(life.activated && AllFilled(life.outcomes)))
    && (request.finished && !life.cancelled ==>
          life.activated && AllFilled(life.outcomes) && request.handed == [Collect(life.outcomes)])
    && (request.finished && life.cancelled ==> request.handed == [Err(Cancelled)])
    && (!request.finished || life.cancelled ==> request.replies == life.outcomes)
  }

  lemma StepKeepsInv(life: Life, event: Event)
    requires Inv(life) && Enabled(life, event)
    ensures InRange(life, event) && Inv(Step(life, event))
  {
    match event
    case Watched(_) => assert (life.outcomes + [None])[|life.outcomes|] in life.outcomes + [None];
    case Replied(_, outcome) =>
      var replies := life.request.replies;
      assert (replies + [None])[|replies| := Some(outcome)] == replies + [Some(outcome)];
    case Settled(slot, outcome) => assert life.outcomes[slot] in life.outcomes;
    case Retired(script) =>
      if Some(script) !in life.owners { assert Dropping(life, event) == {}; }
    case _ =>
  }

  ghost predicate Lives(lives: seq<Life>, events: seq<Event>) {
    && |lives| == |events| + 1 && lives[0] == NEW_LIFE
    && forall i | 0 <= i < |events| :: Enabled(lives[i], events[i]) && lives[i + 1] == Step(lives[i], events[i])
  }

  lemma {:induction false} LivesKeepInv(lives: seq<Life>, events: seq<Event>, at: nat)
    requires Lives(lives, events) && at <= |events|
    ensures Inv(lives[at])
    decreases at
  {
    if at > 0 {
      LivesKeepInv(lives, events, at - 1);
      StepKeepsInv(lives[at - 1], events[at - 1]);
    }
  }

  /** Whatever happens to a request, its aggregator completes the handle at most once: with
      a cancellation if a participant was retired first, else, once every handler ran and
      replied, with the replies or the first error in the order the handlers ran, whatever
      the order in which they settled. */
  lemma PublishedOnce(lives: seq<Life>, events: seq<Event>)
    requires Lives(lives, events)
    ensures var life := lives[|events|];
      var published := life.request.handed;
      && |published| <= 1 && (life.request.finished <==> |published| == 1)
      && (published != [] && !life.cancelled ==>
            life.activated && AllFilled(life.outcomes) && published[0] == Collect(life.outcomes))
      && (life.cancelled ==> published == [Err(Cancelled)])
      && (life.activated && AllFilled(life.outcomes) ==> published != [])
      && (forall event | Enabled(life, event) :: InRange(life, event))
  {
    LivesKeepInv(lives, events, |events|);
    forall event | Enabled(lives[|events|], event) ensures InRange(lives[|events|], event) {
      StepKeepsInv(lives[|events|], event);
    }
  }

  /** What the host finds: the step that finishes a request puts into the empty handle the
      cancellation, or what every slot's outcome amounts to, and it stays there until it is
      taken, whatever else happens. */
  lemma {:induction false} HandleHoldsResult(lives: seq<Life>, events: seq<Event>, at: nat, later: nat)
    requires Lives(lives, events) && at < later <= |events|
    requires !lives[at].request.finished && lives[at + 1].request.finished
    requires forall i | at < i < later :: events[i] != Taken
    ensures lives[at].request.handle == None
    ensures lives[later].request.handle ==
      Some(if lives[at + 1].cancelled then Err(Cancelled) else Collect(lives[at + 1].outcomes))
    decreases later
  {
    LivesKeepInv(lives, events, at);
    assert events[at] != EngineEnds && events[at] != Taken;
    if later == at + 1 {
      LivesKeepInv(lives, events, later);
      FinishingFills(lives[at], events[at]);
    } else {
      HandleHoldsResult(lives, events, at, later - 1);
      FilledStays(lives[later - 1], events[later - 1]);
    }
  }

  lemma FinishingFills(life: Life, event: Event)
    requires Inv(life) && Enabled(life, event) && !life.request.finished && Step(life, event).request.finished
    ensures var after := Step(life, event);
      |after.request.handed| == 1 && life.request.handle == None && after.request.handle == Some(after.request.handed[0])
  {
    StepKeepsInv(life, event);
  }

  lemma FilledStays(life: Life, event: Event)
    requires Enabled(life, event) && life.request.handle.Some? && event != Taken
    ensures Step(life, event).request.handle == life.request.handle
  {}

  // ------------------------------------------------------- what a taken handle may hold

  /** While it is finished and its handle empty, a request's handle is filled by the drop
      of a task that still watches, and by nothing else. */
  lemma OnlyDroppedTaskRefills(life: Life, event: Event)
    requires Inv(life) && Enabled(life, event) && life.request.finished && life.request.handle == None
    ensures Step(life, event).request.finished
    ensures Step(life, event).request.handle == if Dropping(life, event) != {} then Some(Err(Cancelled)) else None
  {}

  /** A taken handle of a finished request is filled again if and only if a task that still
      watches is dropped after the take. */
  lemma {:induction false} RefilledExactly(lives: seq<Life>, events: seq<Event>, taken: nat, later: nat)
    requires Lives(lives, events) && taken <= later <= |events|
    requires lives[taken].request.finished && lives[taken].request.handle == None
    ensures (exists i | taken <= i <= later :: lives[i].request.handle.Some?)
            <==> (exists i | taken <= i < later :: Dropping(lives[i], events[i]) != {})
    decreases later
  {
    if taken < later {
      var last := later - 1;
      RefilledExactly(lives, events, taken, last);
      if exists i | taken <= i <= last :: lives[i].request.handle.Some? {
        var i :| taken <= i <= last && lives[i].request.handle.Some?;
        var k :| taken <= k < last && Dropping(lives[k], events[k]) != {};
        assert taken <= i <= later && taken <= k < later;
      } else {
        StaysFinished(lives, events, taken, last);
        LivesKeepInv(lives, events, last);
        OnlyDroppedTaskRefills(lives[last], events[last]);
        assert lives[later].request.handle.Some? <==> Dropping(lives[last], events[last]) != {};
      }
    }
  }

  lemma {:induction false} StaysFinished(lives: seq<Life>, events: seq<Event>, at: nat, later: nat)
    requires Lives(lives, events) && at <= later <= |events| && lives[at].request.finished
    ensures lives[later].request.finished && lives[later].cancelled == lives[at].cancelled
    ensures lives[later].request.handed == lives[at].request.handed
    decreases later
  {
    if at < later {
      StaysFinished(lives, events, at, later - 1);
      LivesKeepInv(lives, events, later - 1);
      FinishedStays(lives[later - 1], events[later - 1]);
    }
  }

  /** So never unless a participant's retirement cancelled the request. */
  lemma DeliveredIsNotRefilled(lives: seq<Life>, events: seq<Event>, taken: nat, later: nat)
    requires Lives(lives, events) && taken <= later <= |events|
    requires lives[taken].request.finished && !lives[taken].cancelled && lives[taken].request.handle == None
    ensures lives[later].request.handle == None
  {
    RefilledExactly(lives, events, taken, later);
    if lives[later].request.handle.Some? {
      var i :| taken <= i < later && Dropping(lives[i], events[i]) != {};
      StaysFinished(lives, events, taken, i);
      LivesKeepInv(lives, events, i);
      NothingLeftToDrop(lives[i], events[i]);
    }
  }

  lemma NothingLeftToDrop(life: Life, event: Event)
    requires Inv(life) && life.request.finished && !life.cancelled
    ensures Dropping(life, event) == {}
  {
    assert forall slot | 0 <= slot < |life.outcomes| :: life.outcomes[slot] in life.outcomes;
    assert forall slot :: slot !in life.watching;
  }

  /** Two scripts' Promises are pending. */
  const PENDING :=
    Life(Request(None, [], [None, None], true, false), [Some("a"), Some("b")], [None, None], {0, 1}, true, false, false)

  /** The first script was unloaded since. */
  const ONE_RETIRED :=
    Life(Request(Some(Err(Cancelled)), [Err(Cancelled)], [None, None], true, true),
         [Some("a"), Some("b")], [None, None], {1}, true, true, false)

  function FirstWatched(): Life { Step(NEW_LIFE, Watched("a")) }

  function BothWatched(): Life { Step(FirstWatched(), Watched("b")) }

  lemma BothArePending()
    ensures Enabled(BothWatched(), Activated) && Step(BothWatched(), Activated) == PENDING
  {
    assert BothWatched().request.replies == [None, None] && [None, None][0] in BothWatched().request.replies;
    assert BothWatched().watching == {0, 1};
  }

  lemma FirstIsRetired()
    ensures Step(PENDING, Retired("a")) == ONE_RETIRED
  {
    assert "a"[0] != "b"[0];
    assert Dropping(PENDING, Retired("a")) == {0};
  }

  /** It does happen: of two scripts whose Promises are pending the first is unloaded, the
      host takes the cancellation, then the second is unloaded and the handle holds another. */
  lemma TakenHandleIsRefilled()
    ensures exists lives: seq<Life> ::
      && Lives(lives, [Watched("a"), Watched("b"), Activated, Retired("a"), Taken, Retired("b")])
      && lives[4].request.handle == Some(Err(Cancelled)) && lives[5].request.handle == None
      && lives[6].request.handle == Some(Err(Cancelled)) && lives[6].request.handed == [Err(Cancelled)]
  {
    BothArePending();
    FirstIsRetired();
    var taken := Step(ONE_RETIRED, Taken);
    assert 1 in Dropping(taken, Retired("b"));
    var events := [Watched("a"), Watched("b"), Activated, Retired("a"), Taken, Retired("b")];
    var lives := [NEW_LIFE, FirstWatched(), BothWatched(), PENDING, ONE_RETIRED, taken, Step(taken, Retired("b"))];
    assert Lives(lives, events);
  }

  /** A finished request stays as published: replies that settle after a cancellation
      change neither what was published nor the handle. */
  lemma FinishedStays(life: Life, event: Event)
    requires Inv(life) && Enabled(life, event) && life.request.finished
    ensures Step(life, event).request.finished && Step(life, event).cancelled == life.cancelled
    ensures Step(life, event).request.handed == life.request.handed
    ensures Dropping(life, event) == {} && event != Taken ==> Step(life, event).request.handle == life.request.handle
  {}

  // --------------------------------------------------------------- one deferred call

  /** A task that watches the Promise of a deferred call and completes its handle. */
  class ScriptTask {
    const handle: PendingCall
    var finish: bool
    var cancel: bool
    ghost var completions: seq<Published>

    constructor (handle: PendingCall)
      ensures this.handle == handle && Valid() && completions == []
    {
      this.handle, finish, cancel, completions := handle, true, true, [];
    }

    /** Both ways to complete the handle are there until one is used. */
    ghost predicate Valid()
      reads this
    {
      finish == cancel && |completions| <= 1 && (finish <==> completions == [])
    }

    /** Looks at the Promise; returns whether the task is over. */
    method Poll(result: Option<Published>) returns (over: bool)
      requires Valid()
      modifies this, handle
      ensures Valid() && over == result.Some?
      ensures completions == if over && old(finish) then old(completions) + [result.value] else old(completions)
      ensures handle.result == if over && old(finish) then Complete(old(handle.result), result.value) else old(handle.result)
    {
      if result.None? {
        return false;
      }
      if finish {
        finish := false;
        completions := completions + [result.value];
        handle.CompleteWith(result.value);
      }
      cancel := false;
      over := true;
    }

    /** A task dropped before its Promise settled cancels the call. */
    method Drop()
      requires Valid()
      modifies this, handle
      ensures completions == if old(cancel) then old(completions) + [Err(Cancelled)] else old(completions)
      ensures |completions| <= 1 && !cancel
      ensures handle.result == if old(cancel) then Complete(old(handle.result), Err(Cancelled)) else old(handle.result)
    {
      if cancel {
        cancel := false;
        completions := completions + [Err(Cancelled)];
        handle.CompleteWith(Err(Cancelled));
      }
    }
  }
}
