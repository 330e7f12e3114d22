/** The execution budget and interrupt requests of the running operation
    (src/runner/execution.rs), for every 64-bit clock value and duration. */
module Execution {
  const NO_DEADLINE := 0xFFFF_FFFF_FFFF_FFFF
  const PENDING := 0xFFFF_FFFF_FFFF_FFFE

  /** Nanoseconds since the engine started, as 64 bits hold them. */
  function Elapsed(now: nat): nat { if now <= NO_DEADLINE then now else PENDING }

  datatype Control = Control(deadline: nat, budget: nat, requested: bool, stopped: bool)

  const INITIAL := Control(NO_DEADLINE, 0, false, false)

  function Enter(c: Control, nanos: nat): Control {
    if nanos < PENDING then Control(PENDING, nanos, false, false) else Control(NO_DEADLINE, c.budget, false, false)
  }

  function Leave(c: Control): Control { c.(deadline := NO_DEADLINE) }

  function StartClock(c: Control, now: nat): Control {
    if c.deadline != PENDING then c
    else
      var deadline := Elapsed(now) + c.budget;
      c.(deadline := if deadline < PENDING then deadline else NO_DEADLINE)
  }

  function Request(c: Control): Control { c.(requested := true) }

  predicate Expired(c: Control, now: nat) {
    c.deadline != NO_DEADLINE && c.deadline != PENDING && Elapsed(now) >= c.deadline
  }

  predicate MustStop(c: Control, now: nat) { c.requested || Expired(c, now) }

  function Observe(c: Control, now: nat): Control { c.(stopped := c.stopped || MustStop(c, now)) }

  predicate ShouldStop(c: Control) { c.requested || c.stopped }

  /** The shared control; only `RequestInterrupt` is called by other threads. */
  class ExecutionControl {
    var deadline: nat
    var budget: nat
    var interruptRequested: bool
    var stopped: bool

    constructor ()
      ensures View() == INITIAL
    {
      deadline, budget, interruptRequested, stopped := NO_DEADLINE, 0, false, false;
    }

    ghost function View(): Control
      reads this
    {
      Control(deadline, budget, interruptRequested, stopped)
    }

    method Interrupted(started: nat, now: nat) returns (stop: bool)
      modifies this`deadline, this`stopped
      ensures View() == Observe(StartClock(old(View()), started), now)
      ensures stop == MustStop(View(), now)
    {
      BeginClock(started);
      var expired := BudgetExpired(now);
      stop := interruptRequested || expired;
      if stop {
        stopped := true;
      }
    }

    method BeginClock(now: nat)
      modifies this`deadline
      ensures View() == StartClock(old(View()), now)
    {
      if deadline != PENDING {
        return;
      }
      var until := Elapsed(now) + budget;
      deadline := if until < PENDING then until else NO_DEADLINE;
    }

    method BudgetExpired(now: nat) returns (expired: bool)
      ensures expired == Expired(View(), now)
    {
      expired := deadline != NO_DEADLINE && deadline != PENDING && Elapsed(now) >= deadline;
    }

    method MustNotEnter() returns (stop: bool)
      ensures stop == ShouldStop(View())
    {
      stop := interruptRequested || stopped;
    }

    method RequestInterrupt()
      modifies this`interruptRequested
      ensures View() == Request(old(View()))
    {
      interruptRequested := true;
    }

    method EnterOperation(nanos: nat)
      modifies this
      ensures View() == Enter(old(View()), nanos)
    {
      interruptRequested := false;
      stopped := false;
      if nanos < PENDING {
        budget := nanos;
        deadline := PENDING;
      } else {
        deadline := NO_DEADLINE;
      }
    }

    method LeaveOperation()
      modifies this`deadline
      ensures View() == Leave(old(View()))
    {
      deadline := NO_DEADLINE;
    }
  }

  // ------------------------------------------------------------- what a budget means

  /** The operation as its caller sees it: none, or one with a budget whose clock may have
      started. */
  datatype Operation = None | Running(budget: nat, started: bool, at: nat)

  /** When the budget is used up, if that moment can be represented. */
  predicate UsedUp(operation: Operation, now: nat) {
    operation.Running? && operation.started && operation.at + operation.budget < PENDING
    && now >= operation.at + operation.budget
  }

  datatype Event = Entered(nanos: nat) | Left | ClockStarts(now: nat) | Observed(now: nat) | Requested

  function Apply(c: Control, event: Event): Control {
    match event
    case Entered(nanos) => Enter(c, nanos)
    case Left => Leave(c)
    case ClockStarts(now) => StartClock(c, now)
    case Observed(now) => Observe(c, now)
    case Requested => Request(c)
  }

  function Follow(operation: Operation, event: Event): Operation {
    match event
    case Entered(nanos) => Running(nanos, false, 0)
    case Left => None
    case ClockStarts(now) =>
      if operation.Running? && !operation.started then operation.(started := true, at := now) else operation
    case _ => operation
  }

  /** Any order of calls, interrupt requests of other threads among them. */
  function ControlAfter(events: seq<Event>): Control {
    if events == [] then INITIAL else Apply(ControlAfter(events[..|events| - 1]), events[|events| - 1])
  }

  function OperationAfter(events: seq<Event>): Operation {
    if events == [] then None else Follow(OperationAfter(events[..|events| - 1]), events[|events| - 1])
  }

  predicate Represents(c: Control, operation: Operation) {
    match operation
    case None => c.deadline == NO_DEADLINE
    case Running(budget, started, at) =>
      if started then c.deadline == if at + budget < PENDING then at + budget else NO_DEADLINE
      else if budget < PENDING then c.deadline == PENDING && c.budget == budget
      else c.deadline == NO_DEADLINE
  }

  /** The deadline always stands for the operation's budget: no sentinel but "no limit" is
      ever a deadline, and no sum wraps around. */
  lemma {:induction false} DeadlineRepresentsBudget(events: seq<Event>)
    ensures Represents(ControlAfter(events), OperationAfter(events))
    ensures OperationAfter(events).Running? && OperationAfter(events).started ==> ControlAfter(events).deadline != PENDING
    decreases |events|
  {
    if events != [] {
      DeadlineRepresentsBudget(events[..|events| - 1]);
    }
  }

  /** A budget is found used up exactly from the moment its clock started plus the budget,
      when that can be represented, and never otherwise. */
  lemma ExpiresExactly(events: seq<Event>, now: nat)
    ensures Expired(ControlAfter(events), now) <==> UsedUp(OperationAfter(events), now)
  {
    DeadlineRepresentsBudget(events);
  }

  predicate SameOperation(events: seq<Event>) {
    forall event | event in events :: !event.Entered? && !event.Left?
  }

  predicate NoneEntered(events: seq<Event>) {
    forall event | event in events :: !event.Entered?
  }

  lemma AfterOneMore(before: seq<Event>, later: seq<Event>)
    requires later != []
    ensures var all := before + later;
      && all[..|all| - 1] == before + later[..|later| - 1]
      && ControlAfter(all) == Apply(ControlAfter(before + later[..|later| - 1]), later[|later| - 1])
  {
    var all := before + later;
    assert all[..|all| - 1] == before + later[..|later| - 1];
  }

  /** Once used up, a budget stays used up until its operation ends. */
  lemma {:induction false} ExpiryLasts(before: seq<Event>, later: seq<Event>, now: nat, then_: nat)
    requires Expired(ControlAfter(before), now) && now <= then_ && SameOperation(later)
    ensures Expired(ControlAfter(before + later), then_)
    ensures ControlAfter(before + later).deadline == ControlAfter(before).deadline
    decreases |later|
  {
    if later == [] {
      assert before + later == before;
    } else {
      AfterOneMore(before, later);
      assert later[|later| - 1] in later;
      ExpiryLasts(before, later[..|later| - 1], now, then_);
    }
  }

  /** A stop found by a check is seen until the next operation starts, even once the
      operation it stopped has ended. */
  lemma {:induction false} FoundStopLasts(before: seq<Event>, now: nat, later: seq<Event>)
    requires MustStop(ControlAfter(before), now) && NoneEntered(later)
    ensures ControlAfter(before + [Observed(now)] + later).stopped
    ensures ShouldStop(ControlAfter(before + [Observed(now)] + later))
    decreases |later|
  {
    var found := before + [Observed(now)];
    if later == [] {
      assert found + later == found && found[..|before|] == before;
    } else {
      AfterOneMore(found, later);
      assert later[|later| - 1] in later;
      FoundStopLasts(before, now, later[..|later| - 1]);
    }
  }

  /** An interrupt requested after an operation started is seen by every later check of
      it, and by nothing once the next operation has started. */
  lemma {:induction false} RequestIsSeen(before: seq<Event>, later: seq<Event>, now: nat)
    requires NoneEntered(later)
    ensures ControlAfter(before + [Requested] + later).requested
    ensures MustStop(ControlAfter(before + [Requested] + later), now)
    ensures ShouldStop(ControlAfter(before + [Requested] + later))
    ensures forall nanos :: !ShouldStop(Enter(ControlAfter(before + [Requested] + later), nanos))
    decreases |later|
  {
    var requested := before + [Requested];
    if later == [] {
      assert requested + later == requested && requested[..|before|] == before;
    } else {
      AfterOneMore(requested, later);
      assert later[|later| - 1] in later;
      RequestIsSeen(before, later[..|later| - 1], now);
    }
  }
}
