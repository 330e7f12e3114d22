/** The timers of one script as values (assets/context_prelude.js): what each operation
    makes of them, and what a run of the due ones fires. */
module TimerModel {
  import opened Wrappers
  import opened Times

  datatype Timer = Timer(id: nat, due: Time, interval: Option<Time>, cancelled: bool)

  /** `live` is in creation order, cleared and finished timers included until swept;
      `earliest` is what the engine was last told; `finished` counts the cancelled. */
  datatype Timers = Timers(live: seq<Timer>, nextId: nat, earliest: Time, finished: nat)

  const NO_TIMERS := Timers([], 1, Never, 0)

  /** The value a script passes as a delay, as a number. */
  datatype Delay = NotANumber | Number(ms: real) | Infinite | MinusInfinite

  function Wait(delay: Delay): Time {
    match delay
    case Number(ms) => At(if ms < 0.0 then 0.0 else ms)
    case Infinite => Never
    case _ => At(0.0)
  }

  function MinDue(live: seq<Timer>): Time {
    if live == [] then Never
    else
      var rest := MinDue(live[..|live| - 1]);
      var last := live[|live| - 1];
      if !last.cancelled && Before(last.due, rest) then last.due else rest
  }

  function Cancelled(live: seq<Timer>): nat {
    if live == [] then 0
    else Cancelled(live[..|live| - 1]) + if live[|live| - 1].cancelled then 1 else 0
  }

  function Kept(live: seq<Timer>): seq<Timer> {
    if live == [] then []
    else Kept(live[..|live| - 1]) + if live[|live| - 1].cancelled then [] else [live[|live| - 1]]
  }

  /** Where the timer `id` is, if it was not cancelled. */
  function IndexOf(live: seq<Timer>, id: nat): (index: Option<nat>)
    ensures index.Some? ==> index.value < |live| && live[index.value].id == id && !live[index.value].cancelled
  {
    if live == [] then None
    else
      var last := live[|live| - 1];
      if last.id == id && !last.cancelled then Some(|live| - 1) else IndexOf(live[..|live| - 1], id)
  }

  // ------------------------------------------------------------------- operations

  function Reschedule(timers: Timers): Timers { timers.(earliest := MinDue(timers.live)) }

  function Add(timers: Timers, now: real, delay: Delay, repeats: bool): Timers {
    var wait := Wait(delay);
    var due := Plus(At(now), wait);
    Timers(timers.live + [Timer(timers.nextId, due, if repeats then Some(wait) else None, false)],
           timers.nextId + 1, Earlier(timers.earliest, due), timers.finished)
  }

  function Retire(timers: Timers, at: nat): Timers
    requires at < |timers.live|
  {
    timers.(live := timers.live[at := timers.live[at].(cancelled := true)], finished := timers.finished + 1)
  }

  function Clear(timers: Timers, id: nat): Timers {
    var found := IndexOf(timers.live, id);
    if found.None? then timers else ClearAt(timers, found.value)
  }

  function ClearAt(timers: Timers, at: nat): Timers
    requires at < |timers.live|
  {
    var retired := Retire(timers, at);
    if timers.live[at].due == timers.earliest then Reschedule(retired) else retired
  }

  /** A timer about to run its callback: over, or due again one interval later. */
  function Begin(timers: Timers, at: nat): Timers
    requires at < |timers.live|
  {
    var timer := timers.live[at];
    match timer.interval
    case None => Retire(timers, at)
    case Some(interval) => timers.(live := timers.live[at := timer.(due := Plus(timer.due, interval))])
  }

  function Sweep(timers: Timers): Timers {
    if timers.finished > 0 then timers.(live := Kept(timers.live), finished := 0) else timers
  }

  // --------------------------------------------------------------------- callbacks

  datatype Op = AddTimer(delay: Delay, repeats: bool) | ClearTimer(id: nat)

  datatype Ending = Returned | Threw(error: string) | Interrupted

  /** What one run of a callback does to its script's timers, and how it ends. */
  datatype Callback = Callback(ops: seq<Op>, ending: Ending)

  /** The callback of each run in turn: any script is some such function. */
  type Script = nat -> Callback

  function Perform(timers: Timers, now: real, ops: seq<Op>): Timers
    decreases |ops|
  {
    if ops == [] then timers else Perform(PerformOne(timers, now, ops[0]), now, ops[1..])
  }

  function PerformOne(timers: Timers, now: real, op: Op): Timers {
    match op
    case AddTimer(delay, repeats) => Add(timers, now, delay, repeats)
    case ClearTimer(id) => Clear(timers, id)
  }

  // ------------------------------------------------------------------------- a run

  /** Timers sort by due time, then creation. */
  predicate Precedes(a: Timer, b: Timer) {
    Before(a.due, b.due) || (a.due == b.due && a.id < b.id)
  }

  function InsertSorted(timer: Timer, sorted: seq<Timer>): seq<Timer> {
    if sorted == [] || Precedes(timer, sorted[0]) then [timer] + sorted
    else [sorted[0]] + InsertSorted(timer, sorted[1..])
  }

  function Sorted(timers: seq<Timer>): seq<Timer> {
    if timers == [] then [] else InsertSorted(timers[|timers| - 1], Sorted(timers[..|timers| - 1]))
  }

  /** The live timers due at `time`, in creation order. */
  function Due(live: seq<Timer>, time: real): seq<Timer> {
    if live == [] then []
    else
      var last := live[|live| - 1];
      Due(live[..|live| - 1], time) + if last.cancelled || !NotAfter(last.due, At(time)) then [] else [last]
  }

  function Ids(timers: seq<Timer>): seq<nat> {
    seq(|timers|, i requires 0 <= i < |timers| => timers[i].id)
  }

  /** `fired` lists the timers whose callback ran, in order. */
  datatype Run = Run(timers: Timers, fired: seq<nat>, error: Option<string>, interrupted: bool)

  function FireAll(run: Run, now: real, order: seq<nat>, script: Script): Run
    decreases |order|
  {
    if order == [] || run.interrupted then run else FireAll(Fire(run, now, order[0], script), now, order[1..], script)
  }

  function Fire(run: Run, now: real, id: nat, script: Script): Run {
    var found := IndexOf(run.timers.live, id);
    if found.None? then run
    else
      var callback := script(|run.fired|);
      var timers := Perform(Begin(run.timers, found.value), now, callback.ops);
      var fired := run.fired + [id];
      match callback.ending
      case Returned => Run(timers, fired, run.error, false)
      case Threw(error) => Run(timers, fired, if run.error.Some? then run.error else Some(error), false)
      case Interrupted => Run(timers, fired, run.error, true)
  }

  function RunTimers(timers: Timers, time: real, script: Script): Run {
    var due := Due(timers.live, time);
    if due == [] then Run(Reschedule(timers), [], None, false)
    else
      var run := FireAll(Run(timers, [], None, false), time, Ids(Sorted(due)), script);
      if run.interrupted then run else run.(timers := Reschedule(Sweep(run.timers)))
  }
}
