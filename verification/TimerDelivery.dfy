/** Moving the engine clock with the timers of every script in view
    (src/runner/engine/host_driven.rs, assets/context_prelude.js): the engine's loop fires
    what running every script's timers one after another fires. */
module TimerDelivery {
  import opened Wrappers
  import opened Times
  import opened TimerModel
  import opened TimerLaws
  import opened TimerRuns
  import A = AdvanceTimers

  /** A loaded script; the engine was last told `timers.earliest`. */
  datatype Loaded = Loaded(context: nat, timers: Timers)

  /** `fired` lists the timers whose callbacks ran, each with its script. */
  datatype Fired = Fired(state: seq<Loaded>, fired: seq<(nat, nat)>, error: Option<string>, stopped: bool)

  /** What the callbacks of each script do, and whether the look after it finds a stop. */
  datatype Behaviour = Behaviour(callbacks: nat -> Script, stops: nat -> bool)

  function Of(at: nat, ids: seq<nat>): seq<(nat, nat)> {
    seq(|ids|, i requires 0 <= i < |ids| => (at, ids[i]))
  }

  function FirstError(first: Option<string>, next: Option<string>): Option<string> {
    if first.Some? then first else next
  }

  predicate Asked(loaded: Loaded, now: real) { NotAfter(loaded.timers.earliest, At(now)) }

  /** Runs the timers of every script in load order, whatever it told the engine; only a
      script that had asked to be run is followed by a look for a stop. */
  function RunEach(d: Fired, now: real, at: nat, behaviour: Behaviour): Fired
    decreases |d.state| - at
  {
    if at >= |d.state| || d.stopped then d
    else
      var run := RunTimers(d.state[at].timers, now, behaviour.callbacks(at));
      RunEach(Fired(d.state[at := d.state[at].(timers := run.timers)], d.fired + Of(at, run.fired),
                    FirstError(d.error, run.error),
                    Asked(d.state[at], now) && (run.interrupted || behaviour.stops(at))),
              now, at + 1, behaviour)
  }

  // ------------------------------------------------------------------ the engine's view

  function Told(state: seq<Loaded>): seq<A.Script> {
    seq(|state|, i requires 0 <= i < |state| => A.Script(state[i].context, state[i].timers.earliest))
  }

  /** The run of one script, as the engine sees it: what it is told last, the error and the
      look for a stop. */
  function VisitOf(state: seq<Loaded>, now: real, at: nat, behaviour: Behaviour): A.Visit
    requires at < |state|
  {
    var run := RunTimers(state[at].timers, now, behaviour.callbacks(at));
    A.Visit([A.Scheduled(at, run.timers.earliest)], run.error, run.interrupted || behaviour.stops(at))
  }

  /** The k-th script from `from` on that asked to be run. */
  function NthAsking(state: seq<Loaded>, now: real, from: nat, k: nat): nat
    decreases |state| - from
  {
    if from >= |state| then from
    else if !Asked(state[from], now) then NthAsking(state, now, from + 1, k)
    else if k == 0 then from
    else NthAsking(state, now, from + 1, k - 1)
  }

  function VisitsOf(state: seq<Loaded>, now: real, behaviour: Behaviour): A.Visits {
    (k: nat) => var at := NthAsking(state, now, 0, k);
         if at < |state| then VisitOf(state, now, at, behaviour) else A.Visit([], None, false)
  }

  /** The callbacks that the visits of `visited` ran. */
  function FiredBy(state: seq<Loaded>, now: real, behaviour: Behaviour, visited: seq<nat>): seq<(nat, nat)>
    decreases |visited|
  {
    if visited == [] then []
    else
      var before, at := visited[..|visited| - 1], visited[|visited| - 1];
      FiredBy(state, now, behaviour, before) +
      if at < |state| then Of(at, RunTimers(state[at].timers, now, behaviour.callbacks(at)).fired) else []
  }

  // --------------------------------------------------------------------- they agree

  lemma {:induction false} NoneIsDue(live: seq<Timer>, now: real)
    requires forall timer | timer in live :: timer.cancelled || Before(At(now), timer.due)
    ensures Due(live, now) == []
    decreases |live|
  {
    if live != [] {
      assert live[|live| - 1] in live;
      NoneIsDue(live[..|live| - 1], now);
    }
  }

  /** A script that did not ask to be run has nothing to fire. */
  lemma UnaskedFiresNothing(loaded: Loaded, now: real, script: Script)
    requires Consistent(loaded.timers) && !Asked(loaded, now)
    ensures RunTimers(loaded.timers, now, script) == Run(Reschedule(loaded.timers), [], None, false)
  {
    NoneIsDue(loaded.timers.live, now);
  }

  /** How many scripts from `from` to `to` asked to be run. */
  function Asking(state: seq<Loaded>, now: real, from: nat, to: nat): nat
    requires from <= to <= |state|
    decreases |state| - from
  {
    if from == to then 0 else (if Asked(state[from], now) then 1 else 0) + Asking(state, now, from + 1, to)
  }

  lemma {:induction false} NthIs(state: seq<Loaded>, now: real, from: nat, at: nat)
    requires from <= at < |state| && Asked(state[at], now)
    ensures NthAsking(state, now, from, Asking(state, now, from, at)) == at
    decreases at - from
  {
    if from < at { NthIs(state, now, from + 1, at); }
  }

  lemma {:induction false} OneMoreAsking(state: seq<Loaded>, now: real, from: nat, to: nat)
    requires from <= to < |state|
    ensures Asking(state, now, from, to + 1) == Asking(state, now, from, to) + (if Asked(state[to], now) then 1 else 0)
    decreases |state| - from
  {
    if from < to { OneMoreAsking(state, now, from + 1, to); }
  }

  /** Both loops fired the same callbacks, met the same error and stopped alike, and what
      the engine knows of a visited script is what its timers told last. */
  ghost predicate Matches(state: seq<Loaded>, now: real, behaviour: Behaviour, progress: A.Progress, d: Fired) {
    && |progress.timing.scripts| == |d.state| == |state|
    && FiredBy(state, now, behaviour, progress.visited) == d.fired
    && progress.error == d.error && progress.stopped == d.stopped
    && (forall at | at in progress.visited :: at < |state| && progress.timing.scripts[at].next == d.state[at].timers.earliest)
  }

  /** The engine's loop and the plain one, both about to come to script `at`. */
  ghost predicate InStep(state: seq<Loaded>, now: real, behaviour: Behaviour, at: nat, progress: A.Progress, d: Fired)
    requires at <= |state|
  {
    && Matches(state, now, behaviour, progress, d)
    && (forall i | at <= i < |state| :: d.state[i] == state[i] && progress.timing.scripts[i] == Told(state)[i])
    && (forall i | i in progress.visited :: i < at)
    && |progress.visited| == Asking(state, now, 0, at)
  }

  lemma OneCall(timing: A.Timing, call: A.Scheduled)
    ensures A.ScheduleAll(timing, [call]) == A.Schedule(timing, call)
  {
    assert [call][1..] == [];
  }

  lemma VisitIsRun(state: seq<Loaded>, now: real, behaviour: Behaviour, at: nat, progress: A.Progress)
    requires at < |state| && Asked(state[at], now) && |progress.visited| == Asking(state, now, 0, at)
    ensures var run := RunTimers(state[at].timers, now, behaviour.callbacks(at));
      A.VisitScript(progress, at, VisitsOf(state, now, behaviour)) ==
        A.Progress(A.Schedule(progress.timing, A.Scheduled(at, run.timers.earliest)), progress.visited + [at],
                   FirstError(progress.error, run.error), run.interrupted || behaviour.stops(at))
  {
    NthIs(state, now, 0, at);
    assert VisitsOf(state, now, behaviour)(|progress.visited|) == VisitOf(state, now, at, behaviour);
    OneCall(progress.timing, VisitOf(state, now, at, behaviour).calls[0]);
  }

  lemma OneVisit(
      state: seq<Loaded>, now: real, behaviour: Behaviour, at: nat, progress: A.Progress, d: Fired) returns (next: Fired)
    requires at < |state| && InStep(state, now, behaviour, at, progress, d) && !d.stopped && Asked(state[at], now)
    ensures RunEach(d, now, at, behaviour) == RunEach(next, now, at + 1, behaviour)
    ensures InStep(state, now, behaviour, at + 1, A.VisitScript(progress, at, VisitsOf(state, now, behaviour)), next)
  {
    var run := RunTimers(state[at].timers, now, behaviour.callbacks(at));
    next := Fired(d.state[at := d.state[at].(timers := run.timers)], d.fired + Of(at, run.fired),
                  FirstError(d.error, run.error), run.interrupted || behaviour.stops(at));
    OneMoreAsking(state, now, 0, at);
    VisitIsRun(state, now, behaviour, at, progress);
    var visited := progress.visited + [at];
    assert visited[..|visited| - 1] == progress.visited;
  }

  lemma {:induction false} EachIsVisited(
      state: seq<Loaded>, now: real, behaviour: Behaviour, at: nat, progress: A.Progress, d: Fired)
    requires at <= |state| && InStep(state, now, behaviour, at, progress, d)
    requires forall loaded | loaded in state :: Consistent(loaded.timers)
    ensures Matches(state, now, behaviour, A.OneByOne(progress, At(now), at, VisitsOf(state, now, behaviour)),
                    RunEach(d, now, at, behaviour))
    decreases |state| - at
  {
    if at < |state| && !d.stopped {
      var visits := VisitsOf(state, now, behaviour);
      assert A.IsDue(progress.timing, at, At(now)) == Asked(state[at], now);
      OneMoreAsking(state, now, 0, at);
      if Asked(state[at], now) {
        var next := OneVisit(state, now, behaviour, at, progress, d);
        EachIsVisited(state, now, behaviour, at + 1, A.VisitScript(progress, at, visits), next);
      } else {
        assert state[at] in state;
        UnaskedFiresNothing(state[at], now, behaviour.callbacks(at));
        var skipped := d.(state := d.state[at := d.state[at].(timers := Reschedule(d.state[at].timers))]);
        assert d.fired + Of(at, []) == d.fired;
        assert RunEach(d, now, at, behaviour) == RunEach(skipped, now, at + 1, behaviour);
        EachIsVisited(state, now, behaviour, at + 1, progress, skipped);
      }
    }
  }

  /** Asking every script whether it wants to run, which the engine's early return and its
      batching come down to (`AdvanceTimers.TimerEngine.Advance`), fires the same callbacks
      in the same order as running the timers of every loaded script. */
  lemma AdvanceFiresEveryDueTimer(state: seq<Loaded>, earliest: Time, now: real, behaviour: Behaviour)
    requires forall loaded | loaded in state :: Consistent(loaded.timers)
    ensures Matches(state, now, behaviour,
      A.OneByOne(A.Progress(A.Timing(Told(state), earliest), [], None, false), At(now), 0, VisitsOf(state, now, behaviour)),
      RunEach(Fired(state, [], None, false), now, 0, behaviour))
  {
    EachIsVisited(state, now, behaviour, 0, A.Progress(A.Timing(Told(state), earliest), [], None, false),
                  Fired(state, [], None, false));
  }
}
