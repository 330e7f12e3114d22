/** Moving the engine clock (src/runner/engine/host_driven.rs, src/runner/timers.rs): one
    comparison when nothing is due, and one visit per context, against a plain loop over
    every loaded script. */
module AdvanceTimers {
  import opened Wrappers
  import opened Times

  /** A loaded script: the context it runs in and what it last told the engine. */
  datatype Script = Script(context: nat, next: Time)

  /** `earliest` is the engine's bound on when any script wants to run. */
  datatype Timing = Timing(scripts: seq<Script>, earliest: Time)

  /** The `schedule` hook of the script at `at`; one no longer loaded only lowers the
      bound. */
  datatype Scheduled = Scheduled(at: nat, due: Time)

  function Schedule(timing: Timing, call: Scheduled): Timing {
    Timing(if call.at < |timing.scripts| then timing.scripts[call.at := timing.scripts[call.at].(next := call.due)]
           else timing.scripts,
           Earlier(timing.earliest, call.due))
  }

  function ScheduleAll(timing: Timing, calls: seq<Scheduled>): Timing
    decreases |calls|
  {
    if calls == [] then timing else ScheduleAll(Schedule(timing, calls[0]), calls[1..])
  }

  /** What one script's due timers do when run: any calls of any script's hook, an error,
      and whether the operation must stop after it. */
  datatype Visit = Visit(calls: seq<Scheduled>, error: Option<string>, stop: bool)

  /** The k-th visit of an operation, in whatever order visits are made. */
  type Visits = nat -> Visit

  datatype Progress = Progress(timing: Timing, visited: seq<nat>, error: Option<string>, stopped: bool)

  function VisitScript(progress: Progress, at: nat, visits: Visits): Progress {
    var visit := visits(|progress.visited|);
    Progress(ScheduleAll(progress.timing, visit.calls), progress.visited + [at],
             if progress.error.Some? then progress.error else visit.error, visit.stop)
  }

  function IsDue(timing: Timing, at: nat, now: Time): bool
    requires at < |timing.scripts|
  {
    NotAfter(timing.scripts[at].next, now)
  }

  /** One script after another in load order, until one must stop the operation. */
  function OneByOne(progress: Progress, now: Time, at: nat, visits: Visits): Progress
    decreases |progress.timing.scripts| - at
  {
    if at >= |progress.timing.scripts| || progress.stopped then progress
    else if !IsDue(progress.timing, at, now) then OneByOne(progress, now, at + 1, visits)
    else
      SameScripts(progress.timing, visits(|progress.visited|).calls);
      OneByOne(VisitScript(progress, at, visits), now, at + 1, visits)
  }

  lemma {:induction false} SameScripts(timing: Timing, calls: seq<Scheduled>)
    ensures |ScheduleAll(timing, calls).scripts| == |timing.scripts|
    ensures forall i | 0 <= i < |timing.scripts| ::
      ScheduleAll(timing, calls).scripts[i].context == timing.scripts[i].context
    decreases |calls|
  {
    if calls != [] { SameScripts(Schedule(timing, calls[0]), calls[1..]); }
  }

  function MinNext(scripts: seq<Script>): Time {
    if scripts == [] then Never else Earlier(MinNext(scripts[..|scripts| - 1]), scripts[|scripts| - 1].next)
  }

  /** No loaded script wants to run before the bound. */
  predicate Bounded(timing: Timing) {
    forall script | script in timing.scripts :: NotAfter(timing.earliest, script.next)
  }

  // -------------------------------------------------------------------- the engine

  class TimerEngine {
    var scripts: seq<Script>
    var earliest: Time

    constructor ()
      ensures View() == Timing([], Never)
    {
      scripts, earliest := [], Never;
    }

    ghost function View(): Timing
      reads this
    {
      Timing(scripts, earliest)
    }

    method Hook(call: Scheduled)
      modifies this
      ensures View() == Schedule(old(View()), call)
    {
      if call.at < |scripts| {
        scripts := scripts[call.at := scripts[call.at].(next := call.due)];
      }
      if Before(call.due, earliest) {
        earliest := call.due;
      }
    }

    method RunDueTimers(visit: Visit)
      modifies this
      ensures View() == ScheduleAll(old(View()), visit.calls)
    {
      ghost var all := ScheduleAll(View(), visit.calls);
      assert visit.calls[0..] == visit.calls;
      for i := 0 to |visit.calls|
        invariant ScheduleAll(View(), visit.calls[i..]) == all
      {
        assert visit.calls[i..][1..] == visit.calls[i + 1..];
        Hook(visit.calls[i]);
      }
    }

    /** Moves the clock to `now` and fires what is due: exactly what a loop over every
        script would do. */
    method Advance(now: Time, visits: Visits) returns (visited: seq<nat>, error: Option<string>)
      requires Bounded(View())
      modifies this
      ensures Bounded(View())
      ensures var all := OneByOne(Progress(old(View()), [], None, false), now, 0, visits);
        visited == all.visited && error == all.error && scripts == all.timing.scripts
      ensures earliest == old(earliest) || earliest == MinNext(scripts)
    {
      if Before(now, earliest) {
        NoneDue(Progress(View(), [], None, false), now, 0, visits);
        return [], None;
      }
      visited, error := VisitContexts(now, visits);
      earliest := EarliestNext();
      MinNextBounds(scripts);
    }

    /** A run of neighbours with one context costs one visit, and none while nothing in it is
        due. */
    method VisitContexts(now: Time, visits: Visits) returns (visited: seq<nat>, error: Option<string>)
      modifies this
      ensures Progress(View(), visited, error, Stopped(old(View()), now, visits))
           == OneByOne(Progress(old(View()), [], None, false), now, 0, visits)
    {
      visited, error := [], None;
      var start, stopped := 0, false;
      ghost var all := OneByOne(Progress(View(), [], None, false), now, 0, visits);
      while start < |scripts| && !stopped
        invariant start <= |scripts|
        invariant OneByOne(Progress(View(), visited, error, stopped), now, start, visits) == all
        decreases |scripts| - start, !stopped
      {
        var end := start + 1;
        while end < |scripts| && scripts[end].context == scripts[start].context
          invariant start < end <= |scripts|
        {
          end := end + 1;
        }
        var anyDue := AnyDue(start, end, now);
        if anyDue {
          visited, error, stopped := VisitContext(start, end, now, visits, visited, error);
        } else {
          SkipNotDue(Progress(View(), visited, error, stopped), now, start, end, visits);
        }
        start := end;
      }
    }

    ghost function Stopped(before: Timing, now: Time, visits: Visits): bool {
      OneByOne(Progress(before, [], None, false), now, 0, visits).stopped
    }

    method AnyDue(start: nat, end: nat, now: Time) returns (any: bool)
      requires start <= end <= |scripts|
      ensures any <==> exists i | start <= i < end :: IsDue(View(), i, now)
    {
      any := false;
      for i := start to end
        invariant any <==> exists k | start <= k < i :: IsDue(View(), k, now)
      {
        assert IsDue(View(), i, now) == NotAfter(scripts[i].next, now);
        any := any || NotAfter(scripts[i].next, now);
      }
    }

    method VisitContext(start: nat, end: nat, now: Time, visits: Visits, before: seq<nat>, failure: Option<string>)
      returns (visited: seq<nat>, error: Option<string>, stopped: bool)
      requires start < end <= |scripts|
      modifies this
      ensures |scripts| == |old(scripts)|
      ensures OneByOne(Progress(View(), visited, error, stopped), now, end, visits)
           == OneByOne(Progress(old(View()), before, failure, false), now, start, visits)
    {
      visited, error, stopped := before, failure, false;
      ghost var all := OneByOne(Progress(View(), before, failure, false), now, start, visits);
      var i := start;
      while i < end && !stopped
        invariant start <= i <= end && |scripts| == |old(scripts)|
        invariant OneByOne(Progress(View(), visited, error, stopped), now, i, visits) == all
        decreases end - i, !stopped
      {
        if NotAfter(scripts[i].next, now) {
          SameScripts(View(), visits(|visited|).calls);
          var visit := visits(|visited|);
          RunDueTimers(visit);
          visited := visited + [i];
          error := if error.Some? then error else visit.error;
          stopped := visit.stop;
        }
        i := i + 1;
      }
    }

    method EarliestNext() returns (due: Time)
      ensures due == MinNext(scripts)
    {
      due := Never;
      for i := 0 to |scripts|
        invariant due == MinNext(scripts[..i])
      {
        assert scripts[..i + 1][..i] == scripts[..i];
        due := Earlier(due, scripts[i].next);
      }
      assert scripts[..|scripts|] == scripts;
    }
  }

  // ------------------------------------------------------------------------- lemmas

  lemma {:induction false} SkipNotDue(progress: Progress, now: Time, from: nat, to: nat, visits: Visits)
    requires from <= to <= |progress.timing.scripts|
    requires forall i | from <= i < to :: !IsDue(progress.timing, i, now)
    ensures OneByOne(progress, now, from, visits) == OneByOne(progress, now, to, visits)
    decreases |progress.timing.scripts| - from
  {
    if from < to { SkipNotDue(progress, now, from + 1, to, visits); }
  }

  /** Before the bound nothing is due, so a loop over the scripts would do nothing. */
  lemma NoneDue(progress: Progress, now: Time, at: nat, visits: Visits)
    requires Bounded(progress.timing) && Before(now, progress.timing.earliest) && at <= |progress.timing.scripts|
    ensures OneByOne(progress, now, at, visits) == progress
  {
    var scripts := progress.timing.scripts;
    forall i | at <= i < |scripts| ensures !IsDue(progress.timing, i, now) {
      assert scripts[i] in scripts;
    }
    SkipNotDue(progress, now, at, |scripts|, visits);
  }

  lemma {:induction false} MinNextBounds(scripts: seq<Script>)
    ensures forall script | script in scripts :: NotAfter(MinNext(scripts), script.next)
    decreases |scripts|
  {
    if scripts != [] {
      MinNextBounds(scripts[..|scripts| - 1]);
      assert scripts == scripts[..|scripts| - 1] + [scripts[|scripts| - 1]];
    }
  }

  // ------------------------------------------------------------ over whole histories

  /** An operation of the engine: a script loads, after any scheduling while it mounts; a
      reload swaps one in place; one unloads; scripts run for some other reason; the clock
      moves, possibly stopped part way. */
  datatype Operation =
    | Load(script: Script, calls: seq<Scheduled>)
    | Reload(at: nat, script: Script, calls: seq<Scheduled>)
    | Unload(at: nat)
    | Scripts(calls: seq<Scheduled>)
    | Advance(now: Time, visits: Visits)

  /** A script being mounted schedules through its own hook, which lowers the bound. */
  function Mounting(timing: Timing, script: Script, calls: seq<Scheduled>): Timing {
    var after := ScheduleAll(timing, calls);
    after.(earliest := Earlier(after.earliest, script.next))
  }

  function Perform(timing: Timing, operation: Operation): Timing {
    match operation
    case Load(script, calls) =>
      var mounted := Mounting(timing, script, calls);
      mounted.(scripts := mounted.scripts + [script])
    case Reload(at, script, calls) =>
      var mounted := Mounting(timing, script, calls);
      if at < |mounted.scripts| then mounted.(scripts := mounted.scripts[at := script]) else mounted
    case Unload(at) =>
      if at < |timing.scripts| then timing.(scripts := timing.scripts[..at] + timing.scripts[at + 1..]) else timing
    case Scripts(calls) => ScheduleAll(timing, calls)
    case Advance(now, visits) =>
      if Before(now, timing.earliest) then timing
      else
        var all := OneByOne(Progress(timing, [], None, false), now, 0, visits);
        all.timing.(earliest := MinNext(all.timing.scripts))
  }

  lemma {:induction false} ScheduleStaysBounded(timing: Timing, calls: seq<Scheduled>)
    requires Bounded(timing)
    ensures Bounded(ScheduleAll(timing, calls)) && NotAfter(ScheduleAll(timing, calls).earliest, timing.earliest)
    decreases |calls|
  {
    if calls != [] {
      var after := Schedule(timing, calls[0]);
      forall script | script in after.scripts ensures NotAfter(after.earliest, script.next) {
        var i :| 0 <= i < |after.scripts| && after.scripts[i] == script;
        if i != calls[0].at { assert timing.scripts[i] in timing.scripts; }
      }
      ScheduleStaysBounded(after, calls[1..]);
    }
  }

  lemma PerformStaysBounded(timing: Timing, operation: Operation)
    requires Bounded(timing)
    ensures Bounded(Perform(timing, operation))
  {
    match operation
    case Load(script, calls) =>
      ScheduleStaysBounded(timing, calls);
    case Reload(at, script, calls) =>
      ScheduleStaysBounded(timing, calls);
      var mounted := Mounting(timing, script, calls);
      var after := Perform(timing, operation);
      forall other | other in after.scripts ensures NotAfter(after.earliest, other.next) {
        var i :| 0 <= i < |after.scripts| && after.scripts[i] == other;
        if i != at { assert mounted.scripts[i] in mounted.scripts; }
      }
    case Unload(at) =>
    case Scripts(calls) =>
      ScheduleStaysBounded(timing, calls);
    case Advance(now, visits) =>
      MinNextBounds(OneByOne(Progress(timing, [], None, false), now, 0, visits).timing.scripts);
  }

  function After(operations: seq<Operation>): Timing {
    if operations == [] then Timing([], Never)
    else Perform(After(operations[..|operations| - 1]), operations[|operations| - 1])
  }

  /** After any history the engine's bound holds, so moving the clock visits exactly the
      scripts a loop over all of them would, in load order. */
  lemma {:induction false} HistoryStaysBounded(operations: seq<Operation>, now: Time, visits: Visits)
    ensures Bounded(After(operations))
    ensures var timing := After(operations);
      Before(now, timing.earliest) ==>
        OneByOne(Progress(timing, [], None, false), now, 0, visits) == Progress(timing, [], None, false)
    decreases |operations|
  {
    if operations != [] {
      HistoryStaysBounded(operations[..|operations| - 1], now, visits);
      PerformStaysBounded(After(operations[..|operations| - 1]), operations[|operations| - 1]);
    }
    var timing := After(operations);
    if Before(now, timing.earliest) {
      NoneDue(Progress(timing, [], None, false), now, 0, visits);
    }
  }
}
