/** Which timers a run fires, and what it leaves of the others
    (assets/context_prelude.js). */
module TimerRuns {
  import opened Wrappers
  import opened Times
  import opened TimerModel
  import opened TimerLaws

  // ----------------------------------------------------------- the reference meaning

  function Clears(ops: seq<Op>): set<nat> {
    set op | op in ops && op.ClearTimer? :: op.id
  }

  /** What the callbacks of runs `from` to `to` clear. */
  function ClearedBy(script: Script, from: nat, to: nat): set<nat>
    decreases to - from
  {
    if to <= from then {} else Clears(script(from).ops) + ClearedBy(script, from + 1, to)
  }

  /** The timers of `order` that fire: in order, but for those cleared before their turn,
      up to one that is interrupted. */
  function Firing(order: seq<nat>, cleared: set<nat>, script: Script, k: nat): seq<nat>
    decreases |order|
  {
    if order == [] then []
    else if order[0] in cleared then Firing(order[1..], cleared, script, k)
    else
      [order[0]] + if script(k).ending.Interrupted? then []
                   else Firing(order[1..], cleared + Clears(script(k).ops), script, k + 1)
  }

  /** A timer that fired: gone, or due one interval later. */
  function Fired(timer: Timer): Option<Timer> {
    if timer.interval.None? then None else Some(timer.(due := Plus(timer.due, timer.interval.value)))
  }

  // ------------------------------------------------------------------- due and sorted

  predicate InOrder(timers: seq<Timer>) {
    forall i, j | 0 <= i < j < |timers| :: Precedes(timers[i], timers[j])
  }

  lemma PrependKeepsOrder(first: Timer, rest: seq<Timer>)
    requires InOrder(rest) && forall other | other in rest :: Precedes(first, other)
    ensures InOrder([first] + rest)
  {
    var all := [first] + rest;
    forall i, j | 0 <= i < j < |all| ensures Precedes(all[i], all[j]) {
      assert all[j] == rest[j - 1] && rest[j - 1] in rest;
      assert i > 0 ==> all[i] == rest[i - 1];
    }
  }

  lemma {:induction false} InsertKeepsOrder(timer: Timer, sorted: seq<Timer>)
    requires InOrder(sorted) && forall other | other in sorted :: other.id != timer.id
    ensures InOrder(InsertSorted(timer, sorted))
    ensures multiset(InsertSorted(timer, sorted)) == multiset(sorted) + multiset{timer}
    decreases |sorted|
  {
    if sorted == [] || Precedes(timer, sorted[0]) {
      PrependKeepsOrder(timer, sorted);
    } else {
      var rest := sorted[1..];
      assert sorted == [sorted[0]] + rest;
      InsertKeepsOrder(timer, rest);
      var inserted := InsertSorted(timer, rest);
      assert sorted[0] in sorted;
      forall other | other in inserted ensures Precedes(sorted[0], other) {
        assert other in multiset(inserted);
        if other != timer {
          var i :| 0 <= i < |rest| && rest[i] == other;
          assert Precedes(sorted[0], sorted[i + 1]);
        }
      }
      PrependKeepsOrder(sorted[0], inserted);
    }
  }

  lemma {:induction false} SortedIsInOrder(timers: seq<Timer>)
    requires IdsIncrease(timers)
    ensures InOrder(Sorted(timers)) && multiset(Sorted(timers)) == multiset(timers)
    decreases |timers|
  {
    if timers != [] {
      var rest, last := timers[..|timers| - 1], timers[|timers| - 1];
      assert timers == rest + [last];
      SortedIsInOrder(rest);
      forall other | other in Sorted(rest) ensures other.id != last.id {
        assert other in multiset(rest);
        var i :| 0 <= i < |rest| && rest[i] == other;
        assert timers[i].id < timers[|timers| - 1].id;
      }
      InsertKeepsOrder(last, Sorted(rest));
    }
  }

  predicate IsDue(timer: Timer, time: real) { !timer.cancelled && NotAfter(timer.due, At(time)) }

  lemma {:induction false} DueHolds(live: seq<Timer>, time: real)
    requires IdsIncrease(live)
    ensures IdsIncrease(Due(live, time))
    ensures forall timer :: timer in Due(live, time) <==> timer in live && IsDue(timer, time)
    decreases |live|
  {
    if live != [] {
      var rest, last := live[..|live| - 1], live[|live| - 1];
      DueHolds(rest, time);
      assert live == rest + [last];
      var due := Due(rest, time);
      forall i | 0 <= i < |due| ensures due[i].id < last.id {
        assert due[i] in due;
        var j :| 0 <= j < |rest| && rest[j] == due[i];
        assert live[j].id < live[|live| - 1].id;
      }
    }
  }

  /** A run considers exactly the timers live and due at entry, each once, by due time and
      then by creation. */
  lemma RunOrder(timers: Timers, time: real) returns (order: seq<Timer>)
    requires Consistent(timers)
    ensures order == Sorted(Due(timers.live, time))
    ensures InOrder(order)
    ensures forall timer :: timer in order <==> timer in timers.live && IsDue(timer, time)
    ensures forall i, j | 0 <= i < j < |order| :: order[i].id != order[j].id
  {
    order := Sorted(Due(timers.live, time));
    DueHolds(timers.live, time);
    SortedIsInOrder(Due(timers.live, time));
    SameElements(order, Due(timers.live, time));
    forall i, j | 0 <= i < j < |order| ensures order[i].id != order[j].id {
      assert Precedes(order[i], order[j]);
      SameId(timers.live, order[i], order[j]);
    }
  }

  lemma SameElements(some: seq<Timer>, others: seq<Timer>)
    requires multiset(some) == multiset(others)
    ensures forall timer :: timer in some <==> timer in others
  {
    forall timer ensures timer in some <==> timer in others {
      assert timer in some <==> timer in multiset(some);
      assert timer in others <==> timer in multiset(others);
    }
  }

  lemma SameId(live: seq<Timer>, a: Timer, b: Timer)
    requires IdsIncrease(live) && a in live && b in live && a != b
    ensures a.id != b.id
  {}

  // --------------------------------------------------------------------- one callback

  lemma FindPerformedOne(timers: Timers, now: real, op: Op, id: nat)
    requires Consistent(timers) && id < timers.nextId
    ensures var after := PerformOne(timers, now, op);
      && Consistent(after) && timers.nextId <= after.nextId
      && Find(after.live, id) == if op == ClearTimer(id) then None else Find(timers.live, id)
  {
    match op
    case AddTimer(delay, repeats) =>
      AddStays(timers, now, delay, repeats);
      FindAdded(timers, now, delay, repeats, id);
    case ClearTimer(cleared) =>
      ClearStays(timers, cleared);
      FindCleared(timers, cleared, id);
  }

  lemma {:induction false} FindPerformed(timers: Timers, now: real, ops: seq<Op>, id: nat)
    requires Consistent(timers) && id < timers.nextId
    ensures Find(Perform(timers, now, ops).live, id) == if id in Clears(ops) then None else Find(timers.live, id)
    decreases |ops|
  {
    if ops != [] {
      var rest := ops[1..];
      FindPerformedOne(timers, now, ops[0], id);
      FindPerformed(PerformOne(timers, now, ops[0]), now, rest, id);
      ClearsMore(ops[0], rest);
      assert ops == [ops[0]] + rest;
    }
  }

  lemma ClearsMore(op: Op, rest: seq<Op>)
    ensures Clears([op] + rest) == Clears(rest) + if op.ClearTimer? then {op.id} else {}
  {
    assert forall other :: other in [op] + rest <==> other == op || other in rest;
  }

  lemma FindFired(run: Run, now: real, id: nat, script: Script, other: nat)
    requires Consistent(run.timers) && Find(run.timers.live, id).Some? && other < run.timers.nextId
    ensures Find(Fire(run, now, id, script).timers.live, other) ==
      if other in Clears(script(|run.fired|).ops) then None
      else if other == id then Fired(Find(run.timers.live, id).value)
      else Find(run.timers.live, other)
  {
    var at := IndexOf(run.timers.live, id).value;
    var timer := run.timers.live[at];
    BeginStays(run.timers, at);
    if timer.interval.None? {
      FindReplaced(run.timers.live, at, timer.(cancelled := true), other);
    } else {
      FindReplaced(run.timers.live, at, timer.(due := Plus(timer.due, timer.interval.value)), other);
    }
    FindPerformed(Begin(run.timers, at), now, script(|run.fired|).ops, other);
  }

  // ------------------------------------------------------------------------- the run

  predicate DistinctIds(order: seq<nat>) {
    forall i, j | 0 <= i < j < |order| :: order[i] != order[j]
  }

  /** Of the timers waiting their turn, exactly those not in `cleared` are still live. */
  predicate Waiting(timers: Timers, order: seq<nat>, cleared: set<nat>) {
    forall id | id in order :: id < timers.nextId && (Find(timers.live, id).Some? <==> id !in cleared)
  }

  lemma WaitingRest(timers: Timers, order: seq<nat>, cleared: set<nat>)
    requires order != [] && DistinctIds(order) && Waiting(timers, order, cleared)
    ensures DistinctIds(order[1..]) && Waiting(timers, order[1..], cleared)
  {
    assert order == [order[0]] + order[1..];
    forall i, j | 0 <= i < j < |order| - 1 ensures order[1..][i] != order[1..][j] {
      assert order[i + 1] != order[j + 1];
    }
    forall id | id in order[1..] ensures id in order {}
  }

  lemma WaitingStays(run: Run, now: real, order: seq<nat>, cleared: set<nat>, script: Script)
    requires Consistent(run.timers) && order != [] && DistinctIds(order) && Waiting(run.timers, order, cleared)
    requires order[0] !in cleared
    ensures Waiting(Fire(run, now, order[0], script).timers, order[1..], cleared + Clears(script(|run.fired|).ops))
    ensures DistinctIds(order[1..])
  {
    var after := Fire(run, now, order[0], script);
    FireStays(run, now, order[0], script);
    assert order[0] in order;
    forall id | id in order[1..]
      ensures id < after.timers.nextId
      ensures Find(after.timers.live, id).Some? <==> id !in cleared + Clears(script(|run.fired|).ops)
    {
      var i :| 0 <= i < |order| - 1 && order[1..][i] == id;
      assert id == order[i + 1] && order[0] != order[i + 1];
      assert id in order;
      FindFired(run, now, order[0], script, id);
    }
  }

  /** The first timer of the order: skipped if it was cleared, else it fires. */
  lemma FirstFires(run: Run, now: real, order: seq<nat>, cleared: set<nat>, script: Script)
    requires Consistent(run.timers) && !run.interrupted && order != []
    requires Waiting(run.timers, order, cleared)
    ensures var after, k := Fire(run, now, order[0], script), |run.fired|;
      && Consistent(after.timers) && run.timers.nextId <= after.timers.nextId
      && (order[0] in cleared ==> after == run)
      && (order[0] !in cleared ==>
            && Find(run.timers.live, order[0]).Some?
            && after.fired == run.fired + [order[0]]
            && after.interrupted == script(k).ending.Interrupted?)
  {
    assert order[0] in order;
    FireStays(run, now, order[0], script);
  }

  /** `after` is `before` and then what fires of `order` from run `k` on. */
  predicate Fires(before: seq<nat>, after: seq<nat>, order: seq<nat>, cleared: set<nat>, script: Script, k: nat) {
    after == before + Firing(order, cleared, script, k)
  }

  lemma {:induction false} FireAllFires(run: Run, now: real, order: seq<nat>, cleared: set<nat>, script: Script)
    requires Consistent(run.timers) && !run.interrupted && DistinctIds(order)
    requires Waiting(run.timers, order, cleared)
    ensures Fires(run.fired, FireAll(run, now, order, script).fired, order, cleared, script, |run.fired|)
    decreases |order|
  {
    if order == [] { return; }
    var after, k, more := Fire(run, now, order[0], script), |run.fired|, cleared + Clears(script(|run.fired|).ops);
    FirstFires(run, now, order, cleared, script);
    var fired := FireAll(run, now, order, script).fired;
    assert FireAll(run, now, order, script) == FireAll(after, now, order[1..], script);
    if order[0] in cleared {
      WaitingRest(run.timers, order, cleared);
      FireAllFires(run, now, order[1..], cleared, script);
    } else {
      WaitingStays(run, now, order, cleared, script);
      if !after.interrupted {
        FireAllFires(after, now, order[1..], more, script);
      }
    }
    FiresOnward(run.fired, fired, order, cleared, script, k);
  }

  lemma FiresOnward(before: seq<nat>, after: seq<nat>, order: seq<nat>, cleared: set<nat>, script: Script, k: nat)
    requires order != []
    requires if order[0] in cleared then Fires(before, after, order[1..], cleared, script, k)
             else if script(k).ending.Interrupted? then after == before + [order[0]]
             else Fires(before + [order[0]], after, order[1..], cleared + Clears(script(k).ops), script, k + 1)
    ensures Fires(before, after, order, cleared, script, k)
  {}

  /** What a run leaves of a timer that existed before it. */
  function Left(timer: Option<Timer>, id: nat, fired: seq<nat>, cleared: set<nat>): Option<Timer> {
    if id in cleared || timer.None? then None
    else if id in fired then Fired(timer.value)
    else timer
  }

  /** `after` is what firing `order` from run `k` on leaves of `before`. */
  predicate Leaves(
      before: Option<Timer>, after: Option<Timer>, id: nat, order: seq<nat>, cleared: set<nat>, script: Script, k: nat)
  {
    var fired := Firing(order, cleared, script, k);
    after == Left(before, id, fired, ClearedBy(script, k, k + |fired|))
  }

  lemma {:induction false} FireAllLeaves(run: Run, now: real, order: seq<nat>, cleared: set<nat>, script: Script, id: nat)
    requires Consistent(run.timers) && !run.interrupted && DistinctIds(order)
    requires Waiting(run.timers, order, cleared) && id < run.timers.nextId
    ensures Leaves(Find(run.timers.live, id), Find(FireAll(run, now, order, script).timers.live, id),
                   id, order, cleared, script, |run.fired|)
    decreases |order|
  {
    if order == [] { return; }
    var after, k, more := Fire(run, now, order[0], script), |run.fired|, cleared + Clears(script(|run.fired|).ops);
    FirstFires(run, now, order, cleared, script);
    var first, last := Find(run.timers.live, id), Find(FireAll(run, now, order, script).timers.live, id);
    assert FireAll(run, now, order, script) == FireAll(after, now, order[1..], script);
    if order[0] in cleared {
      WaitingRest(run.timers, order, cleared);
      FireAllLeaves(run, now, order[1..], cleared, script, id);
      LeavesSkipping(first, last, id, order, cleared, script, k);
      return;
    }
    WaitingStays(run, now, order, cleared, script);
    FirstLeaves(run, now, order[0], script, id);
    if !after.interrupted {
      FireAllLeaves(after, now, order[1..], more, script, id);
    }
    LeavesOnward(first, Find(after.timers.live, id), last, id, order, cleared, script, k);
  }

  lemma LeavesSkipping(
      before: Option<Timer>, after: Option<Timer>, id: nat, order: seq<nat>, cleared: set<nat>, script: Script, k: nat)
    requires order != [] && order[0] in cleared && Leaves(before, after, id, order[1..], cleared, script, k)
    ensures Leaves(before, after, id, order, cleared, script, k)
  {}

  lemma FirstLeaves(run: Run, now: real, fired: nat, script: Script, id: nat)
    requires Consistent(run.timers) && Find(run.timers.live, fired).Some? && id < run.timers.nextId
    ensures Find(Fire(run, now, fired, script).timers.live, id)
            == Left(Find(run.timers.live, id), id, [fired], Clears(script(|run.fired|).ops))
  {
    FindFired(run, now, fired, script, id);
  }

  lemma LeavesOnward(
      before: Option<Timer>, middle: Option<Timer>, after: Option<Timer>, id: nat,
      order: seq<nat>, cleared: set<nat>, script: Script, k: nat)
    requires order != [] && DistinctIds(order) && order[0] !in cleared
    requires middle == Left(before, id, [order[0]], Clears(script(k).ops))
    requires if script(k).ending.Interrupted? then after == middle
             else Leaves(middle, after, id, order[1..], cleared + Clears(script(k).ops), script, k + 1)
    ensures Leaves(before, after, id, order, cleared, script, k)
  {
    var more := cleared + Clears(script(k).ops);
    var rest := if script(k).ending.Interrupted? then [] else Firing(order[1..], more, script, k + 1);
    assert Firing(order, cleared, script, k) == [order[0]] + rest;
    FiringIsFrom(order[1..], more, script, k + 1);
    LeftTwice(before, id, order, rest, script, k);
  }

  /** What the first firing and then the rest leave is what all of them leave. */
  lemma LeftTwice(timer: Option<Timer>, id: nat, order: seq<nat>, rest: seq<nat>, script: Script, k: nat)
    requires order != [] && DistinctIds(order) && forall other | other in rest :: other in order[1..]
    ensures var first := Left(timer, id, [order[0]], Clears(script(k).ops));
      Left(first, id, rest, ClearedBy(script, k + 1, k + 1 + |rest|))
      == Left(timer, id, [order[0]] + rest, ClearedBy(script, k, k + 1 + |rest|))
  {
    forall other | other in rest ensures other != order[0] {
      var i :| 0 <= i < |order| - 1 && order[1..][i] == other;
      assert order[i + 1] == other;
    }
  }

  lemma {:induction false} FiringIsFrom(order: seq<nat>, cleared: set<nat>, script: Script, k: nat)
    ensures forall id | id in Firing(order, cleared, script, k) :: id in order && id !in cleared
    decreases |order|
  {
    if order != [] {
      assert order == [order[0]] + order[1..];
      if order[0] in cleared {
        FiringIsFrom(order[1..], cleared, script, k);
      } else {
        FiringIsFrom(order[1..], cleared + Clears(script(k).ops), script, k + 1);
      }
    }
  }

  lemma {:induction false} FiringIsDistinct(order: seq<nat>, cleared: set<nat>, script: Script, k: nat)
    requires DistinctIds(order)
    ensures DistinctIds(Firing(order, cleared, script, k))
    decreases |order|
  {
    if order != [] {
      RestIsDistinct(order);
      var more := cleared + Clears(script(k).ops);
      if order[0] in cleared {
        FiringIsDistinct(order[1..], cleared, script, k);
      } else {
        FiringIsDistinct(order[1..], more, script, k + 1);
        FiringIsFrom(order[1..], more, script, k + 1);
        var rest := Firing(order[1..], more, script, k + 1);
        assert forall i | 0 <= i < |rest| :: rest[i] in order[1..];
      }
    }
  }

  lemma RestIsDistinct(order: seq<nat>)
    requires order != [] && DistinctIds(order)
    ensures DistinctIds(order[1..]) && order[0] !in order[1..]
  {
    forall i, j | 0 <= i < j < |order| - 1 ensures order[1..][i] != order[1..][j] {
      assert order[i + 1] != order[j + 1];
    }
    forall i | 0 <= i < |order| - 1 ensures order[1..][i] != order[0] {
      assert order[0] != order[i + 1];
    }
  }

  // ------------------------------------------------------------------- main results

  lemma AllWait(timers: Timers, order: seq<Timer>)
    requires Consistent(timers)
    requires forall i, j | 0 <= i < j < |order| :: order[i].id != order[j].id
    requires forall timer | timer in order :: timer in timers.live && !timer.cancelled
    ensures DistinctIds(Ids(order)) && Waiting(timers, Ids(order), {})
  {
    forall id | id in Ids(order) ensures id < timers.nextId && Find(timers.live, id).Some? {
      var i :| 0 <= i < |order| && Ids(order)[i] == id;
      assert order[i] in order;
      var at :| 0 <= at < |timers.live| && timers.live[at] == order[i];
      FindIs(timers.live, at);
    }
  }

  function AllFired(timers: Timers, time: real, script: Script): Run {
    FireAll(Run(timers, [], None, false), time, Ids(Sorted(Due(timers.live, time))), script)
  }

  /** Sweeping and rescheduling change nothing but what is over. */
  lemma RunIsAllFired(timers: Timers, time: real, script: Script, id: nat)
    requires Consistent(timers)
    ensures var run, all := RunTimers(timers, time, script), AllFired(timers, time, script);
      && run.fired == all.fired && run.interrupted == all.interrupted
      && Find(run.timers.live, id) == Find(all.timers.live, id)
  {
    if Due(timers.live, time) != [] {
      var all := AllFired(timers, time, script);
      FireAllStays(Run(timers, [], None, false), time, Ids(Sorted(Due(timers.live, time))), script);
      FindKept(all.timers.live, id);
    }
  }

  /** A run fires the timers live and due at entry, each at most once, by due time and then
      by creation, skipping those a callback cleared before their turn; it fires no timer
      added meanwhile, and stops only where it is interrupted. */
  lemma RunFires(timers: Timers, time: real, script: Script)
    requires Consistent(timers)
    ensures var run, order := RunTimers(timers, time, script), Ids(Sorted(Due(timers.live, time)));
      && run.fired == Firing(order, {}, script, 0)
      && DistinctIds(run.fired) && (forall id | id in run.fired :: id in order)
      && (run.interrupted <==> StopsWithin(script, 0, |run.fired|))
  {
    var considered := RunOrder(timers, time);
    AllWait(timers, considered);
    var order := Ids(considered);
    RunIsAllFired(timers, time, script, 0);
    var start := Run(timers, [], None, false);
    FireAllFires(start, time, order, {}, script);
    FireAllStops(start, time, order, {}, script);
    FiringIsFrom(order, {}, script, 0);
    FiringIsDistinct(order, {}, script, 0);
  }

  predicate Stops(interrupted: bool, order: seq<nat>, cleared: set<nat>, script: Script, k: nat) {
    interrupted <==> StopsWithin(script, k, k + |Firing(order, cleared, script, k)|)
  }

  lemma {:induction false} FireAllStops(run: Run, now: real, order: seq<nat>, cleared: set<nat>, script: Script)
    requires Consistent(run.timers) && !run.interrupted && DistinctIds(order) && Waiting(run.timers, order, cleared)
    ensures Stops(FireAll(run, now, order, script).interrupted, order, cleared, script, |run.fired|)
    decreases |order|
  {
    if order == [] { return; }
    var after, k, more := Fire(run, now, order[0], script), |run.fired|, cleared + Clears(script(|run.fired|).ops);
    FirstFires(run, now, order, cleared, script);
    var interrupted := FireAll(run, now, order, script).interrupted;
    assert FireAll(run, now, order, script) == FireAll(after, now, order[1..], script);
    if order[0] in cleared {
      WaitingRest(run.timers, order, cleared);
      FireAllStops(run, now, order[1..], cleared, script);
    } else {
      WaitingStays(run, now, order, cleared, script);
      if !after.interrupted {
        FireAllStops(after, now, order[1..], more, script);
      }
    }
    StopsOnward(interrupted, order, cleared, script, k);
  }

  lemma StopsOnward(interrupted: bool, order: seq<nat>, cleared: set<nat>, script: Script, k: nat)
    requires order != []
    requires if order[0] in cleared then Stops(interrupted, order[1..], cleared, script, k)
             else if script(k).ending.Interrupted? then interrupted
             else Stops(interrupted, order[1..], cleared + Clears(script(k).ops), script, k + 1)
    ensures Stops(interrupted, order, cleared, script, k)
  {
    if order[0] !in cleared && script(k).ending.Interrupted? {
      assert Firing(order, cleared, script, k) == [order[0]];
      assert StopsWithin(script, k, k + 1);
    }
  }

  predicate StopsWithin(script: Script, from: nat, to: nat) {
    exists k | from <= k < to :: script(k).ending.Interrupted?
  }

  /** What a run leaves of every timer there was: those cleared are gone, those that fired
      are over or due again one interval later, however late they were, and the others are
      untouched. */
  lemma RunLeaves(timers: Timers, time: real, script: Script, id: nat)
    requires Consistent(timers) && id < timers.nextId
    ensures var run := RunTimers(timers, time, script);
      Find(run.timers.live, id) == Left(Find(timers.live, id), id, run.fired, ClearedBy(script, 0, |run.fired|))
  {
    var considered := RunOrder(timers, time);
    AllWait(timers, considered);
    var order := Ids(considered);
    RunIsAllFired(timers, time, script, id);
    RunFires(timers, time, script);
    FireAllLeaves(Run(timers, [], None, false), time, order, {}, script, id);
  }

  /** A timer due at entry that no callback clears fires, unless the run is interrupted. */
  lemma {:induction false} DueFires(order: seq<nat>, cleared: set<nat>, script: Script, k: nat, id: nat)
    requires id in order
    ensures var fired := Firing(order, cleared, script, k);
      id in fired || id in cleared + ClearedBy(script, k, k + |fired|) || StopsWithin(script, k, k + |fired|)
    decreases |order|
  {
    assert order == [order[0]] + order[1..];
    if order[0] in cleared {
      if id != order[0] { DueFires(order[1..], cleared, script, k, id); }
    } else if script(k).ending.Interrupted? {
      assert StopsWithin(script, k, k + 1);
    } else if id != order[0] {
      DueFires(order[1..], cleared + Clears(script(k).ops), script, k + 1, id);
    }
  }

  // ----------------------------------------------------------------- over whole lives

  /** What happens to a script's timers: scripts set and clear some, or a run fires those
      due, interrupted or not. */
  datatype Event = Changes(now: real, ops: seq<Op>) | Runs(time: real, script: Script)

  function After(events: seq<Event>): Timers {
    if events == [] then NO_TIMERS
    else
      match events[|events| - 1]
      case Changes(now, ops) => Perform(After(events[..|events| - 1]), now, ops)
      case Runs(time, script) => RunTimers(After(events[..|events| - 1]), time, script).timers
  }

  /** In every state a script can bring its timers to, ids increase, `finished` counts the
      cancelled and no live timer is due before the engine comes. */
  lemma {:induction false} AlwaysConsistent(events: seq<Event>)
    ensures Consistent(After(events))
    decreases |events|
  {
    if events != [] {
      AlwaysConsistent(events[..|events| - 1]);
      match events[|events| - 1] {
        case Changes(now, ops) => PerformStays(After(events[..|events| - 1]), now, ops);
        case Runs(time, script) => RunStays(After(events[..|events| - 1]), time, script);
      }
    }
  }
}
