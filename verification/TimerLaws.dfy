/** What holds of a script's timers in every state, and which timers a run fires. */
module TimerLaws {
  import opened Wrappers
  import opened Times
  import opened TimerModel

  // ------------------------------------------------------------------ in all states

  predicate IdsIncrease(live: seq<Timer>) {
    forall i, j | 0 <= i < j < |live| :: live[i].id < live[j].id
  }

  /** No live timer is due before the engine was told to come. */
  predicate Bounds(earliest: Time, live: seq<Timer>) {
    forall timer | timer in live && !timer.cancelled :: NotAfter(earliest, timer.due)
  }

  predicate Consistent(timers: Timers) {
    && timers.nextId >= 1 && IdsIncrease(timers.live)
    && (forall timer | timer in timers.live :: timer.id < timers.nextId
          && (timer.interval.Some? ==> NotAfter(At(0.0), timer.interval.value)))
    && timers.finished == Cancelled(timers.live)
    && Bounds(timers.earliest, timers.live)
  }

  lemma {:induction false} MinDueBounds(live: seq<Timer>)
    ensures Bounds(MinDue(live), live)
    ensures MinDue(live).At? ==> exists timer | timer in live :: !timer.cancelled && timer.due == MinDue(live)
    decreases |live|
  {
    if live != [] {
      var rest, last := live[..|live| - 1], live[|live| - 1];
      MinDueBounds(rest);
      assert forall timer | timer in live :: timer in rest || timer == last;
      assert last in live && forall timer | timer in rest :: timer in live;
    }
  }

  lemma {:induction false} CancelledOne(live: seq<Timer>, at: nat, timer: Timer)
    requires at < |live|
    ensures Cancelled(live[at := timer]) ==
      Cancelled(live) - (if live[at].cancelled then 1 else 0) + if timer.cancelled then 1 else 0
    decreases |live|
  {
    var rest := live[..|live| - 1];
    if at == |live| - 1 {
      assert live[at := timer][..|live| - 1] == rest;
    } else {
      assert live[at := timer][..|live| - 1] == rest[at := timer];
      CancelledOne(rest, at, timer);
    }
  }

  lemma {:induction false} KeptHolds(live: seq<Timer>)
    ensures forall timer :: timer in Kept(live) <==> timer in live && !timer.cancelled
    decreases |live|
  {
    if live != [] {
      var rest, last := live[..|live| - 1], live[|live| - 1];
      KeptHolds(rest);
      assert live == rest + [last];
    }
  }

  lemma {:induction false} KeptIncreases(live: seq<Timer>)
    requires IdsIncrease(live)
    ensures IdsIncrease(Kept(live))
    decreases |live|
  {
    if live != [] {
      var rest, last := live[..|live| - 1], live[|live| - 1];
      KeptIncreases(rest);
      KeptHolds(rest);
      forall i | 0 <= i < |Kept(rest)| ensures Kept(rest)[i].id < last.id {
        var j :| 0 <= j < |rest| && rest[j] == Kept(rest)[i];
        assert live[j].id < live[|live| - 1].id;
      }
    }
  }

  lemma {:induction false} NoneCancelled(live: seq<Timer>)
    requires forall timer | timer in live :: !timer.cancelled
    ensures Cancelled(live) == 0
    decreases |live|
  {
    if live != [] { NoneCancelled(live[..|live| - 1]); }
  }

  lemma AddStays(timers: Timers, now: real, delay: Delay, repeats: bool)
    requires Consistent(timers)
    ensures Consistent(Add(timers, now, delay, repeats))
  {
    var after := Add(timers, now, delay, repeats);
    var added := after.live[|timers.live|];
    assert after.live == timers.live + [added] && after.live[..|timers.live|] == timers.live;
    assert Cancelled(after.live) == Cancelled(timers.live);
    forall i, j | 0 <= i < j < |after.live| ensures after.live[i].id < after.live[j].id {
      if j == |timers.live| { assert timers.live[i] in timers.live; }
    }
    forall timer | timer in after.live ensures timer in timers.live || timer == added {}
    assert NotAfter(after.earliest, timers.earliest) && NotAfter(after.earliest, added.due);
    assert added.interval.Some? ==> NotAfter(At(0.0), added.interval.value);
  }

  lemma ReplaceStays(timers: Timers, at: nat, timer: Timer)
    requires Consistent(timers) && at < |timers.live| && !timers.live[at].cancelled
    requires timer.id == timers.live[at].id && timer.interval == timers.live[at].interval
    requires timer.cancelled || NotAfter(timers.earliest, timer.due)
    ensures Consistent(timers.(live := timers.live[at := timer],
                               finished := timers.finished + if timer.cancelled then 1 else 0))
  {
    CancelledOne(timers.live, at, timer);
    var live := timers.live[at := timer];
    forall t | t in live ensures t == timer || t in timers.live {
      var i :| 0 <= i < |live| && live[i] == t;
      if i != at { assert timers.live[i] == t; }
    }
    assert timers.live[at] in timers.live;
  }

  lemma ClearStays(timers: Timers, id: nat)
    requires Consistent(timers)
    ensures Consistent(Clear(timers, id))
  {
    var found := IndexOf(timers.live, id);
    if found.Some? {
      ReplaceStays(timers, found.value, timers.live[found.value].(cancelled := true));
      MinDueBounds(Retire(timers, found.value).live);
    }
  }

  lemma BeginStays(timers: Timers, at: nat)
    requires Consistent(timers) && at < |timers.live| && !timers.live[at].cancelled
    ensures Consistent(Begin(timers, at))
  {
    var timer := timers.live[at];
    assert timer in timers.live;
    if timer.interval.None? {
      ReplaceStays(timers, at, timer.(cancelled := true));
    } else {
      ReplaceStays(timers, at, timer.(due := Plus(timer.due, timer.interval.value)));
    }
  }

  lemma SweepStays(timers: Timers)
    requires Consistent(timers)
    ensures Consistent(Reschedule(timers)) && Consistent(Sweep(timers)) && Consistent(Reschedule(Sweep(timers)))
    ensures Sweep(timers).finished == 0
  {
    KeptHolds(timers.live);
    KeptIncreases(timers.live);
    NoneCancelled(Kept(timers.live));
    MinDueBounds(timers.live);
    MinDueBounds(Sweep(timers).live);
  }

  lemma {:induction false} PerformStays(timers: Timers, now: real, ops: seq<Op>)
    requires Consistent(timers)
    ensures Consistent(Perform(timers, now, ops)) && Perform(timers, now, ops).nextId >= timers.nextId
    decreases |ops|
  {
    if ops != [] {
      match ops[0] {
        case AddTimer(delay, repeats) => AddStays(timers, now, delay, repeats);
        case ClearTimer(id) => ClearStays(timers, id);
      }
      PerformStays(PerformOne(timers, now, ops[0]), now, ops[1..]);
    }
  }

  lemma FireStays(run: Run, now: real, id: nat, script: Script)
    requires Consistent(run.timers)
    ensures Consistent(Fire(run, now, id, script).timers)
    ensures Fire(run, now, id, script).timers.nextId >= run.timers.nextId
  {
    var found := IndexOf(run.timers.live, id);
    if found.Some? {
      BeginStays(run.timers, found.value);
      PerformStays(Begin(run.timers, found.value), now, script(|run.fired|).ops);
    }
  }

  lemma {:induction false} FireAllStays(run: Run, now: real, order: seq<nat>, script: Script)
    requires Consistent(run.timers)
    ensures Consistent(FireAll(run, now, order, script).timers)
    decreases |order|
  {
    if order != [] && !run.interrupted {
      FireStays(run, now, order[0], script);
      FireAllStays(Fire(run, now, order[0], script), now, order[1..], script);
    }
  }

  /** A run keeps the timers consistent, interrupted or not; one that completes leaves
      nothing to sweep where it fired, and tells the engine the exact next due time. */
  lemma RunStays(timers: Timers, time: real, script: Script)
    requires Consistent(timers)
    ensures var run := RunTimers(timers, time, script);
      && Consistent(run.timers)
      && (!run.interrupted ==> run.timers.earliest == MinDue(run.timers.live))
      && (!run.interrupted && run.fired != [] ==> run.timers.finished == 0)
  {
    var due := Due(timers.live, time);
    SweepStays(timers);
    if due != [] {
      var order := Ids(Sorted(due));
      FireAllStays(Run(timers, [], None, false), time, order, script);
      SweepStays(FireAll(Run(timers, [], None, false), time, order, script).timers);
    }
  }

  // ------------------------------------------------------------- what becomes of one

  /** The timer `id`, unless it was cleared or is over. */
  function Find(live: seq<Timer>, id: nat): Option<Timer> {
    var found := IndexOf(live, id);
    if found.Some? then Some(live[found.value]) else None
  }

  lemma {:induction false} IndexOfNone(live: seq<Timer>, id: nat)
    ensures IndexOf(live, id).None? <==> forall timer | timer in live :: timer.id != id || timer.cancelled
    decreases |live|
  {
    if live != [] {
      IndexOfNone(live[..|live| - 1], id);
      assert live == live[..|live| - 1] + [live[|live| - 1]];
    }
  }

  lemma FindIs(live: seq<Timer>, at: nat)
    requires IdsIncrease(live) && at < |live|
    ensures Find(live, live[at].id) == if live[at].cancelled then None else Some(live[at])
    ensures !live[at].cancelled ==> IndexOf(live, live[at].id) == Some(at)
  {
    assert live[at] in live;
    IndexOfNone(live, live[at].id);
  }

  lemma FindNone(live: seq<Timer>, id: nat)
    requires forall timer | timer in live :: timer.id != id || timer.cancelled
    ensures Find(live, id) == None
  {
    IndexOfNone(live, id);
  }

  lemma FindReplaced(live: seq<Timer>, at: nat, timer: Timer, id: nat)
    requires IdsIncrease(live) && at < |live| && timer.id == live[at].id
    ensures Find(live[at := timer], id) ==
      if id != timer.id then Find(live, id) else if timer.cancelled then None else Some(timer)
  {
    var after := live[at := timer];
    if id == timer.id {
      FindIs(after, at);
    } else {
      var found := IndexOf(live, id);
      IndexOfNone(live, id);
      if found.Some? {
        assert after[found.value] == live[found.value];
        FindIs(after, found.value);
      } else {
        forall t | t in after ensures t.id != id || t.cancelled {
          var i :| 0 <= i < |after| && after[i] == t;
          if i != at { assert live[i] in live; }
        }
        FindNone(after, id);
      }
    }
  }

  lemma FindAdded(timers: Timers, now: real, delay: Delay, repeats: bool, id: nat)
    requires id < timers.nextId
    ensures Find(Add(timers, now, delay, repeats).live, id) == Find(timers.live, id)
  {
    var after := Add(timers, now, delay, repeats).live;
    assert after[..|timers.live|] == timers.live;
  }

  lemma FindCleared(timers: Timers, cleared: nat, id: nat)
    requires IdsIncrease(timers.live)
    ensures Find(Clear(timers, cleared).live, id) == if id == cleared then None else Find(timers.live, id)
  {
    var found := IndexOf(timers.live, cleared);
    if found.Some? {
      FindReplaced(timers.live, found.value, timers.live[found.value].(cancelled := true), id);
    }
  }

  lemma FindKept(live: seq<Timer>, id: nat)
    requires IdsIncrease(live)
    ensures Find(Kept(live), id) == Find(live, id)
  {
    KeptHolds(live);
    KeptIncreases(live);
    var found := IndexOf(live, id);
    IndexOfNone(live, id);
    if found.Some? {
      assert live[found.value] in live;
      var i :| 0 <= i < |Kept(live)| && Kept(live)[i] == live[found.value];
      FindIs(Kept(live), i);
    } else {
      FindNone(Kept(live), id);
    }
  }
}
