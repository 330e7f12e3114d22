/** The timer functions of the context prelude (assets/context_prelude.js): timers shared
    between a list in creation order and a map by id, marked when over and swept in place
    after a run. */
module ScriptTimers {
  import opened Wrappers
  import opened Times
  import opened TimerModel
  import opened TimerLaws

  class LiveTimer {
    const id: nat
    const interval: Option<Time>
    var due: Time
    var cancelled: bool

    constructor (id: nat, due: Time, interval: Option<Time>)
      ensures View() == Timer(id, due, interval, false)
    {
      this.id, this.due, this.interval, cancelled := id, due, interval, false;
    }

    ghost function View(): Timer
      reads this
    {
      Timer(id, due, interval, cancelled)
    }
  }

  ghost function Views(timers: seq<LiveTimer>): (views: seq<Timer>)
    reads timers
    ensures |views| == |timers| && forall i | 0 <= i < |timers| :: views[i] == timers[i].View()
  {
    seq(|timers|, i requires 0 <= i < |timers| reads timers => timers[i].View())
  }

  /** What the turn of timer `id` makes of the timers. */
  function AfterTurn(timers: Timers, id: nat, now: real, callback: Callback): Timers {
    var found := IndexOf(timers.live, id);
    if found.None? then timers else Perform(Begin(timers, found.value), now, callback.ops)
  }

  /** Ids increase along the list. */
  ghost predicate Increasing(timers: seq<LiveTimer>) {
    forall i, j | 0 <= i < j < |timers| :: timers[i].id < timers[j].id
  }

  /** `byId` holds exactly the timers of `live` neither cleared nor over. */
  ghost predicate IndexedBy(live: seq<LiveTimer>, byId: map<nat, LiveTimer>)
    reads live
  {
    && (forall timer | timer in live :: !timer.cancelled ==> timer.id in byId && byId[timer.id] == timer)
    && (forall id | id in byId :: byId[id] in live && byId[id].id == id && !byId[id].cancelled)
  }

  lemma FireIs(run: Run, now: real, id: nat, script: Script)
    ensures var callback := script(|run.fired|);
      TimerModel.Fire(run, now, id, script) ==
        if IndexOf(run.timers.live, id).None? then run
        else Run(AfterTurn(run.timers, id, now, callback), run.fired + [id],
                 if callback.ending.Threw? && run.error.None? then Some(callback.ending.error) else run.error,
                 callback.ending.Interrupted?)
  {}

  lemma FireAllNext(run: Run, now: real, ids: seq<nat>, i: nat, script: Script)
    requires i < |ids| && !run.interrupted
    ensures FireAll(run, now, ids[i..], script)
            == FireAll(TimerModel.Fire(run, now, ids[i], script), now, ids[i + 1..], script)
  {
    assert ids[i..][1..] == ids[i + 1..];
  }

  class ScriptTimers {
    var live: seq<LiveTimer>
    var byId: map<nat, LiveTimer>
    var nextTimerId: nat
    var earliest: Time
    var finished: nat
    // What `schedule` last told the engine.
    var scheduled: Time

    constructor ()
      ensures Valid() && View() == NO_TIMERS
    {
      live, byId, nextTimerId, earliest, finished, scheduled := [], map[], 1, Never, 0, Never;
    }

    ghost function View(): Timers
      reads this, live
    {
      Timers(Views(live), nextTimerId, earliest, finished)
    }

    ghost predicate Ordered()
      reads this`live, this`nextTimerId
    {
      Increasing(live) && forall timer | timer in live :: timer.id < nextTimerId
    }

    ghost predicate Indexed()
      reads this`live, this`byId, live
    {
      IndexedBy(live, byId)
    }

    ghost predicate Valid()
      reads this, live
    {
      Ordered() && Indexed() && scheduled == earliest
    }

    /** Where the spec finds a timer is where the list holds it. */
    lemma Holds(at: nat)
      requires Valid() && at < |live|
      ensures IndexOf(Views(live), live[at].id) == if live[at].cancelled then None else Some(at)
      ensures forall i | 0 <= i < |live| && i != at :: live[i] != live[at]
    {
      assert IdsIncrease(Views(live));
      FindIs(Views(live), at);
    }

    lemma HoldsNot(id: nat)
      requires Valid() && id !in byId
      ensures IndexOf(Views(live), id) == None
    {
      forall timer | timer in Views(live) ensures timer.id != id || timer.cancelled {
        var i :| 0 <= i < |live| && Views(live)[i] == timer;
        assert live[i] in live;
      }
      IndexOfNone(Views(live), id);
    }

    method Reschedule()
      requires Valid()
      modifies this`earliest, this`scheduled
      ensures Valid() && View() == TimerModel.Reschedule(old(View()))
    {
      var due := EarliestLive();
      ComeBackAt(due);
    }

    method ComeBackAt(due: Time)
      modifies this`earliest, this`scheduled
      ensures earliest == due && scheduled == due && Views(live) == old(Views(live))
    {
      earliest := due;
      Schedule(due);
    }

    method Schedule(due: Time)
      modifies this`scheduled
      ensures scheduled == due
    {
      scheduled := due;
    }

    method EarliestLive() returns (due: Time)
      ensures due == MinDue(Views(live))
    {
      due := Never;
      for i := 0 to |live|
        invariant due == MinDue(Views(live)[..i])
      {
        var timer := live[i];
        assert Views(live)[..i + 1][..i] == Views(live)[..i];
        if !timer.cancelled && Before(timer.due, due) {
          due := timer.due;
        }
      }
      assert Views(live)[..|live|] == Views(live);
    }

    method AddTimer(now: real, delay: Delay, repeats: bool) returns (id: nat)
      requires Valid()
      modifies this
      ensures Valid() && View() == Add(old(View()), now, delay, repeats) && id == old(nextTimerId)
      ensures Grown(old(live)) && |live| == |old(live)| + 1
    {
      var wait := Wait(delay);
      id := nextTimerId;
      nextTimerId := nextTimerId + 1;
      var timer := new LiveTimer(id, Plus(At(now), wait), if repeats then Some(wait) else None);
      ghost var added := timer.View();
      assert Views(live) == old(Views(live)) && Indexed();
      Insert(timer);
      assert View() == Timers(old(Views(live)) + [added], id + 1, Earlier(old(earliest), added.due), finished);
    }

    method Insert(timer: LiveTimer)
      requires Ordered() && Indexed() && scheduled == earliest && !timer.cancelled && timer.id == nextTimerId - 1
      requires forall other | other in live :: other.id < timer.id
      modifies this`live, this`byId, this`earliest, this`scheduled
      ensures Valid() && live == old(live) + [timer]
      ensures View() == Timers(old(Views(live)) + [timer.View()], nextTimerId, Earlier(old(earliest), timer.due), finished)
    {
      Enter(timer);
      Lower(timer.due);
    }

    method Lower(due: Time)
      requires scheduled == earliest
      modifies this`earliest, this`scheduled
      ensures earliest == Earlier(old(earliest), due) && scheduled == earliest
      ensures Views(live) == old(Views(live))
    {
      if Before(due, earliest) {
        earliest := due;
        Schedule(due);
      }
    }

    method Enter(timer: LiveTimer)
      requires Ordered() && Indexed() && !timer.cancelled && timer.id == nextTimerId - 1
      requires forall other | other in live :: other.id < timer.id
      modifies this`live, this`byId
      ensures Ordered() && Indexed() && live == old(live) + [timer]
      ensures Views(live) == old(Views(live)) + [timer.View()]
    {
      assert timer.id !in byId;
      live := live + [timer];
      assert Views(live) == old(Views(live)) + [timer.View()];
      byId := byId[timer.id := timer];
    }

    method ClearTimer(id: nat)
      requires Valid()
      modifies this`byId, this`finished, this`earliest, this`scheduled, live`cancelled
      ensures Valid() && View() == Clear(old(View()), id) && live == old(live)
    {
      if id in byId {
        var timer := byId[id];
        ghost var at :| 0 <= at < |live| && live[at] == timer;
        Holds(at);
        ClearLive(timer, at);
      } else {
        HoldsNot(id);
      }
    }

    method ClearLive(timer: LiveTimer, ghost at: nat)
      requires Valid() && at < |live| && live[at] == timer && !timer.cancelled
      modifies this`byId, this`finished, this`earliest, this`scheduled, timer`cancelled
      ensures Valid() && View() == ClearAt(old(View()), at) && live == old(live)
    {
      ghost var before := View();
      Retire(timer, at);
      assert before.live[at].due == timer.due;
      if timer.due == earliest {
        Reschedule();
      }
    }

    method Retire(timer: LiveTimer, ghost at: nat)
      requires Valid() && at < |live| && live[at] == timer && !timer.cancelled
      modifies this`byId, this`finished, timer`cancelled
      ensures Valid() && View() == TimerModel.Retire(old(View()), at) && live == old(live)
    {
      Holds(at);
      Unlink(timer, at);
      CountFinished();
    }

    method Unlink(timer: LiveTimer, ghost at: nat)
      requires Valid() && at < |live| && live[at] == timer && !timer.cancelled
      requires forall i | 0 <= i < |live| && i != at :: live[i] != timer
      modifies this`byId, timer`cancelled
      ensures Valid() && timer.cancelled && Views(live) == old(Views(live))[at := timer.View()]
    {
      timer.cancelled := true;
      byId := byId - {timer.id};
    }

    method CountFinished()
      modifies this`finished
      ensures finished == old(finished) + 1 && Views(live) == old(Views(live))
    {
      finished := finished + 1;
    }

    /** The timer is over, or due again. */
    method BeginTimer(timer: LiveTimer, ghost at: nat)
      requires Valid() && at < |live| && live[at] == timer && !timer.cancelled
      modifies this`byId, this`finished, timer`cancelled, timer`due
      ensures Valid() && View() == Begin(old(View()), at)
    {
      if timer.interval.None? {
        Retire(timer, at);
      } else {
        Postpone(timer, at, timer.interval.value);
      }
    }

    method Postpone(timer: LiveTimer, ghost at: nat, interval: Time)
      requires Valid() && at < |live| && live[at] == timer
      modifies timer`due
      ensures Valid() && Views(live) == old(Views(live))[at := timer.View()]
      ensures timer.due == Plus(old(timer.due), interval)
    {
      Holds(at);
      timer.due := Plus(timer.due, interval);
    }

    /** Runs the callback of `timer`, unless one that ran before cleared it. */
    method Fire(timer: LiveTimer, now: real, callback: Callback) returns (ran: bool)
      requires Valid() && timer in live
      modifies this, live
      ensures Valid() && Grown(old(live))
      ensures View() == AfterTurn(old(View()), timer.id, now, callback)
      ensures ran == IndexOf(old(View()).live, timer.id).Some?
    {
      ghost var at :| 0 <= at < |live| && live[at] == timer;
      Holds(at);
      if timer.cancelled {
        return false;
      }
      BeginTimer(timer, at);
      PerformAll(now, callback.ops);
      ran := true;
    }

    /** The timers are those there were and new ones. */
    twostate predicate Grown(before: seq<LiveTimer>)
      reads this`live
    {
      before <= live && forall i | |before| <= i < |live| :: fresh(live[i])
    }

    /** What a callback does to its script's timers. */
    method PerformAll(now: real, ops: seq<Op>)
      requires Valid()
      modifies this, live
      ensures Valid() && View() == Perform(old(View()), now, ops) && Grown(old(live))
    {
      ghost var all := Perform(View(), now, ops);
      assert ops[0..] == ops;
      for i := 0 to |ops|
        invariant Valid() && Perform(View(), now, ops[i..]) == all && Grown(old(live))
      {
        assert ops[i..][0] == ops[i] && ops[i..][1..] == ops[i + 1..];
        match ops[i] {
          case AddTimer(delay, repeats) =>
            var id := AddTimer(now, delay, repeats);
          case ClearTimer(id) =>
            ClearTimer(id);
        }
      }
    }

    /** `Due` over the shared list. */
    method CollectDue(time: real) returns (due: seq<LiveTimer>)
      ensures Views(due) == Due(Views(live), time)
      ensures forall timer | timer in due :: timer in live
    {
      due := [];
      for i := 0 to |live|
        invariant Views(due) == Due(Views(live)[..i], time)
        invariant forall timer | timer in due :: timer in live
      {
        var timer := live[i];
        assert Views(live)[..i + 1][..i] == Views(live)[..i];
        if !(timer.cancelled || !NotAfter(timer.due, At(time))) {
          assert Views(due + [timer]) == Views(due) + [timer.View()];
          due := due + [timer];
        }
      }
      assert Views(live)[..|live|] == Views(live);
    }

    /** One turn per timer of `due`, in order, up to an interrupt; `error` is the first thrown. */
    method FireDue(due: seq<LiveTimer>, now: real, script: Script)
      returns (fired: seq<nat>, error: Option<string>, interrupted: bool)
      requires Valid() && forall timer | timer in due :: timer in live
      modifies this, live
      ensures Valid() && Grown(old(live))
      ensures Run(View(), fired, error, interrupted)
              == FireAll(Run(old(View()), [], None, false), now, IdsOf(due), script)
    {
      fired, error, interrupted := [], None, false;
      ghost var all := FireAll(Run(View(), fired, error, interrupted), now, IdsOf(due), script);
      assert IdsOf(due)[0..] == IdsOf(due);
      var i := 0;
      while i < |due| && !interrupted
        invariant i <= |due|
        invariant Valid() && Grown(old(live))
        invariant FireAll(Run(View(), fired, error, interrupted), now, IdsOf(due)[i..], script) == all
      {
        assert due[i] in old(live) && due[i] in live;
        fired, error, interrupted := FireNext(due, i, now, script, fired, error);
        i := i + 1;
      }
    }

    method FireNext(due: seq<LiveTimer>, i: nat, now: real, script: Script, before: seq<nat>, failure: Option<string>)
      returns (fired: seq<nat>, error: Option<string>, interrupted: bool)
      requires Valid() && i < |due| && due[i] in live
      modifies this, live
      ensures Valid() && Grown(old(live))
      ensures FireAll(Run(View(), fired, error, interrupted), now, IdsOf(due)[i + 1..], script)
              == FireAll(Run(old(View()), before, failure, false), now, IdsOf(due)[i..], script)
    {
      FireAllNext(Run(View(), before, failure, false), now, IdsOf(due), i, script);
      fired, error, interrupted := Turn(due[i], now, script, before, failure);
    }

    method Turn(timer: LiveTimer, now: real, script: Script, before: seq<nat>, failure: Option<string>)
      returns (fired: seq<nat>, error: Option<string>, interrupted: bool)
      requires Valid() && timer in live
      modifies this, live
      ensures Valid() && Grown(old(live))
      ensures Run(View(), fired, error, interrupted)
              == TimerModel.Fire(Run(old(View()), before, failure, false), now, timer.id, script)
    {
      fired, error, interrupted := before, failure, false;
      var callback := script(|before|);
      var ran := Fire(timer, now, callback);
      FireIs(Run(old(View()), before, failure, false), now, timer.id, script);
      if ran {
        fired := fired + [timer.id];
        interrupted := callback.ending.Interrupted?;
        if callback.ending.Threw? && error.None? {
          error := Some(callback.ending.error);
        }
      }
    }

    /** Drops the timers that are over, moving the others down in place. */
    method SweepFinished()
      requires Valid()
      modifies this`live, this`finished
      ensures Valid() && View() == Sweep(old(View()))
    {
      if finished > 0 {
        var swept := MovedDown();
        SweptIsValid();
        Replace(swept);
      }
    }

    method Replace(swept: seq<LiveTimer>)
      requires Valid() && Increasing(swept) && IndexedBy(swept, byId) && forall timer | timer in swept :: timer in live
      modifies this`live, this`finished
      ensures Valid() && live == swept && finished == 0 && Views(live) == old(Views(swept))
    {
      live, finished := swept, 0;
    }

    /** The list with the timers not over moved to its front, in order, and cut there. */
    method MovedDown() returns (swept: seq<LiveTimer>)
      ensures swept == KeptTimers(live)
    {
      var kept := 0;
      swept := live;
      for i := 0 to |live|
        invariant kept <= i <= |live| == |swept|
        invariant forall k | i <= k < |live| :: swept[k] == live[k]
        invariant swept[..kept] == KeptTimers(live[..i])
      {
        assert live[..i + 1][..i] == live[..i] && swept[i] == live[i];
        if !swept[i].cancelled {
          swept := swept[kept := swept[i]];
          assert swept[..kept + 1] == swept[..kept] + [live[i]];
          kept := kept + 1;
        }
      }
      assert live[..|live|] == live;
      swept := swept[..kept];
    }

    lemma SweptIsValid()
      requires Valid()
      ensures var swept := KeptTimers(live);
        && Views(swept) == Kept(Views(live)) && Increasing(swept) && IndexedBy(swept, byId)
        && (forall timer | timer in swept :: timer in live)
    {
      KeptViews(live);
      KeptHold(live);
      KeptInOrder(live);
    }

    /** A whole run. An interrupted one neither sweeps nor reschedules. */
    method RunTimers(time: real, script: Script) returns (fired: seq<nat>, error: Option<string>, interrupted: bool)
      requires Valid()
      modifies this, live
      ensures Valid() && Run(View(), fired, error, interrupted) == TimerModel.RunTimers(old(View()), time, script)
      ensures scheduled == earliest
    {
      var due := DueInOrder(time);
      if due == [] {
        Reschedule();
        return [], None, false;
      }
      IdsOfViews(due);
      fired, error, interrupted := FireAndFinish(due, time, script);
    }

    method DueInOrder(time: real) returns (due: seq<LiveTimer>)
      ensures Views(due) == Sorted(Due(Views(live), time))
      ensures due == [] <==> Due(Views(live), time) == []
      ensures forall timer | timer in due :: timer in live
    {
      due := CollectDue(time);
      SortedLength(Views(due));
      if |due| > 1 {
        due := SortByDue(due);
      }
    }

    method FireAndFinish(due: seq<LiveTimer>, time: real, script: Script)
      returns (fired: seq<nat>, error: Option<string>, interrupted: bool)
      requires Valid() && forall timer | timer in due :: timer in live
      modifies this, live
      ensures Valid() && Run(View(), fired, error, interrupted) ==
        var run := FireAll(Run(old(View()), [], None, false), time, IdsOf(due), script);
        if run.interrupted then run else run.(timers := TimerModel.Reschedule(Sweep(run.timers)))
    {
      fired, error, interrupted := FireDue(due, time, script);
      if !interrupted {
        Finish();
      }
    }

    method Finish()
      requires Valid()
      modifies this`live, this`finished, this`earliest, this`scheduled
      ensures Valid() && View() == TimerModel.Reschedule(Sweep(old(View())))
    {
      SweepFinished();
      Reschedule();
    }
  }

  // ----------------------------------------------------------- sweeping and sorting

  /** The ids of timers, which no callback changes. */
  ghost function IdsOf(timers: seq<LiveTimer>): seq<nat> {
    seq(|timers|, i requires 0 <= i < |timers| => timers[i].id)
  }

  lemma IdsOfViews(timers: seq<LiveTimer>)
    ensures IdsOf(timers) == Ids(Views(timers))
  {}

  lemma {:induction false} SortedLength(timers: seq<Timer>)
    ensures |Sorted(timers)| == |timers| && (|timers| <= 1 ==> Sorted(timers) == timers)
    decreases |timers|
  {
    if timers != [] {
      SortedLength(timers[..|timers| - 1]);
      InsertedLength(timers[|timers| - 1], Sorted(timers[..|timers| - 1]));
    }
  }

  lemma {:induction false} InsertedLength(timer: Timer, sorted: seq<Timer>)
    ensures |InsertSorted(timer, sorted)| == |sorted| + 1
    decreases |sorted|
  {
    if sorted != [] { InsertedLength(timer, sorted[1..]); }
  }

  ghost function KeptTimers(timers: seq<LiveTimer>): seq<LiveTimer>
    reads timers
  {
    if timers == [] then []
    else KeptTimers(timers[..|timers| - 1]) + if timers[|timers| - 1].cancelled then [] else [timers[|timers| - 1]]
  }

  lemma {:induction false} KeptViews(timers: seq<LiveTimer>)
    ensures Views(KeptTimers(timers)) == Kept(Views(timers))
    decreases |timers|
  {
    if timers != [] {
      var rest, last := timers[..|timers| - 1], timers[|timers| - 1];
      KeptViews(rest);
      assert Views(timers)[..|timers| - 1] == Views(rest);
      assert Views(KeptTimers(rest) + [last]) == Views(KeptTimers(rest)) + [last.View()];
    }
  }

  lemma {:induction false} KeptHold(timers: seq<LiveTimer>)
    ensures forall timer | timer in KeptTimers(timers) :: timer in timers && !timer.cancelled
    ensures forall timer | timer in timers && !timer.cancelled :: timer in KeptTimers(timers)
    decreases |timers|
  {
    if timers != [] {
      KeptHold(timers[..|timers| - 1]);
      assert timers == timers[..|timers| - 1] + [timers[|timers| - 1]];
    }
  }

  lemma {:induction false} KeptInOrder(timers: seq<LiveTimer>)
    requires Increasing(timers)
    ensures Increasing(KeptTimers(timers))
    decreases |timers|
  {
    if timers != [] {
      var rest, last := timers[..|timers| - 1], timers[|timers| - 1];
      KeptInOrder(rest);
      KeptHold(rest);
      var kept := KeptTimers(rest);
      forall i | 0 <= i < |kept| ensures kept[i].id < last.id {
        var timer := kept[i];
        assert timer in kept && timer in rest;
        var j :| 0 <= j < |rest| && rest[j] == timer;
        assert timers[j].id < timers[|timers| - 1].id;
      }
    }
  }

  predicate SortsBefore(a: LiveTimer, b: LiveTimer)
    reads a, b
  {
    Before(a.due, b.due) || (a.due == b.due && a.id < b.id)
  }

  method InsertByDue(timer: LiveTimer, sorted: seq<LiveTimer>) returns (inserted: seq<LiveTimer>)
    ensures Views(inserted) == InsertSorted(timer.View(), Views(sorted))
    ensures forall other | other in inserted :: other == timer || other in sorted
    decreases |sorted|
  {
    if sorted == [] || SortsBefore(timer, sorted[0]) {
      inserted := [timer] + sorted;
    } else {
      assert Views(sorted[1..]) == Views(sorted)[1..];
      var rest := InsertByDue(timer, sorted[1..]);
      inserted := [sorted[0]] + rest;
    }
  }

  /** By due time, then creation. */
  method SortByDue(timers: seq<LiveTimer>) returns (sorted: seq<LiveTimer>)
    ensures Views(sorted) == Sorted(Views(timers))
    ensures forall timer | timer in sorted :: timer in timers
  {
    sorted := [];
    for i := 0 to |timers|
      invariant Views(sorted) == Sorted(Views(timers)[..i])
      invariant forall timer | timer in sorted :: timer in timers
    {
      assert Views(timers)[..i + 1][..i] == Views(timers)[..i];
      sorted := InsertByDue(timers[i], sorted);
    }
    assert Views(timers)[..|timers|] == Views(timers);
  }
}
