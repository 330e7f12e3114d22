/** One pump with no answer arriving meanwhile (src/runner/engine/host_driven.rs). */
module Pumping {
  import opened HostCalls

  class WakeFlag {
    var raised: bool

    constructor ()
      ensures !raised
    {
      raised := false;
    }

    method Swap(value: bool) returns (before: bool)
      modifies this
      ensures before == old(raised) && raised == value
    {
      before, raised := raised, value;
    }
  }

  /** The scripts' scopes are different objects. */
  ghost predicate Separate(scripts: seq<HostPromises>) {
    forall i, j | 0 <= i < j < |scripts| :: scripts[i] != scripts[j] && scripts[i].inbox != scripts[j].inbox
  }

  /** What a pump makes of one scope. */
  function Delivered(scope: Scope, settles: Answer -> bool): Scope { PollScope(scope, settles).scope }

  ghost function Views(scripts: seq<HostPromises>): (views: seq<Scope>)
    reads scripts, set script | script in scripts :: script.inbox
    ensures |views| == |scripts| && forall i | 0 <= i < |scripts| :: views[i] == scripts[i].View()
  {
    if scripts == [] then [] else [scripts[0].View()] + Views(scripts[1..])
  }

  /** The first `reached` scopes had their answers delivered, the others stay. */
  predicate DeliveredUpTo(before: seq<Scope>, after: seq<Scope>, reached: nat, settles: Answer -> bool) {
    |after| == |before| && forall i | 0 <= i < |before| ::
      after[i] == if i < reached then Delivered(before[i], settles) else before[i]
  }

  predicate PollFails(scopes: seq<Scope>, settles: Answer -> bool) {
    exists scope | scope in scopes :: PollScope(scope, settles).failed
  }

  lemma OneMore(scopes: seq<Scope>, i: nat, settles: Answer -> bool)
    requires i < |scopes|
    ensures PollFails(scopes[..i + 1], settles) <==> PollFails(scopes[..i], settles) || PollScope(scopes[i], settles).failed
  {
    assert scopes[..i + 1] == scopes[..i] + [scopes[i]];
    assert scopes[i] in scopes[..i + 1];
  }

  /** Delivers queued answers script by script. `interrupted` is where an interrupt is first
      seen; a script whose poll fails does not stop the others. */
  method Pump(flag: WakeFlag, scripts: seq<HostPromises>, settles: Answer -> bool, interrupted: nat)
    returns (failed: bool)
    requires Separate(scripts) && forall script | script in scripts :: script.Valid()
    modifies flag, scripts, set script | script in scripts :: script.inbox
    ensures !old(flag.raised) ==> !failed && !flag.raised && Views(scripts) == old(Views(scripts))
    ensures old(flag.raised) ==>
      var before, reached := old(Views(scripts)), if interrupted < |scripts| then interrupted else |scripts|;
      && DeliveredUpTo(before, Views(scripts), reached, settles)
      && (failed <==> PollFails(before[..reached], settles))
      && (flag.raised <==> failed || interrupted < |scripts|)
  {
    ghost var before := Views(scripts);
    var raised := flag.Swap(false);
    assert Views(scripts) == before;
    if !raised {
      return false;
    }
    var stopped;
    failed, stopped := LookAtAll(scripts, settles, interrupted);
    ghost var after := Views(scripts);
    if stopped || failed {
      flag.raised := true;
    }
    assert Views(scripts) == after;
  }

  method LookAtAll(scripts: seq<HostPromises>, settles: Answer -> bool, interrupted: nat) returns (failed: bool, stopped: bool)
    requires Separate(scripts) && forall script | script in scripts :: script.Valid()
    modifies scripts, set script | script in scripts :: script.inbox
    ensures var before, reached := old(Views(scripts)), if interrupted < |scripts| then interrupted else |scripts|;
      && DeliveredUpTo(before, Views(scripts), reached, settles)
      && (failed <==> PollFails(before[..reached], settles))
      && (stopped <==> interrupted < |scripts|)
  {
    failed, stopped := false, false;
    ghost var before := Views(scripts);
    var i := 0;
    while i < |scripts| && !stopped
      invariant 0 <= i <= |scripts| && i <= interrupted
      invariant stopped ==> i == interrupted < |scripts|
      invariant forall k | 0 <= k < i :: scripts[k].View() == Delivered(before[k], settles)
      invariant forall k | i <= k < |scripts| :: scripts[k].View() == before[k] && scripts[k].Valid()
      invariant failed <==> PollFails(before[..i], settles)
      decreases |scripts| - i, !stopped
    {
      if i == interrupted {
        stopped := true;
      } else {
        OneMore(before, i, settles);
        failed := Deliver(scripts, i, settles, failed);
        i := i + 1;
      }
    }
  }

  /** Takes the answers of one script, if any waits. */
  method Deliver(scripts: seq<HostPromises>, i: nat, settles: Answer -> bool, failed: bool) returns (nowFailed: bool)
    requires i < |scripts| && Separate(scripts) && scripts[i].Valid()
    modifies scripts[i], scripts[i].inbox
    ensures scripts[i].View() == Delivered(old(scripts[i].View()), settles) && scripts[i].Valid()
    ensures forall k | 0 <= k < |scripts| && k != i :: scripts[k].View() == old(scripts[k].View()) && scripts[k].nextId == old(scripts[k].nextId)
    ensures nowFailed == (failed || PollScope(old(scripts[i].View()), settles).failed)
  {
    nowFailed := failed;
    if scripts[i].inbox.ready != [] {
      var settled, bad := scripts[i].Poll(settles);
      nowFailed := failed || bad;
    }
  }

  /** A pump that ends with the flag lowered has left nothing waiting. */
  lemma DeliveredIsEmpty(scope: Scope, settles: Answer -> bool)
    requires Distinct(scope.ready) && !PollScope(scope, settles).failed
    ensures Delivered(scope, settles).ready == []
  {
    PollSettlesWaiting(scope, settles);
  }
}
