/** Calls from one version of a script that the host answers later
    (src/runner/host_promises.rs), and the inbox for the answers
    (src/contract/host_resolver.rs). */
module HostCalls {
  import opened Wrappers

  /** How a call ended. */
  datatype Settlement = Resolved(reply: string) | Rejected(message: string) | Dropped

  datatype Answer = Answer(call: nat, settlement: Settlement)

  /** `pending` maps each waiting call to the contract it called. */
  datatype Scope = Scope(cancelled: bool, ready: seq<Answer>, pending: map<nat, string>, nextId: nat) {
    function Start(contract: string): Scope {
      this.(pending := pending[nextId := contract], nextId := nextId + 1)
    }

    function Push(answer: Answer): Scope {
      if cancelled then this else this.(ready := ready + [answer])
    }

    function Pop(): Scope
      requires ready != []
    {
      this.(ready := ready[1..], pending := pending - {ready[0].call})
    }

    function Cancel(): Scope { this.(cancelled := true, ready := [], pending := map[]) }
  }

  const NEW_SCOPE := Scope(false, [], map[], 0)

  // ------------------------------------------------------------------ one poll

  /** What one poll leaves and settles, in order, with no answer arriving meanwhile.
      `settles` says whether the Promise functions take a given answer. */
  datatype Polled = Polled(scope: Scope, settled: seq<Answer>, failed: bool)

  function PollScope(scope: Scope, settles: Answer -> bool): Polled
    decreases |scope.ready|
  {
    if scope.ready == [] then Polled(scope, [], false)
    else
      var answer := scope.ready[0];
      if answer.call !in scope.pending then PollScope(scope.Pop(), settles)
      else if !settles(answer) then Polled(scope.Pop(), [], true)
      else
        var rest := PollScope(scope.Pop(), settles);
        rest.(settled := [answer] + rest.settled)
  }

  lemma PollOne(scope: Scope, settles: Answer -> bool)
    requires scope.ready != []
    ensures var answer, poll, rest := scope.ready[0], PollScope(scope, settles), PollScope(scope.Pop(), settles);
      if answer.call !in scope.pending then poll == rest
      else if !settles(answer) then poll == Polled(scope.Pop(), [], true)
      else poll == rest.(settled := [answer] + rest.settled)
  {}

  /** Answers of one inbox name different calls. */
  predicate Distinct(answers: seq<Answer>) {
    forall i, j | 0 <= i < j < |answers| :: answers[i].call != answers[j].call
  }

  function Waiting(answers: seq<Answer>, pending: map<nat, string>): seq<Answer> {
    if answers == [] then []
    else (if answers[0].call in pending then [answers[0]] else []) + Waiting(answers[1..], pending)
  }

  lemma {:induction false} WaitingIgnores(answers: seq<Answer>, pending: map<nat, string>, call: nat)
    requires forall answer | answer in answers :: answer.call != call
    ensures Waiting(answers, pending - {call}) == Waiting(answers, pending)
    decreases |answers|
  {
    if answers != [] {
      assert answers[0] in answers;
      WaitingIgnores(answers[1..], pending, call);
    }
  }

  /** `left` is what follows `answer` in `answers`. */
  predicate Remains(left: seq<Answer>, answers: seq<Answer>, answer: Answer) {
    |left| < |answers| && [answer] + left == answers[|answers| - |left| - 1..]
  }

  /** A poll that fails nowhere settles exactly the answers whose calls wait, oldest
      first, and leaves the inbox empty. */
  lemma {:induction false} PollSettlesWaiting(scope: Scope, settles: Answer -> bool)
    requires Distinct(scope.ready)
    ensures var poll := PollScope(scope, settles);
      && (poll.failed <==> exists answer | answer in Waiting(scope.ready, scope.pending) :: !settles(answer))
      && (!poll.failed ==>
            && poll.settled == Waiting(scope.ready, scope.pending) && poll.scope.ready == []
            && poll.scope.pending == scope.pending - Calls(scope.ready))
    decreases |scope.ready|
  {
    if scope.ready != [] {
      var answer, rest := scope.ready[0], scope.ready[1..];
      FirstIsAlone(scope.ready);
      WaitingIgnores(rest, scope.pending, answer.call);
      PollSettlesWaiting(scope.Pop(), settles);
      PollOne(scope, settles);
      assert scope.ready == [answer] + rest;
      assert Calls(scope.ready) == {answer.call} + Calls(rest);
      assert scope.pending - Calls(scope.ready) == scope.pending - {answer.call} - Calls(rest);
      var waiting := Waiting(rest, scope.pending);
      assert Waiting(scope.ready, scope.pending) == if answer.call in scope.pending then [answer] + waiting else waiting;
    }
  }

  /** One that fails settles the answers before the one it failed at, and the answers
      after that one stay queued. */
  lemma {:induction false} FailedPollKeepsTheRest(scope: Scope, settles: Answer -> bool)
    requires Distinct(scope.ready) && PollScope(scope, settles).failed
    ensures var poll, waiting := PollScope(scope, settles), Waiting(scope.ready, scope.pending);
      && |poll.settled| < |waiting| && poll.settled == waiting[..|poll.settled|]
      && !settles(waiting[|poll.settled|])
      && Remains(poll.scope.ready, scope.ready, waiting[|poll.settled|])
    decreases |scope.ready|
  {
    var answer, rest := scope.ready[0], scope.ready[1..];
    assert scope.ready == [answer] + rest;
    FirstIsAlone(scope.ready);
    WaitingIgnores(rest, scope.pending, answer.call);
    if answer.call !in scope.pending || settles(answer) {
      FailedPollKeepsTheRest(scope.Pop(), settles);
      var poll, waiting := PollScope(scope.Pop(), settles), Waiting(rest, scope.pending);
      assert Waiting(rest, scope.Pop().pending) == waiting;
      var n, all := |poll.settled|, Waiting(scope.ready, scope.pending);
      RemainsInLonger(poll.scope.ready, answer, rest, waiting[n]);
      if answer.call in scope.pending {
        assert all == [answer] + waiting && all[n + 1] == waiting[n];
        assert all[..n + 1] == [answer] + waiting[..n];
      } else {
        assert all == waiting;
      }
    }
  }

  lemma RemainsInLonger(left: seq<Answer>, first: Answer, rest: seq<Answer>, answer: Answer)
    requires Remains(left, rest, answer)
    ensures Remains(left, [first] + rest, answer)
  {
    var answers := [first] + rest;
    assert answers[|answers| - |left| - 1..] == rest[|rest| - |left| - 1..];
  }

  lemma FirstIsAlone(answers: seq<Answer>)
    requires answers != [] && Distinct(answers)
    ensures Distinct(answers[1..])
    ensures forall answer | answer in answers[1..] :: answer.call != answers[0].call
  {
    forall answer | answer in answers[1..] ensures answer.call != answers[0].call {
      var k :| 0 <= k < |answers| - 1 && answers[1..][k] == answer;
      assert answers[k + 1] == answer;
    }
  }

  function Calls(answers: seq<Answer>): set<nat> { set answer | answer in answers :: answer.call }

  // ----------------------------------------------------------------- the classes

  /** Settlements queued by resolvers from any thread, under one lock. */
  class ReplyInbox {
    var cancelled: bool
    var ready: seq<Answer>

    constructor ()
      ensures !cancelled && ready == []
    {
      cancelled, ready := false, [];
    }

    method Push(call: nat, settlement: Settlement) returns (refused: Option<Settlement>)
      modifies this
      ensures cancelled == old(cancelled)
      ensures ready == if cancelled then old(ready) else old(ready) + [Answer(call, settlement)]
      ensures refused == if cancelled then Some(settlement) else None
    {
      if cancelled {
        return Some(settlement);
      }
      ready := ready + [Answer(call, settlement)];
      refused := None;
    }

    method Pop() returns (answer: Option<Answer>)
      modifies this
      ensures cancelled == old(cancelled)
      ensures old(ready) == [] ==> answer == None && ready == []
      ensures old(ready) != [] ==> answer == Some(old(ready)[0]) && ready == old(ready)[1..]
    {
      if ready == [] {
        return None;
      }
      answer, ready := Some(ready[0]), ready[1..];
    }

    method Cancel() returns (queued: seq<Answer>)
      modifies this
      ensures cancelled && ready == [] && queued == old(ready)
    {
      queued := ready;
      cancelled, ready := true, [];
    }
  }

  /** Where the handler of a call leads: its input fails to convert, it fails, possibly
      after answering, or it succeeds. `answered` is what it settled its resolver with. */
  datatype Handling = BadInput | Fails(answered: Option<Settlement>) | Succeeds(answered: Option<Settlement>)

  class HostPromises {
    const inbox: ReplyInbox
    var pending: map<nat, string>
    var nextId: nat

    constructor ()
      ensures Valid() && View() == NEW_SCOPE && fresh(inbox)
    {
      inbox := new ReplyInbox();
      pending, nextId := map[], 0;
    }

    ghost function View(): Scope
      reads this, inbox
    {
      Scope(inbox.cancelled, inbox.ready, pending, nextId)
    }

    /** Every waiting call was issued. */
    ghost predicate Valid()
      reads this
    {
      forall call | call in pending :: call < nextId
    }

    /** Pops answers until the inbox is empty or a Promise cannot be settled: `PollScope`. */
    method Poll(settles: Answer -> bool) returns (settled: seq<Answer>, failed: bool)
      requires Valid()
      modifies this`pending, inbox
      ensures Valid()
      ensures Polled(View(), settled, failed) == PollScope(old(View()), settles)
    {
      settled, failed := [], false;
      ghost var all := PollScope(View(), settles);
      while inbox.ready != []
        invariant Valid()
        invariant all == PollScope(View(), settles).(settled := settled + PollScope(View(), settles).settled)
        decreases |inbox.ready|
      {
        ghost var before := View();
        var answer := inbox.Pop();
        var waits := answer.value.call in pending;
        pending := pending - {answer.value.call};
        assert View() == before.Pop();
        PollOne(before, settles);
        if waits {
          if !settles(answer.value) {
            failed := true;
            return;
          }
          settled := settled + [answer.value];
        }
      }
    }

    method Cancel()
      modifies this`pending, inbox
      ensures Valid() && View() == old(View()).Cancel()
    {
      var queued := inbox.Cancel();
      pending := map[];
    }

    /** Starts one call: the Promise it gives the script is rejected at once, or waits
        under the id of its resolver. */
    method Call(contract: string, handling: Handling) returns (waits: Option<nat>)
      requires Valid()
      modifies this, inbox
      ensures Valid()
      ensures old(View()).cancelled || handling.BadInput? ==> waits.None? && View() == old(View())
      ensures !old(View()).cancelled && !handling.BadInput? ==>
        var started := old(View()).Start(contract);
        var answered := if handling.answered.Some? then started.Push(Answer(old(nextId), handling.answered.value)) else started;
        && waits == (if handling.Succeeds? then Some(old(nextId)) else None)
        && View() == if handling.Succeeds? then answered else answered.(pending := old(pending))
    {
      if inbox.cancelled || handling.BadInput? {
        return None;
      }
      var id := nextId;
      nextId := nextId + 1;
      pending := pending[id := contract];
      if handling.answered.Some? {
        var refused := inbox.Push(id, handling.answered.value);
      }
      if handling.Fails? {
        pending := pending - {id};
        assert pending == old(pending);
        return None;
      }
      waits := Some(id);
    }
  }

  datatype SettleError = Cancelled | EncodeFailed(message: string)

  /** Settles the Promise of one call. Each of its methods consumes the resolver, and the
      host drops it exactly once. */
  class HostResolver {
    const inbox: ReplyInbox
    const id: nat
    var settled: bool

    constructor (inbox: ReplyInbox, id: nat)
      ensures this.inbox == inbox && this.id == id && !settled
    {
      this.inbox, this.id, settled := inbox, id, false;
    }

    /** The one answer this resolver queues, unless the calling version is gone. */
    twostate predicate Queued(settlement: Settlement)
      reads inbox
    {
      && inbox.cancelled == old(inbox.cancelled)
      && inbox.ready == if old(inbox.cancelled) then old(inbox.ready) else old(inbox.ready) + [Answer(id, settlement)]
    }

    method Resolve(encoded: Result<string, string>) returns (outcome: Result<(), SettleError>)
      modifies this, inbox
      ensures settled
      ensures Queued(if encoded.Ok? then Resolved(encoded.value) else Rejected(encoded.error))
      ensures outcome == if inbox.cancelled then Err(Cancelled)
        else if encoded.Ok? then Ok(()) else Err(EncodeFailed(encoded.error))
    {
      if inbox.cancelled {
        settled := true;
        return Err(Cancelled);
      }
      settled := true;
      if encoded.Ok? {
        outcome := Send(Resolved(encoded.value));
      } else {
        outcome := Send(Rejected(encoded.error));
        if outcome.Err? {
          return;
        }
        outcome := Err(EncodeFailed(encoded.error));
      }
    }

    method Reject(message: string) returns (outcome: Result<(), SettleError>)
      modifies this, inbox
      ensures settled && Queued(Rejected(message))
      ensures outcome == if inbox.cancelled then Err(Cancelled) else Ok(())
    {
      settled := true;
      outcome := Send(Rejected(message));
    }

    method Send(settlement: Settlement) returns (outcome: Result<(), SettleError>)
      modifies inbox
      ensures Queued(settlement)
      ensures outcome == if inbox.cancelled then Err(Cancelled) else Ok(())
    {
      var refused := inbox.Push(id, settlement);
      outcome := if refused.Some? then Err(Cancelled) else Ok(());
    }

    /** A resolver that goes unsettled queues `Dropped`. */
    method Drop()
      modifies inbox
      ensures if settled then inbox.cancelled == old(inbox.cancelled) && inbox.ready == old(inbox.ready) else Queued(Dropped)
    {
      if !settled {
        var refused := inbox.Push(id, Dropped);
      }
    }
  }
}
