/** Resolver threads answering host calls while the engine thread pumps, interleaved step
    by step: each step is one access to an inbox, to the wake flag, or to engine state
    (src/contract/host_resolver.rs, src/runner/host_promises.rs,
    src/runner/engine/host_driven.rs). */
module HostProtocol {
  import opened Wrappers
  import opened HostCalls

  type ScopeId = nat

  /** One resolver: not settled; checked not to be cancelled and encoding its value; its
      answer queued and the flag still to be raised; finished. */
  datatype Resolver = Live | Encoding | Storing | Done

  /** What the engine thread is at. `Scanning` looks at the next script of a pump,
      `Polling` takes the answers of one; `failed` is whether a poll of this pump failed. */
  datatype Engine =
    | Idle
    | Scanning(at: nat, failed: bool)
    | Polling(at: nat, failed: bool)
    | Raising
    | Draining

  /** What happened in one scope: every answer queued, how many were taken, the calls
      rejected because their handler failed, those whose Promise functions failed, and the
      answers that reached a Promise. */
  datatype History = History(queued: seq<Answer>, taken: nat, failed: set<nat>, broken: set<nat>, settled: seq<Answer>)

  const NO_HISTORY := History([], 0, {}, {}, [])

  /** `loaded` lists the scopes of loaded scripts in load order; `mounting` is the one of a
      script being loaded; `calling` is the host call whose handler is running. */
  datatype State = State(
    wake: bool, scopes: map<ScopeId, Scope>, histories: map<ScopeId, History>,
    resolvers: map<(ScopeId, nat), Resolver>,
    loaded: seq<ScopeId>, mounting: Option<ScopeId>, engine: Engine, calling: Option<(ScopeId, nat)>)

  const INITIAL := State(false, map[], map[], map[], [], None, Idle, None)

  datatype Step =
    // Resolver threads
    | Check(scope: ScopeId, call: nat)
    | Push(scope: ScopeId, call: nat, settlement: Settlement)
    | Raise(scope: ScopeId, call: nat)
    // The engine thread: host calls of running scripts
    | Start(scope: ScopeId, contract: string)
    | HandlerReturns(ok: bool)
    // ... a pump
    | Swap
    | Look(interrupted: bool)
    | Take(settles: bool)
    | RaiseAgain
    | Drained
    // ... and the life of scripts
    | Mount(scope: ScopeId)
    | Mounted(over: Option<nat>)
    | MountFails
    | Unload(at: nat)
    | Retire(scope: ScopeId)

  predicate Enabled(s: State, step: Step) {
    match step
    case Check(scope, call) => scope in s.scopes && (scope, call) in s.resolvers && s.resolvers[(scope, call)] == Live
    case Push(scope, call, settlement) =>
      && scope in s.scopes && scope in s.histories && (scope, call) in s.resolvers
      && (s.resolvers[(scope, call)] == Encoding || (s.resolvers[(scope, call)] == Live && !settlement.Resolved?))
    case Raise(scope, call) => (scope, call) in s.resolvers && s.resolvers[(scope, call)] == Storing
    case Start(scope, _) => s.calling.None? && (s.engine.Idle? || s.engine.Draining?) && scope in s.scopes && !s.scopes[scope].cancelled
    case HandlerReturns(_) => s.calling.Some? && s.calling.value.0 in s.scopes && s.calling.value.0 in s.histories
    case Swap => s.engine.Idle? && s.calling.None? && s.mounting.None?
    case Look(_) => s.engine.Scanning? && (s.engine.at < |s.loaded| ==> s.loaded[s.engine.at] in s.scopes)
    case Take(_) => s.engine.Polling? && s.engine.at < |s.loaded| && s.loaded[s.engine.at] in s.scopes && s.loaded[s.engine.at] in s.histories
    case RaiseAgain => s.engine.Raising?
    case Drained => s.engine.Draining? && s.calling.None?
    case Mount(scope) => s.engine.Idle? && s.calling.None? && s.mounting.None? && scope !in s.scopes
    case Mounted(over) => s.engine.Idle? && s.calling.None? && s.mounting.Some? && (over.Some? ==> over.value < |s.loaded|)
    case MountFails => s.engine.Idle? && s.calling.None? && s.mounting.Some? && s.mounting.value in s.scopes
    case Unload(at) => s.engine.Idle? && s.calling.None? && at < |s.loaded|
    case Retire(scope) => s.engine.Idle? && s.calling.None? && scope in s.scopes && scope !in s.loaded && s.mounting != Some(scope)
  }

  function TakenOne(history: History, answer: Answer, waits: bool, settles: bool): History {
    history.(taken := history.taken + 1,
             broken := history.broken + (if waits && !settles then {answer.call} else {}),
             settled := history.settled + (if waits && settles then [answer] else []))
  }

  function Apply(s: State, step: Step): State
    requires Enabled(s, step)
  {
    match step
    case Check(scope, call) =>
      s.(resolvers := s.resolvers[(scope, call) := if s.scopes[scope].cancelled then Done else Encoding])
    case Push(scope, call, settlement) =>
      if s.scopes[scope].cancelled then s.(resolvers := s.resolvers[(scope, call) := Done])
      else
        var history := s.histories[scope];
        s.(scopes := s.scopes[scope := s.scopes[scope].Push(Answer(call, settlement))],
           histories := s.histories[scope := history.(queued := history.queued + [Answer(call, settlement)])],
           resolvers := s.resolvers[(scope, call) := Storing])
    case Raise(scope, call) => s.(wake := true, resolvers := s.resolvers[(scope, call) := Done])
    case Start(scope, contract) =>
      var call := s.scopes[scope].nextId;
      s.(scopes := s.scopes[scope := s.scopes[scope].Start(contract)],
         resolvers := s.resolvers[(scope, call) := Live], calling := Some((scope, call)))
    case HandlerReturns(ok) =>
      var (scope, call) := s.calling.value;
      if ok || call !in s.scopes[scope].pending then s.(calling := None)
      else
        var before, history := s.scopes[scope], s.histories[scope];
        s.(scopes := s.scopes[scope := before.(pending := before.pending - {call})],
           histories := s.histories[scope := history.(failed := history.failed + {call})], calling := None)
    case Swap => if s.wake then s.(wake := false, engine := Scanning(0, false)) else s
    case Look(interrupted) =>
      var (at, failed) := (s.engine.at, s.engine.failed);
      if at >= |s.loaded| then s.(engine := if failed then Raising else Draining)
      else if interrupted then s.(engine := Raising)
      else if s.scopes[s.loaded[at]].ready == [] then s.(engine := Scanning(at + 1, failed))
      else s.(engine := Polling(at, failed))
    case Take(settles) =>
      var scope, history := s.scopes[s.loaded[s.engine.at]], s.histories[s.loaded[s.engine.at]];
      if scope.ready == [] then s.(engine := Scanning(s.engine.at + 1, s.engine.failed))
      else
        var answer := scope.ready[0];
        var waits := answer.call in scope.pending;
        s.(scopes := s.scopes[s.loaded[s.engine.at] := scope.Pop()],
           histories := s.histories[s.loaded[s.engine.at] := TakenOne(history, answer, waits, settles)],
           engine := if waits && !settles then Scanning(s.engine.at + 1, true) else s.engine)
    case RaiseAgain => s.(wake := true, engine := Draining)
    case Drained => s.(engine := Idle)
    case Mount(scope) =>
      s.(scopes := s.scopes[scope := NEW_SCOPE], histories := s.histories[scope := NO_HISTORY], mounting := Some(scope))
    case Mounted(over) =>
      s.(loaded := if over.Some? then s.loaded[over.value := s.mounting.value] else s.loaded + [s.mounting.value],
         mounting := None)
    case MountFails =>
      s.(scopes := s.scopes[s.mounting.value := s.scopes[s.mounting.value].Cancel()], mounting := None)
    case Unload(at) => s.(loaded := s.loaded[..at] + s.loaded[at + 1..])
    case Retire(scope) => s.(scopes := s.scopes[scope := s.scopes[scope].Cancel()])
  }

  // ------------------------------------------------------------------- invariants

  predicate SomeoneWillRaise(s: State) {
    exists resolver | resolver in s.resolvers :: s.resolvers[resolver] == Storing
  }

  /** The scopes of loaded scripts exist and are not cancelled. */
  predicate ScriptsLive(s: State) {
    && s.histories.Keys == s.scopes.Keys
    && (forall scope | scope in s.loaded :: scope in s.scopes && !s.scopes[scope].cancelled)
    && (s.mounting.Some? ==> s.mounting.value in s.scopes && !s.scopes[s.mounting.value].cancelled
                             && s.mounting.value !in s.loaded)
    && (!s.engine.Idle? ==> s.mounting.None?)
    && (s.engine.Polling? ==> s.engine.at < |s.loaded|)
    && (s.calling.Some? ==> s.calling.value.0 in s.scopes && s.calling.value in s.resolvers
                            && (s.engine.Idle? || s.engine.Draining?))
  }

  /** Every resolver is of a call its scope issued. */
  predicate CallsIssued(s: State) {
    forall resolver | resolver in s.resolvers ::
      resolver.0 in s.scopes && resolver.1 < s.scopes[resolver.0].nextId
  }

  /** The answers queued for the script at `at` will be looked at. */
  predicate WillLook(s: State, at: nat) {
    || s.wake || SomeoneWillRaise(s) || s.engine.Raising?
    || ((s.engine.Scanning? || s.engine.Polling?) && (s.engine.at <= at || s.engine.failed))
  }

  predicate NoLostWakeUp(s: State) {
    && (forall at | 0 <= at < |s.loaded| ::
          s.loaded[at] in s.scopes && s.scopes[s.loaded[at]].ready != [] ==> WillLook(s, at))
    && (s.mounting.Some? && s.mounting.value in s.scopes && s.scopes[s.mounting.value].ready != [] ==>
          s.wake || SomeoneWillRaise(s))
  }

  predicate Unsettled(s: State, scope: ScopeId, call: nat) {
    (scope, call) in s.resolvers && (s.resolvers[(scope, call)] == Live || s.resolvers[(scope, call)] == Encoding)
  }

  /** Where every call of one scope is: its queued answers are the ones not taken, each
      issued call answered at most once, and none forgotten: it waits, its handler failed
      or its answer was taken; and a waiting call either still has an unsettled resolver or
      an answer queued. */
  predicate CallsAccounted(s: State, id: ScopeId)
    requires id in s.scopes && id in s.histories
  {
    var scope, history := s.scopes[id], s.histories[id];
    && Distinct(history.queued) && history.taken <= |history.queued|
    && (if scope.cancelled then scope.ready == [] && scope.pending == map[]
        else scope.ready == history.queued[history.taken..])
    && (forall answer | answer in history.queued :: answer.call < scope.nextId && !Unsettled(s, id, answer.call))
    && (forall call | call in scope.pending ::
          call < scope.nextId && call !in history.failed && (Unsettled(s, id, call) || call in Calls(scope.ready)))
    && (forall call | call in history.failed :: call < scope.nextId)
    && (!scope.cancelled ==> forall call: nat | call < scope.nextId ::
          call in scope.pending || call in history.failed || call in Calls(history.queued[..history.taken]))
  }

  /** The answers of `answers` to other calls than `skipped`. */
  function Except(answers: seq<Answer>, skipped: set<nat>): seq<Answer> {
    if answers == [] then []
    else
      var last := answers[|answers| - 1];
      Except(answers[..|answers| - 1], skipped) + if last.call in skipped then [] else [last]
  }

  /** Promises settle in the order their calls were answered: every answer taken, but for
      the calls that had already rejected and those that could not be settled. */
  predicate SettledInOrder(history: History) {
    && history.taken <= |history.queued|
    && history.settled == Except(history.queued[..history.taken], history.failed + history.broken)
    && (forall call | call in history.broken :: call in Calls(history.queued[..history.taken]))
  }

  predicate Inv(s: State) {
    && ScriptsLive(s) && CallsIssued(s) && NoLostWakeUp(s)
    && (forall scope | scope in s.scopes :: CallsAccounted(s, scope) && SettledInOrder(s.histories[scope]))
  }

  // ----------------------------------------------------------------- preservation

  lemma AnsweringKeepsLive(s: State, step: Step)
    requires ScriptsLive(s) && Enabled(s, step)
    requires step.Check? || step.Push? || step.Raise? || step.Start? || step.HandlerReturns?
    ensures ScriptsLive(Apply(s, step))
  {
    var t := Apply(s, step);
    assert t.loaded == s.loaded && t.mounting == s.mounting && t.engine == s.engine;
    assert t.scopes.Keys == s.scopes.Keys && t.histories.Keys == s.histories.Keys;
    assert s.resolvers.Keys <= t.resolvers.Keys;
    forall id | id in s.scopes ensures t.scopes[id].cancelled == s.scopes[id].cancelled {}
  }

  lemma PumpingKeepsLive(s: State, step: Step)
    requires ScriptsLive(s) && Enabled(s, step)
    requires step.Swap? || step.Look? || step.Take? || step.RaiseAgain? || step.Drained?
    ensures ScriptsLive(Apply(s, step))
  {}

  lemma LoadingKeepsLive(s: State, step: Step)
    requires ScriptsLive(s) && Enabled(s, step)
    requires step.Mount? || step.Mounted? || step.MountFails? || step.Unload? || step.Retire?
    ensures ScriptsLive(Apply(s, step))
  {
    var t := Apply(s, step);
    forall scope | scope in t.loaded ensures scope in t.scopes && !t.scopes[scope].cancelled {
      assert scope in s.loaded || s.mounting == Some(scope);
    }
  }

  /** Scopes stay and issue more; a new resolver is of a call just started. */
  lemma ScopesGrow(s: State, step: Step)
    requires Enabled(s, step)
    ensures var t := Apply(s, step);
      && (forall id | id in s.scopes :: id in t.scopes && s.scopes[id].nextId <= t.scopes[id].nextId)
      && (forall resolver | resolver in t.resolvers :: resolver in s.resolvers || step.Start?)
      && (step.Start? ==> t.resolvers.Keys == s.resolvers.Keys + {(step.scope, s.scopes[step.scope].nextId)}
                          && s.scopes[step.scope].nextId < t.scopes[step.scope].nextId)
  {}

  lemma IssuedStays(s: State, step: Step)
    requires CallsIssued(s) && Enabled(s, step)
    ensures CallsIssued(Apply(s, step))
  {
    ScopesGrow(s, step);
  }

  lemma RaiserStays(s: State, step: Step)
    requires CallsIssued(s) && Enabled(s, step) && SomeoneWillRaise(s)
    ensures SomeoneWillRaise(Apply(s, step)) || Apply(s, step).wake
  {
    var resolver :| resolver in s.resolvers && s.resolvers[resolver] == Storing;
    var t := Apply(s, step);
    match step
    case Check(scope, call) => assert t.resolvers[resolver] == Storing;
    case Push(scope, call, _) => assert t.resolvers[resolver] == Storing;
    case Raise(scope, call) =>
    case Start(scope, _) =>
      assert resolver != (scope, s.scopes[scope].nextId);
      assert t.resolvers[resolver] == Storing;
    case _ => assert t.resolvers[resolver] == Storing;
  }

  lemma AnsweringKeepsWakeUp(s: State, step: Step)
    requires ScriptsLive(s) && CallsIssued(s) && NoLostWakeUp(s) && Enabled(s, step)
    requires step.Check? || step.Push? || step.Raise? || step.Start? || step.HandlerReturns?
    ensures NoLostWakeUp(Apply(s, step))
  {
    if SomeoneWillRaise(s) { RaiserStays(s, step); }
    var t := Apply(s, step);
    match step
    case Push(scope, call, _) =>
      assert !s.scopes[scope].cancelled ==> t.resolvers[(scope, call)] == Storing;
    case _ =>
  }

  lemma PumpingKeepsWakeUp(s: State, step: Step)
    requires ScriptsLive(s) && CallsIssued(s) && NoLostWakeUp(s) && Enabled(s, step)
    requires step.Swap? || step.Look? || step.Take? || step.RaiseAgain? || step.Drained?
    ensures NoLostWakeUp(Apply(s, step))
  {
    if SomeoneWillRaise(s) { RaiserStays(s, step); }
    var t := Apply(s, step);
    forall at | 0 <= at < |t.loaded| && t.loaded[at] in t.scopes && t.scopes[t.loaded[at]].ready != []
      ensures WillLook(t, at)
    {
      assert s.loaded[at] in s.scopes && s.scopes[s.loaded[at]].ready != [];
      assert WillLook(s, at);
    }
  }

  lemma LoadingKeepsWakeUp(s: State, step: Step)
    requires ScriptsLive(s) && CallsIssued(s) && NoLostWakeUp(s) && Enabled(s, step)
    requires step.Mount? || step.Mounted? || step.MountFails? || step.Unload? || step.Retire?
    ensures NoLostWakeUp(Apply(s, step))
  {
    if SomeoneWillRaise(s) { RaiserStays(s, step); }
    var t := Apply(s, step);
    forall at | 0 <= at < |t.loaded| && t.loaded[at] in t.scopes && t.scopes[t.loaded[at]].ready != []
      ensures WillLook(t, at)
    {
      LoadedStaysLooked(s, step, at);
    }
  }

  lemma LoadedStaysLooked(s: State, step: Step, at: nat)
    requires ScriptsLive(s) && NoLostWakeUp(s) && Enabled(s, step)
    requires step.Mount? || step.Mounted? || step.MountFails? || step.Unload? || step.Retire?
    requires SomeoneWillRaise(s) ==> SomeoneWillRaise(Apply(s, step)) || Apply(s, step).wake
    requires var t := Apply(s, step);
      at < |t.loaded| && t.loaded[at] in t.scopes && t.scopes[t.loaded[at]].ready != []
    ensures WillLook(Apply(s, step), at)
  {
    var t := Apply(s, step);
    if s.mounting != Some(t.loaded[at]) {
      assert exists before | 0 <= before < |s.loaded| :: s.loaded[before] == t.loaded[at];
      var before :| 0 <= before < |s.loaded| && s.loaded[before] == t.loaded[at];
      assert WillLook(s, before);
    }
  }

  /** Whose scope and history a step changes. */
  function Concerns(s: State, step: Step): Option<ScopeId>
    requires Enabled(s, step)
  {
    match step
    case Check(scope, _) => Some(scope)
    case Push(scope, _, _) => Some(scope)
    case Raise(scope, _) => Some(scope)
    case Start(scope, _) => Some(scope)
    case HandlerReturns(_) => Some(s.calling.value.0)
    case Take(_) => Some(s.loaded[s.engine.at])
    case Mount(scope) => Some(scope)
    case MountFails => s.mounting
    case Retire(scope) => Some(scope)
    case _ => None
  }

  lemma OtherScopesStay(s: State, step: Step, id: ScopeId)
    requires Enabled(s, step) && id in s.scopes && id in s.histories && Concerns(s, step) != Some(id)
    ensures var t := Apply(s, step);
      && id in t.scopes && id in t.histories && t.scopes[id] == s.scopes[id] && t.histories[id] == s.histories[id]
      && forall call :: Unsettled(t, id, call) == Unsettled(s, id, call)
  {
    var t := Apply(s, step);
    assert id in t.scopes && id in t.histories;
    forall call ensures Unsettled(t, id, call) == Unsettled(s, id, call) {}
  }

  lemma OthersStay(s: State, step: Step, id: ScopeId)
    requires Enabled(s, step) && id in s.scopes && id in s.histories && Concerns(s, step) != Some(id)
    requires CallsAccounted(s, id) && SettledInOrder(s.histories[id])
    ensures var t := Apply(s, step);
      id in t.scopes && id in t.histories && CallsAccounted(t, id) && SettledInOrder(t.histories[id])
  {
    OtherScopesStay(s, step, id);
  }

  lemma CheckingIsAccounted(s: State, step: Step, id: ScopeId)
    requires Enabled(s, step) && id in s.scopes && id in s.histories && Concerns(s, step) == Some(id)
    requires (step.Check? || step.Raise?) && CallsIssued(s) && CallsAccounted(s, id)
    ensures id in Apply(s, step).histories && CallsAccounted(Apply(s, step), id)
  {
    var t := Apply(s, step);
    forall call | call != step.call ensures Unsettled(t, id, call) == Unsettled(s, id, call) {}
  }

  lemma PushingIsAccounted(s: State, step: Step, id: ScopeId)
    requires Enabled(s, step) && id in s.scopes && id in s.histories && Concerns(s, step) == Some(id)
    requires step.Push? && CallsIssued(s) && CallsAccounted(s, id)
    ensures id in Apply(s, step).histories && CallsAccounted(Apply(s, step), id)
  {
    var t := Apply(s, step);
    var scope, history := t.scopes[id], t.histories[id];
    forall call | call != step.call ensures Unsettled(t, id, call) == Unsettled(s, id, call) {}
    if !s.scopes[id].cancelled {
      var answer := Answer(step.call, step.settlement);
      assert Unsettled(s, id, step.call);
      assert history.queued[..history.taken] == s.histories[id].queued[..history.taken];
      assert history.queued[history.taken..] == s.histories[id].queued[history.taken..] + [answer];
      assert answer == scope.ready[|scope.ready| - 1];
      forall other | other in Calls(s.scopes[id].ready) ensures other in Calls(scope.ready) {
        var queued :| queued in s.scopes[id].ready && queued.call == other;
        assert queued in scope.ready;
      }
    }
  }

  lemma StartingIsAccounted(s: State, step: Step, id: ScopeId)
    requires Enabled(s, step) && id in s.scopes && id in s.histories && Concerns(s, step) == Some(id)
    requires step.Start? && CallsIssued(s) && CallsAccounted(s, id)
    ensures id in Apply(s, step).histories && CallsAccounted(Apply(s, step), id)
  {
    var t := Apply(s, step);
    forall call | call != s.scopes[id].nextId ensures Unsettled(t, id, call) == Unsettled(s, id, call) {}
  }

  lemma ReturningIsAccounted(s: State, step: Step, id: ScopeId)
    requires Enabled(s, step) && id in s.scopes && id in s.histories && Concerns(s, step) == Some(id)
    requires step.HandlerReturns? && CallsIssued(s) && CallsAccounted(s, id)
    ensures id in Apply(s, step).histories && CallsAccounted(Apply(s, step), id)
  {
    var t := Apply(s, step);
    forall call ensures Unsettled(t, id, call) == Unsettled(s, id, call) {}
  }

  lemma CallsOfBoth(answers: seq<Answer>, answer: Answer)
    ensures Calls(answers + [answer]) == Calls(answers) + {answer.call}
  {
    assert forall other :: other in answers + [answer] <==> other in answers || other == answer;
  }

  lemma TakingIsAccounted(s: State, step: Step, id: ScopeId)
    requires Enabled(s, step) && id in s.scopes && id in s.histories && Concerns(s, step) == Some(id)
    requires step.Take? && CallsIssued(s) && CallsAccounted(s, id)
    ensures id in Apply(s, step).histories && CallsAccounted(Apply(s, step), id)
  {
    var t, ready := Apply(s, step), s.scopes[id].ready;
    forall call ensures Unsettled(t, id, call) == Unsettled(s, id, call) {}
    if ready != [] {
      var history := s.histories[id];
      assert ready == [ready[0]] + ready[1..];
      assert history.queued[history.taken..][1..] == history.queued[history.taken + 1..];
      assert history.queued[history.taken] == ready[0];
      var taken := history.queued[..history.taken];
      assert history.queued[..history.taken + 1] == taken + [ready[0]];
      assert Calls(taken + [ready[0]]) == Calls(taken) + {ready[0].call} by {
        CallsOfBoth(taken, ready[0]);
      }
      forall call | call in Calls(ready) && call != ready[0].call ensures call in Calls(ready[1..]) {
        var answer :| answer in ready && answer.call == call;
        assert answer in ready[1..];
      }
    }
  }

  lemma RetiringIsAccounted(s: State, step: Step, id: ScopeId)
    requires Enabled(s, step) && id in s.scopes && id in s.histories && Concerns(s, step) == Some(id)
    requires (step.MountFails? || step.Retire?) && CallsAccounted(s, id)
    ensures id in Apply(s, step).histories && CallsAccounted(Apply(s, step), id)
  {
    forall call ensures Unsettled(Apply(s, step), id, call) == Unsettled(s, id, call) {}
  }

  lemma AccountedStays(s: State, step: Step, id: ScopeId)
    requires ScriptsLive(s) && CallsIssued(s) && Enabled(s, step) && id in Apply(s, step).scopes
    requires id in s.scopes ==> CallsAccounted(s, id) && SettledInOrder(s.histories[id])
    ensures id in Apply(s, step).histories && CallsAccounted(Apply(s, step), id)
  {
    if id !in s.scopes {
      assert step.Mount?;
    } else if Concerns(s, step) != Some(id) {
      OthersStay(s, step, id);
    } else {
      ConcernedIsAccounted(s, step, id);
    }
  }

  lemma ConcernedIsAccounted(s: State, step: Step, id: ScopeId)
    requires Enabled(s, step) && id in s.scopes && id in s.histories && Concerns(s, step) == Some(id) && !step.Mount?
    requires CallsIssued(s) && CallsAccounted(s, id)
    ensures id in Apply(s, step).histories && CallsAccounted(Apply(s, step), id)
  {
    match step
    case Check(_, _) => CheckingIsAccounted(s, step, id);
    case Push(_, _, _) => PushingIsAccounted(s, step, id);
    case Raise(_, _) => CheckingIsAccounted(s, step, id);
    case Take(_) => TakingIsAccounted(s, step, id);
    case Start(_, _) => StartingIsAccounted(s, step, id);
    case HandlerReturns(_) => ReturningIsAccounted(s, step, id);
    case _ => RetiringIsAccounted(s, step, id);
  }

  /** Skipping more calls changes nothing where none of them was answered. */
  lemma {:induction false} ExceptIgnores(answers: seq<Answer>, skipped: set<nat>, call: nat)
    requires call !in Calls(answers)
    ensures Except(answers, skipped + {call}) == Except(answers, skipped)
    decreases |answers|
  {
    if answers != [] {
      assert answers[|answers| - 1] in answers;
      ExceptIgnores(answers[..|answers| - 1], skipped, call);
    }
  }

  lemma TakenAreNotWaiting(s: State, id: ScopeId, call: nat)
    requires id in s.scopes && id in s.histories && CallsAccounted(s, id)
    requires call in s.scopes[id].pending
    ensures call !in Calls(s.histories[id].queued[..s.histories[id].taken])
  {
    var history := s.histories[id];
    forall answer | answer in history.queued[..history.taken] ensures answer.call != call {
      assert answer in history.queued;
      if call in Calls(s.scopes[id].ready) {
        var other :| other in history.queued[history.taken..] && other.call == call;
        NotTakenTwice(history, answer, other);
      }
    }
  }

  lemma NotTakenTwice(history: History, taken: Answer, waiting: Answer)
    requires Distinct(history.queued) && history.taken <= |history.queued|
    requires taken in history.queued[..history.taken] && waiting in history.queued[history.taken..]
    ensures taken.call != waiting.call
  {
    var i :| 0 <= i < history.taken && history.queued[i] == taken;
    var j :| 0 <= j < |history.queued| - history.taken && history.queued[history.taken..][j] == waiting;
    assert history.queued[history.taken + j] == waiting;
  }

  /** The next answer's call waits, or its handler failed. */
  lemma NextAnswer(s: State, id: ScopeId)
    requires id in s.scopes && id in s.histories && CallsAccounted(s, id) && s.scopes[id].ready != []
    ensures var call, history := s.scopes[id].ready[0].call, s.histories[id];
      && (call in s.scopes[id].pending || call in history.failed)
      && call !in Calls(history.queued[..history.taken])
  {
    var answer, history := s.scopes[id].ready[0], s.histories[id];
    assert history.queued[history.taken] == answer && answer in history.queued;
    assert answer in history.queued[history.taken..];
    forall other | other in history.queued[..history.taken] ensures other.call != answer.call {
      NotTakenTwice(history, other, answer);
    }
  }

  lemma ExceptOneMore(answers: seq<Answer>, answer: Answer, skipped: set<nat>)
    ensures Except(answers + [answer], skipped) == Except(answers, skipped) + if answer.call in skipped then [] else [answer]
  {
    assert (answers + [answer])[..|answers|] == answers;
  }

  lemma TakingKeepsOrder(s: State, step: Step, id: ScopeId)
    requires Enabled(s, step) && step.Take? && id in s.scopes && id in s.histories && Concerns(s, step) == Some(id)
    requires CallsAccounted(s, id) && SettledInOrder(s.histories[id])
    ensures id in Apply(s, step).histories && SettledInOrder(Apply(s, step).histories[id])
  {
    if s.scopes[id].ready != [] {
      var pending, before, after := s.scopes[id].pending, s.histories[id], Apply(s, step).histories[id];
      var answer := s.scopes[id].ready[0];
      NextAnswer(s, id);
      assert after == TakenOne(before, answer, answer.call in pending, step.settles);
      assert answer.call in pending ==> answer.call !in before.failed;
      assert before.queued[before.taken] == answer;
      TakenOneKeepsOrder(before, answer, answer.call in pending, step.settles);
    }
  }

  lemma TakenOneKeepsOrder(history: History, answer: Answer, waits: bool, settles: bool)
    requires SettledInOrder(history) && history.taken < |history.queued| && history.queued[history.taken] == answer
    requires answer.call !in Calls(history.queued[..history.taken])
    requires waits <==> answer.call !in history.failed
    ensures SettledInOrder(TakenOne(history, answer, waits, settles))
  {
    var taken, skipped := history.queued[..history.taken], history.failed + history.broken;
    assert history.queued[..history.taken + 1] == taken + [answer];
    CallsOfBoth(taken, answer);
    var after := TakenOne(history, answer, waits, settles);
    if waits && !settles {
      assert after.failed + after.broken == skipped + {answer.call};
      ExceptIgnores(taken, skipped, answer.call);
    } else {
      assert after.failed + after.broken == skipped;
    }
    ExceptOneMore(taken, answer, after.failed + after.broken);
  }

  lemma InOrderStays(s: State, step: Step, id: ScopeId)
    requires ScriptsLive(s) && Enabled(s, step) && id in Apply(s, step).scopes
    requires id in s.scopes ==> CallsAccounted(s, id) && SettledInOrder(s.histories[id])
    ensures id in Apply(s, step).histories && SettledInOrder(Apply(s, step).histories[id])
  {
    if id !in s.scopes {
      assert step.Mount?;
    } else if Concerns(s, step) != Some(id) {
      OthersStay(s, step, id);
    } else if step.Take? {
      TakingKeepsOrder(s, step, id);
    } else if step.HandlerReturns? {
      ReturningKeepsOrder(s, step, id);
    } else {
      var before, after := s.histories[id], Apply(s, step).histories[id];
      assert after.queued[..after.taken] == before.queued[..before.taken];
      assert after.failed == before.failed && after.broken == before.broken;
    }
  }

  lemma ReturningKeepsOrder(s: State, step: Step, id: ScopeId)
    requires Enabled(s, step) && step.HandlerReturns? && id in s.scopes && id in s.histories
    requires Concerns(s, step) == Some(id) && CallsAccounted(s, id) && SettledInOrder(s.histories[id])
    ensures id in Apply(s, step).histories && SettledInOrder(Apply(s, step).histories[id])
  {
    var before, after := s.histories[id], Apply(s, step).histories[id];
    if after != before {
      var call := s.calling.value.1;
      TakenAreNotWaiting(s, id, call);
      ExceptIgnores(before.queued[..before.taken], before.failed + before.broken, call);
      assert after.failed + after.broken == before.failed + before.broken + {call};
    }
  }

  // --------------------------------------------------------------------- the runs

  /** Every interleaving keeps the protocol's invariant. */
  lemma InvStays(s: State, step: Step)
    requires Inv(s) && Enabled(s, step)
    ensures Inv(Apply(s, step))
  {
    IssuedStays(s, step);
    WakeUpStays(s, step);
    ScopesStayAccounted(s, step);
  }

  lemma WakeUpStays(s: State, step: Step)
    requires ScriptsLive(s) && CallsIssued(s) && NoLostWakeUp(s) && Enabled(s, step)
    ensures ScriptsLive(Apply(s, step)) && NoLostWakeUp(Apply(s, step))
  {
    if step.Check? || step.Push? || step.Raise? || step.Start? || step.HandlerReturns? {
      AnsweringKeepsLive(s, step);
      AnsweringKeepsWakeUp(s, step);
    } else if step.Swap? || step.Look? || step.Take? || step.RaiseAgain? || step.Drained? {
      PumpingKeepsLive(s, step);
      PumpingKeepsWakeUp(s, step);
    } else {
      LoadingKeepsLive(s, step);
      LoadingKeepsWakeUp(s, step);
    }
  }

  lemma ScopesStayAccounted(s: State, step: Step)
    requires Inv(s) && Enabled(s, step)
    ensures var t := Apply(s, step);
      forall id | id in t.scopes :: id in t.histories && CallsAccounted(t, id) && SettledInOrder(t.histories[id])
  {
    var t := Apply(s, step);
    forall id | id in t.scopes
      ensures id in t.histories && CallsAccounted(t, id) && SettledInOrder(t.histories[id])
    {
      AccountedStays(s, step, id);
      InOrderStays(s, step, id);
    }
  }

  ghost predicate Run(states: seq<State>, steps: seq<Step>) {
    && |states| == |steps| + 1 && states[0] == INITIAL
    && forall i | 0 <= i < |steps| :: Enabled(states[i], steps[i]) && states[i + 1] == Apply(states[i], steps[i])
  }

  lemma {:induction false} RunKeepsInv(states: seq<State>, steps: seq<Step>)
    requires Run(states, steps)
    ensures Inv(states[|steps|])
    decreases |steps|
  {
    if steps != [] {
      var last := |steps| - 1;
      RunKeepsInv(states[..|steps|], steps[..last]);
      InvStays(states[last], steps[last]);
    }
  }

  /** Nobody is in the middle of pumping or of answering. */
  predicate AtRest(s: State) { s.engine.Idle? && !SomeoneWillRaise(s) }

  /** No lost wake-up: whenever a run comes to rest with the flag lowered, no loaded
      script has an answer queued. */
  lemma LoweredFlagMeansNoAnswers(states: seq<State>, steps: seq<Step>)
    requires Run(states, steps)
    ensures var s := states[|steps|];
      AtRest(s) && !s.wake ==> forall scope | scope in s.loaded :: scope in s.scopes && s.scopes[scope].ready == []
  {
    RunKeepsInv(states, steps);
    var s := states[|steps|];
    if AtRest(s) && !s.wake {
      forall scope | scope in s.loaded ensures s.scopes[scope].ready == [] {
        var at :| 0 <= at < |s.loaded| && s.loaded[at] == scope;
        assert !WillLook(s, at);
      }
    }
  }

  /** Each call settles at most once, in the order the calls were answered, by the answer
      its resolver queued; and while its script is loaded none is forgotten: every call ever
      issued waits, settled, or had its handler or its Promise fail, and one that waits has a
      resolver still to settle or an answer queued. */
  lemma CallsSettleOnceInOrder(states: seq<State>, steps: seq<Step>, id: ScopeId)
    requires Run(states, steps) && id in states[|steps|].scopes
    ensures var s := states[|steps|];
      id in s.histories &&
      var scope, history := s.scopes[id], s.histories[id];
      && history.taken <= |history.queued|
      && Distinct(history.settled)
      && history.settled == Except(history.queued[..history.taken], history.failed + history.broken)
      && (forall answer | answer in history.settled :: answer.call < scope.nextId && answer.call !in history.failed)
      && (!scope.cancelled ==> forall call | call in scope.pending ::
            Unsettled(s, id, call) || call in Calls(scope.ready))
      && (!scope.cancelled ==> forall call: nat | call < scope.nextId ::
            call in scope.pending || call in Calls(history.settled) || call in history.failed || call in history.broken)
  {
    RunKeepsInv(states, steps);
    var s := states[|steps|];
    var history := s.histories[id];
    assert CallsAccounted(s, id);
    DistinctPart(history.queued, history.taken);
    DistinctExcept(history.queued[..history.taken], history.failed + history.broken);
    forall call | call in Calls(history.queued[..history.taken])
      ensures call in Calls(history.settled) || call in history.failed || call in history.broken
    {
      if call !in history.failed + history.broken {
        ExceptKeeps(history.queued[..history.taken], history.failed + history.broken, call);
      }
    }
  }

  lemma {:induction false} ExceptKeeps(answers: seq<Answer>, skipped: set<nat>, call: nat)
    requires call in Calls(answers) && call !in skipped
    ensures call in Calls(Except(answers, skipped))
    decreases |answers|
  {
    var answer :| answer in answers && answer.call == call;
    var rest, last := answers[..|answers| - 1], answers[|answers| - 1];
    if answer == last {
      assert last in Except(answers, skipped);
    } else {
      assert answers == rest + [last] && answer in rest;
      ExceptKeeps(rest, skipped, call);
      var kept :| kept in Except(rest, skipped) && kept.call == call;
      assert kept in Except(answers, skipped);
    }
  }

  lemma DistinctPart(answers: seq<Answer>, n: nat)
    requires Distinct(answers) && n <= |answers|
    ensures Distinct(answers[..n]) && forall answer | answer in answers[..n] :: answer in answers
  {}

  lemma {:induction false} DistinctExcept(answers: seq<Answer>, skipped: set<nat>)
    requires Distinct(answers)
    ensures Distinct(Except(answers, skipped))
    ensures forall answer | answer in Except(answers, skipped) :: answer in answers && answer.call !in skipped
    decreases |answers|
  {
    if answers != [] {
      var last := answers[|answers| - 1];
      DistinctExcept(answers[..|answers| - 1], skipped);
      forall answer | answer in answers[..|answers| - 1] ensures answer.call != last.call {
        var i :| 0 <= i < |answers| - 1 && answers[i] == answer;
      }
    }
  }

  /** Nothing of scope `id` is queued or waits, and its history is `history`. */
  predicate Silent(s: State, id: ScopeId, history: History) {
    && id in s.scopes && s.scopes[id].cancelled && s.scopes[id].ready == [] && s.scopes[id].pending == map[]
    && id in s.histories && s.histories[id] == history
  }

  /** After a script's calls are cancelled nothing of it is queued, waits or settles. */
  lemma {:induction false} CancelledStaysSilent(states: seq<State>, steps: seq<Step>, from: nat, id: ScopeId)
    requires Run(states, steps) && from <= |steps|
    requires id in states[from].scopes && states[from].scopes[id].cancelled
    ensures id in states[from].histories && Silent(states[|steps|], id, states[from].histories[id])
    decreases |steps|
  {
    if from == |steps| {
      RunKeepsInv(states, steps);
      CancelledIsSilent(states[from], id);
    } else {
      var last := |steps| - 1;
      CancelledStaysSilent(states[..|steps|], steps[..last], from, id);
      RunKeepsInv(states[..|steps|], steps[..last]);
      SilentStep(states[last], steps[last], id, states[from].histories[id]);
    }
  }

  lemma CancelledIsSilent(s: State, id: ScopeId)
    requires Inv(s) && id in s.scopes && s.scopes[id].cancelled
    ensures id in s.histories && Silent(s, id, s.histories[id])
  {
    assert CallsAccounted(s, id);
  }

  lemma SilentStep(s: State, step: Step, id: ScopeId, history: History)
    requires Inv(s) && Enabled(s, step) && Silent(s, id, history)
    ensures Silent(Apply(s, step), id, history)
  {
    assert CallsAccounted(s, id);
    CancelledStep(s, step, id);
    InvStays(s, step);
    CancelledIsSilent(Apply(s, step), id);
  }

  lemma CancelledStep(s: State, step: Step, id: ScopeId)
    requires Enabled(s, step) && id in s.scopes && s.scopes[id].cancelled && id in s.histories && CallsAccounted(s, id)
    ensures id in Apply(s, step).scopes && id in Apply(s, step).histories
    ensures Apply(s, step).scopes[id].cancelled && Apply(s, step).histories[id] == s.histories[id]
  {
    if Concerns(s, step) == Some(id) {
      match step
      case Push(_, _, _) =>
      case Start(_, _) =>
      case HandlerReturns(_) =>
      case Take(_) =>
      case _ =>
    } else {
      OtherScopesStay(s, step, id);
    }
  }
}
