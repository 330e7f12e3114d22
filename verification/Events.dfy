/** Event handlers (`ctx.on`, `ctx.off` in assets/context_prelude.js) and the engine's copy
    of them (src/runner/events.rs). */
module Events {
  import opened Wrappers

  /** A handler function, by identity. */
  type Handler = nat

  datatype Listened = Listened(event: string, handlers: seq<Handler>)

  // ------------------------------------------------------------ what a script means

  /** The handlers a script registered, by event, in registration order. */
  type Registered = map<string, seq<Handler>>

  function On(registered: Registered, event: string, handler: Handler): Registered {
    registered[event := (if event in registered then registered[event] else []) + [handler]]
  }

  function Off(registered: Registered, event: string, handler: Handler): Registered {
    if event !in registered || handler !in registered[event] then registered
    else
      var left := Without(registered[event], handler);
      if left == [] then registered - {event} else registered[event := left]
  }

  /** `handlers` but for the first occurrence of `handler`. */
  function Without(handlers: seq<Handler>, handler: Handler): seq<Handler> {
    if handlers == [] then []
    else if handlers[0] == handler then handlers[1..]
    else [handlers[0]] + Without(handlers[1..], handler)
  }

  predicate NoneEmpty(registered: Registered) {
    forall event | event in registered :: registered[event] != []
  }

  // --------------------------------------------------------------- the engine's copy

  /** One entry per event, in no particular order. */
  predicate Unique(listened: seq<Listened>) {
    forall i, j | 0 <= i < j < |listened| :: listened[i].event != listened[j].event
  }

  /** `listened` holds exactly the registered events and their handlers. */
  predicate Mirrors(listened: seq<Listened>, registered: Registered) {
    && Unique(listened)
    && (forall entry | entry in listened :: entry.event in registered && registered[entry.event] == entry.handlers)
    && (forall event | event in registered :: Listened(event, registered[event]) in listened)
  }

  class EventHandlers {
    var handlers: Registered
    var listened: seq<Listened>

    constructor ()
      ensures Valid() && handlers == map[]
    {
      handlers, listened := map[], [];
    }

    ghost predicate Valid()
      reads this
    {
      Mirrors(listened, handlers) && NoneEmpty(handlers)
    }

    /** `ctx.on`. */
    method Register(event: string, handler: Handler)
      requires Valid()
      modifies this
      ensures Valid() && handlers == On(old(handlers), event, handler)
    {
      var list := if event in handlers then handlers[event] else [];
      list := list + [handler];
      handlers := handlers[event := list];
      Record(event, Some(list), old(handlers));
    }

    /** `ctx.off`. */
    method Unregister(event: string, handler: Handler)
      requires Valid()
      modifies this
      ensures Valid() && handlers == Off(old(handlers), event, handler)
    {
      var list := if event in handlers then handlers[event] else [];
      var index := IndexOf(list, handler);
      if index.None? {
        return;
      }
      list := list[..index.value] + list[index.value + 1..];
      if list == [] {
        handlers := handlers - {event};
        Record(event, None, old(handlers));
      } else {
        handlers := handlers[event := list];
        Record(event, Some(list), old(handlers));
      }
    }

    method IndexOf(list: seq<Handler>, handler: Handler) returns (index: Option<nat>)
      ensures index.None? <==> handler !in list
      ensures index.Some? ==>
        index.value < |list| && list[..index.value] + list[index.value + 1..] == Without(list, handler)
    {
      for i := 0 to |list|
        invariant forall k | 0 <= k < i :: list[k] != handler
      {
        if list[i] == handler {
          WithoutAt(list, i, handler);
          return Some(i);
        }
      }
      index := None;
    }

    /** Stores the list of one event, or forgets the event; the last entry takes the place
        of one removed. */
    method Record(event: string, list: Option<seq<Handler>>, ghost before: Registered)
      requires Mirrors(listened, before)
      modifies this`listened
      ensures Mirrors(listened, if list.Some? then before[event := list.value] else before - {event})
    {
      var position := Position(event);
      if position.Some? && list.Some? {
        listened := listened[position.value := Listened(event, list.value)];
        StillMirrors(old(listened), before, position.value, event, list.value);
      } else if list.Some? {
        listened := listened + [Listened(event, list.value)];
        assert forall i | 0 <= i < |old(listened)| :: old(listened)[i] in old(listened);
      } else if position.Some? {
        var last := |listened| - 1;
        listened := listened[position.value := listened[last]][..last];
        SwapRemoved(old(listened), before, position.value);
      } else {
        assert before - {event} == before;
      }
    }

    method Position(event: string) returns (position: Option<nat>)
      ensures position.Some? ==> position.value < |listened| && listened[position.value].event == event
      ensures position.None? ==> forall entry | entry in listened :: entry.event != event
    {
      for i := 0 to |listened|
        invariant forall k | 0 <= k < i :: listened[k].event != event
      {
        if listened[i].event == event {
          return Some(i);
        }
      }
      position := None;
    }

    /** What a delivery takes: the list as it is now, which no later change alters. */
    method Snapshot(event: string) returns (taken: Option<seq<Handler>>)
      requires Valid()
      ensures taken == if event in handlers then Some(handlers[event]) else None
    {
      var position := Position(event);
      if position.None? {
        return None;
      }
      assert listened[position.value] in listened;
      taken := Some(listened[position.value].handlers);
    }

    method Listens(event: string) returns (listens: bool)
      requires Valid()
      ensures listens <==> event in handlers
    {
      var taken := Snapshot(event);
      listens := taken.Some?;
    }
  }

  lemma {:induction false} WithoutAt(list: seq<Handler>, at: nat, handler: Handler)
    requires at < |list| && list[at] == handler && forall k | 0 <= k < at :: list[k] != handler
    ensures Without(list, handler) == list[..at] + list[at + 1..]
    decreases |list|
  {
    if at > 0 {
      WithoutAt(list[1..], at - 1, handler);
      assert list[..at] == [list[0]] + list[1..][..at - 1];
      assert list[1..][at..] == list[at + 1..];
    }
  }

  lemma StillMirrors(listened: seq<Listened>, registered: Registered, at: nat, event: string, list: seq<Handler>)
    requires Mirrors(listened, registered) && at < |listened| && listened[at].event == event
    ensures Mirrors(listened[at := Listened(event, list)], registered[event := list])
  {
    var after := listened[at := Listened(event, list)];
    forall entry | entry in after
      ensures entry.event in registered[event := list] && registered[event := list][entry.event] == entry.handlers
    {
      var i :| 0 <= i < |after| && after[i] == entry;
      if i != at { assert listened[i] in listened; }
    }
    forall other | other in registered && other != event ensures Listened(other, registered[other]) in after {
      var i :| 0 <= i < |listened| && listened[i] == Listened(other, registered[other]);
      assert after[i] == listened[i];
    }
    assert after[at] in after;
  }

  /** Moving the last entry into the place of a removed one loses no other. */
  lemma SwapRemoved(listened: seq<Listened>, registered: Registered, at: nat)
    requires Mirrors(listened, registered) && at < |listened|
    ensures Mirrors(listened[at := listened[|listened| - 1]][..|listened| - 1], registered - {listened[at].event})
  {
    var last := |listened| - 1;
    var after := listened[at := listened[last]][..last];
    forall entry | entry in after
      ensures entry.event in registered && registered[entry.event] == entry.handlers && entry.event != listened[at].event
    {
      var i :| 0 <= i < |after| && after[i] == entry;
      var from := if i == at then last else i;
      assert listened[from] in listened;
    }
    forall event | event in registered && event != listened[at].event
      ensures Listened(event, registered[event]) in after
    {
      var i :| 0 <= i < |listened| && listened[i] == Listened(event, registered[event]);
      assert after[if i == last then at else i] == listened[i];
    }
  }
}
