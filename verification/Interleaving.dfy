// The supervisor's calls, taken apart into their sends and spawns, interleaved with everything the network and
// the workers do meanwhile.

module Interleaving {
  import opened Prelude
  import opened Protocol
  import opened Ownership
  import opened Supervision
  import opened Fleet

  // ---------------------------------------------------------------------------
  // A call as a run of actions
  // ---------------------------------------------------------------------------

  /** The takes of an unsubscribe that visits the workers in the given order. */
  function TakesFor(s: SupervisorValue, ids: seq<TokenId>, alive: string -> bool, order: seq<string>): seq<Action> {
    if order == [] then []
    else
      var w := order[|order| - 1];
      TakesFor(s, ids, alive, order[..|order| - 1])
        + if w in s.workers && alive(w) && Held(s.workers[w].ids, ids) != [] then [Take(w, Held(s.workers[w].ids, ids))]
          else []
  }

  /** The mappings of a request are recorded before the first send. */
  function StartOf(s: SupervisorValue, call: Call): SupervisorValue {
    match call
    case MappingCall(mappings, _, _) => s.(tokens := Record(s.tokens, NewMappings(s.workers, mappings)))
    case _ => s
  }

  function ActionsOf(s: SupervisorValue, called: Called, order: seq<string>): seq<Action> {
    match called.call
    case SubscribeCall(_, gives, spawns) => gives + spawns
    case MappingCall(_, gives, spawns) => gives + spawns
    case UnsubscribeCall(ids) => TakesFor(s, ids, called.alive, order)
  }

  /** What the methods promise about the call; `order` is how the map of workers is walked. */
  ghost predicate MayBegin(s: SupervisorValue, max: nat, called: Called, order: seq<string>) {
    IsCall(s, max, called.call, called.alive) && NoDuplicates(order) && SetOf(order) == s.workers.Keys
  }

  lemma {:induction false} TakesUnsubscribe(
    s: SupervisorValue, ids: seq<TokenId>, alive: string -> bool, order: seq<string>)
    requires NoDuplicates(order) && SetOf(order) <= s.workers.Keys
    ensures RunActions(s, TakesFor(s, ids, alive, order)) == UnsubscribedFrom(s, ids, alive, SetOf(order))
  {
    if order == [] {
      UnsubscribedNobody(s, ids, alive);
    } else {
      var front, w := order[..|order| - 1], order[|order| - 1];
      assert order == front + [w];
      SetOfAppend(front, [w]);
      assert w in SetOf(order) && w !in SetOf(front);
      TakesUnsubscribe(s, ids, alive, front);
      UnsubscribeStep(s, ids, alive, SetOf(front), w);
      assert SetOf(order) == SetOf(front) + {w};
      var takes := TakesFor(s, ids, alive, front);
      if alive(w) && Held(s.workers[w].ids, ids) != [] {
        ActMore(s, takes, Take(w, Held(s.workers[w].ids, ids)));
      } else {
        assert takes + [] == takes;
      }
    }
  }

  /** A call has the effect of its sends and spawns, one after the other. */
  lemma CallIsActions(s: SupervisorValue, max: nat, called: Called, order: seq<string>)
    requires MayBegin(s, max, called, order)
    ensures RunActions(StartOf(s, called.call), ActionsOf(s, called, order))
         == AfterCall(s, called.call, called.alive)
  {
    match called.call {
      case SubscribeCall(_, gives, spawns) => RunActionsInParts(s, gives, spawns);
      case MappingCall(_, gives, spawns) => RunActionsInParts(StartOf(s, called.call), gives, spawns);
      case UnsubscribeCall(ids) =>
        TakesUnsubscribe(s, ids, called.alive, order);
        UnsubscribedEverybody(s, ids, called.alive);
    }
  }

  // ---------------------------------------------------------------------------
  // The interleaved system
  // ---------------------------------------------------------------------------

  /** The fleet, and the call in progress: where it started, what it has done, what it has still to do. */
  datatype SystemValue =
    SystemValue(fleet: FleetValue, start: SupervisorValue, done: seq<Action>, todo: seq<Action>)

  datatype SystemEvent = Begin(called: Called, order: seq<string>) | Proceed | Happen(event: FleetEvent)

  const EMPTY_SYSTEM := SystemValue(EMPTY_FLEET, EMPTY_FLEET.sup, [], [])

  predicate IsPossible(f: FleetValue, action: Action) {
    action.Spawn? || Accepts(f, action.worker)
  }

  /**
   * Calls come one at a time. Connects, losses and deliveries happen at any moment, also between two sends of
   * a call; a shutdown is sent between calls. Events that cannot happen leave the system alone.
   */
  ghost function NextSystem(max: nat, v: SystemValue, e: SystemEvent): SystemValue {
    match e
    case Begin(called, order) =>
      if v.todo == [] && MayBegin(v.fleet.sup, max, called, order) then
        var start := StartOf(v.fleet.sup, called.call);
        SystemValue(v.fleet.(sup := start), start, [], ActionsOf(v.fleet.sup, called, order))
      else v
    case Proceed =>
      if v.todo != [] && IsPossible(v.fleet, v.todo[0]) then
        SystemValue(Next(v.fleet, Supervise(v.todo[0])), v.start, v.done + [v.todo[0]], v.todo[1..])
      else v
    case Happen(event) =>
      if event.Supervise? || (event.SendShutdown? && v.todo != []) then v
      else v.(fleet := Next(v.fleet, event))
  }

  ghost function RunSystem(max: nat, events: seq<SystemEvent>): SystemValue {
    if events == [] then EMPTY_SYSTEM
    else NextSystem(max, RunSystem(max, events[..|events| - 1]), events[|events| - 1])
  }

  /** The event is not the start of a call that asks for a new id twice. */
  ghost predicate AsksOnce(v: SystemValue, e: SystemEvent) {
    e.Begin? && v.todo == [] ==> NoDuplicates(Requested(v.fleet.sup, e.called.call))
  }

  /** No call of the run asks for a new id twice. */
  ghost predicate DistinctCalls(max: nat, events: seq<SystemEvent>) {
    events != [] ==>
      && DistinctCalls(max, events[..|events| - 1])
      && AsksOnce(RunSystem(max, events[..|events| - 1]), events[|events| - 1])
  }

  function IdsNamed(call: Call): seq<TokenId> {
    match call
    case SubscribeCall(ids, _, _) => ids
    case MappingCall(mappings, _, _) => IdsOf(mappings)
    case UnsubscribeCall(_) => []
  }

  /** Callers that name no id twice within one request are on the safe side, whatever the state is. */
  lemma {:induction false} DistinctIdsSuffice(max: nat, events: seq<SystemEvent>)
    requires forall i :: 0 <= i < |events| && events[i].Begin? ==> NoDuplicates(IdsNamed(events[i].called.call))
    ensures DistinctCalls(max, events)
  {
    if events != [] {
      var front, e := events[..|events| - 1], events[|events| - 1];
      DistinctIdsSuffice(max, front);
      if e.Begin? {
        NewIdsDistinct(RunSystem(max, front).fleet.sup.workers, IdsNamed(e.called.call));
      }
    }
  }

  // ---------------------------------------------------------------------------
  // The invariant
  // ---------------------------------------------------------------------------

  /** Every give of the run of actions hands out distinct ids that its worker does not have at that moment. */
  ghost predicate FreshActions(start: SupervisorValue, actions: seq<Action>) {
    forall i :: 0 <= i < |actions| && actions[i].Give? ==> FreshGive(RunActions(start, actions[..i]), actions[i])
  }

  ghost predicate Sound(max: nat, s: SupervisorValue) {
    SupervisorInvariant(s, max) && OwnedOnce(s.workers)
  }

  ghost predicate AllInOrder(workers: Workers) {
    forall w :: w in workers ==> InOrder(workers[w])
  }

  /** The call in progress is as far as its actions say, and will leave a sound supervisor behind. */
  ghost predicate CallUnderWay(max: nat, v: SystemValue) {
    && v.fleet.sup == RunActions(v.start, v.done)
    && FreshActions(v.start, v.done + v.todo)
    && Sound(max, RunActions(v.start, v.done + v.todo))
  }

  ghost predicate SystemInvariant(max: nat, v: SystemValue) {
    && FleetInvariant(v.fleet)
    && AllInOrder(v.fleet.sup.workers)
    && (if v.todo == [] then Sound(max, v.fleet.sup) else CallUnderWay(max, v))
  }

  lemma ActionAt(first: seq<Action>, second: seq<Action>, i: nat)
    requires i < |first + second|
    ensures (first + second)[i] == if i < |first| then first[i] else second[i - |first|]
  {
  }

  lemma AllocationIsFresh(
    s: SupervisorValue, ids: seq<TokenId>, max: nat, alive: string -> bool, gives: seq<Action>, spawns: seq<Action>)
    requires Allocates(s, NewIds(s.workers, ids), max, alive, gives, spawns)
    requires NoDuplicates(NewIds(s.workers, ids))
    ensures FreshActions(s, gives + spawns)
  {
    var actions := gives + spawns;
    forall i | 0 <= i < |actions| && actions[i].Give?
      ensures FreshGive(RunActions(s, actions[..i]), actions[i])
    {
      ActionAt(gives, spawns, i);
      assert actions[..i] == gives[..i] && actions[i] == gives[i];
      AllocationsAreFresh(s, ids, max, alive, gives, spawns, i);
    }
  }

  lemma {:induction false} TakesOnly(
    s: SupervisorValue, ids: seq<TokenId>, alive: string -> bool, order: seq<string>)
    ensures forall i :: 0 <= i < |TakesFor(s, ids, alive, order)| ==> TakesFor(s, ids, alive, order)[i].Take?
  {
    if order != [] {
      TakesOnly(s, ids, alive, order[..|order| - 1]);
    }
  }

  /** A request for distinct new ids makes fresh gives only. */
  lemma CallIsFresh(s: SupervisorValue, max: nat, called: Called, order: seq<string>)
    requires MayBegin(s, max, called, order) && NoDuplicates(Requested(s, called.call))
    ensures FreshActions(StartOf(s, called.call), ActionsOf(s, called, order))
  {
    match called.call {
      case SubscribeCall(ids, gives, spawns) =>
        AllocationIsFresh(s, ids, max, called.alive, gives, spawns);
      case MappingCall(mappings, gives, spawns) =>
        NewMappingsIds(s.workers, mappings);
        AllocationIsFresh(StartOf(s, called.call), IdsOf(mappings), max, called.alive, gives, spawns);
      case UnsubscribeCall(ids) => TakesOnly(s, ids, called.alive, order);
    }
  }

  lemma RecordingKeepsFleet(f: FleetValue, s: SupervisorValue)
    requires FleetInvariant(f) && s.workers == f.sup.workers && s.counter == f.sup.counter
    ensures FleetInvariant(f.(sup := s))
  {
  }

  lemma BeginKeepsInvariant(max: nat, v: SystemValue, called: Called, order: seq<string>)
    requires SystemInvariant(max, v) && v.todo == [] && MayBegin(v.fleet.sup, max, called, order)
    requires NoDuplicates(Requested(v.fleet.sup, called.call))
    ensures SystemInvariant(max, NextSystem(max, v, Begin(called, order)))
  {
    var s := v.fleet.sup;
    var start, actions := StartOf(s, called.call), ActionsOf(s, called, order);
    CallIsActions(s, max, called, order);
    CallKeepsInvariant(s, max, called.call, called.alive);
    CallIsFresh(s, max, called, order);
    RecordingKeepsFleet(v.fleet, start);
    assert [] + actions == actions;
  }

  /** One more action done, one less to do; after the last one the supervisor is what the call makes of it. */
  lemma CallMovesOn(max: nat, v: SystemValue, after: SystemValue)
    requires v.todo != [] && CallUnderWay(max, v)
    requires after.fleet.sup == Act(v.fleet.sup, v.todo[0])
    requires after.start == v.start && after.done == v.done + [v.todo[0]] && after.todo == v.todo[1..]
    ensures if after.todo == [] then Sound(max, after.fleet.sup) else CallUnderWay(max, after)
  {
    ActMore(v.start, v.done, v.todo[0]);
    assert after.done + after.todo == v.done + v.todo;
    assert after.todo == [] ==> after.done == v.done + v.todo;
  }

  lemma NextActionIsFresh(start: SupervisorValue, done: seq<Action>, todo: seq<Action>)
    requires todo != [] && FreshActions(start, done + todo)
    ensures todo[0].Give? ==> FreshGive(RunActions(start, done), todo[0])
  {
    assert (done + todo)[..|done|] == done && (done + todo)[|done|] == todo[0];
  }

  lemma ProceedKeepsInvariant(max: nat, v: SystemValue)
    requires SystemInvariant(max, v) && v.todo != [] && IsPossible(v.fleet, v.todo[0])
    ensures SystemInvariant(max, NextSystem(max, v, Proceed))
  {
    NextActionIsFresh(v.start, v.done, v.todo);
    NextKeepsInvariant(v.fleet, Supervise(v.todo[0]));
    NextKeepsOrder(v.fleet, Supervise(v.todo[0]));
    CallMovesOn(max, v, NextSystem(max, v, Proceed));
  }

  /** Sending a shutdown changes nobody's ids. */
  lemma ShutdownKeepsSound(max: nat, f: FleetValue, w: string)
    requires Sound(max, f.sup)
    ensures Sound(max, Next(f, SendShutdown(w)).sup)
  {
    SameIdsKeepInvariant(f.sup, Next(f, SendShutdown(w)).sup, max);
  }

  lemma HappenKeepsInvariant(max: nat, v: SystemValue, event: FleetEvent)
    requires SystemInvariant(max, v) && !event.Supervise? && (event.SendShutdown? ==> v.todo == [])
    ensures SystemInvariant(max, v.(fleet := Next(v.fleet, event)))
  {
    NextKeepsInvariant(v.fleet, event);
    NextKeepsOrder(v.fleet, event);
    if event.SendShutdown? {
      ShutdownKeepsSound(max, v.fleet, event.to);
    }
  }

  /** In every interleaving of calls that ask for each new id once, the system keeps its invariant. */
  lemma {:induction false} SystemAlwaysSound(max: nat, events: seq<SystemEvent>)
    requires DistinctCalls(max, events)
    ensures SystemInvariant(max, RunSystem(max, events))
  {
    if events == [] {
      assert Sound(max, EMPTY_FLEET.sup);
    } else {
      var front, e := events[..|events| - 1], events[|events| - 1];
      var v := RunSystem(max, front);
      SystemAlwaysSound(max, front);
      if NextSystem(max, v, e) != v {
        match e {
          case Begin(called, order) => BeginKeepsInvariant(max, v, called, order);
          case Proceed => ProceedKeepsInvariant(max, v);
          case Happen(event) => HappenKeepsInvariant(max, v, event);
        }
      }
    }
  }

  /**
   * At every moment, also in the middle of a call, and however often connections were lost: once a worker has
   * obeyed what is in its channel, its list is the supervisor's list for it, id by id and in the same order.
   */
  lemma EndToEndSequence(max: nat, events: seq<SystemEvent>, w: string)
    requires DistinctCalls(max, events) && w in RunSystem(max, events).fleet.sup.workers
    ensures var f := RunSystem(max, events).fleet;
      && w in f.peers && f.peers[w].read <= |f.sup.workers[w].log|
      && Replay(f.peers[w].worker.ids, Pending(f, w)) == f.sup.workers[w].ids
  {
    SystemAlwaysSound(max, events);
    var f := RunSystem(max, events).fleet;
    assert PeerAgrees(f.sup.workers[w], f.peers[w]) && InOrder(f.sup.workers[w]);
    DrainedPeer(f.sup.workers[w], f.peers[w]);
  }

  /** Between calls: unique names, capacity, mappings only for subscribed ids, and one owner per id. */
  lemma SoundBetweenCalls(max: nat, events: seq<SystemEvent>)
    requires DistinctCalls(max, events) && RunSystem(max, events).todo == []
    ensures SupervisorInvariant(RunSystem(max, events).fleet.sup, max)
    ensures OwnedOnce(RunSystem(max, events).fleet.sup.workers)
  {
    SystemAlwaysSound(max, events);
  }
}
