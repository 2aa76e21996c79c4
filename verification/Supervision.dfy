// The supervisor: distributes ids over workers of bounded capacity and spawns workers for the rest.
// `alive` says which workers' channels still accept a command during a call.

module Supervision {
  import opened Prelude
  import opened Protocol
  import opened Ownership

  // ---------------------------------------------------------------------------
  // The loops, as values
  // ---------------------------------------------------------------------------

  /** The workers still to be visited have not been given anything. */
  ghost predicate Unvisited(start: Workers, now: Workers, todo: set<string>, gives: seq<Action>) {
    && todo <= start.Keys == now.Keys
    && (forall w :: w in todo ==> now[w] == start[w])
    && (forall i :: 0 <= i < |gives| ==> gives[i].Give? && gives[i].worker !in todo)
  }

  /** If anything remains, the live workers visited so far are full. */
  ghost predicate VisitedAreFull(
    now: Workers, max: nat, alive: string -> bool, todo: set<string>, remaining: seq<TokenId>)
  {
    remaining != [] ==> forall w :: w in now && w !in todo && alive(w) ==> |now[w].ids| >= max
  }

  ghost predicate Conserved(added: seq<TokenId>, gives: seq<Action>, remaining: seq<TokenId>) {
    && multiset(Handed(gives)) + multiset(remaining) == multiset(added)
    && (added == [] ==> remaining == [])
  }

  ghost predicate FillState(
    start: SupervisorValue, max: nat, alive: string -> bool, added: seq<TokenId>, todo: set<string>,
    now: SupervisorValue, gives: seq<Action>, remaining: seq<TokenId>)
  {
    && now == RunActions(start, gives)
    && GivesTopUp(start.workers, max, alive, gives)
    && Unvisited(start.workers, now.workers, todo, gives)
    && VisitedAreFull(now.workers, max, alive, todo, remaining)
    && Conserved(added, gives, remaining)
  }

  ghost predicate Offered(
    before: SupervisorValue, max: nat, alive: string -> bool, w: string, remaining: seq<TokenId>,
    given: seq<Action>, rest: seq<TokenId>)
    requires w in before.workers
  {
    var room := max - |before.workers[w].ids|;
    var n := if room < |remaining| then room else |remaining|;
    if room <= 0 then given == [] && rest == remaining
    else if alive(w) then given == [Give(w, remaining[..n])] && rest == remaining[n..]
    else given == [] && rest == remaining[n..] + remaining[..n]
  }

  lemma ConservedGive(added: seq<TokenId>, gives: seq<Action>, remaining: seq<TokenId>, w: string, n: nat)
    requires Conserved(added, gives, remaining) && n <= |remaining|
    ensures Conserved(added, gives + [Give(w, remaining[..n])], remaining[n..])
  {
    assert (gives + [Give(w, remaining[..n])])[..|gives|] == gives;
    assert remaining == remaining[..n] + remaining[n..];
  }

  lemma TopUpMore(
    workers: Workers, max: nat, alive: string -> bool, todo: set<string>, gives: seq<Action>, give: Action)
    requires GivesTopUp(workers, max, alive, gives)
    requires forall i :: 0 <= i < |gives| ==> gives[i].worker !in todo
    requires give.Give? && give.worker in todo && give.worker in workers && alive(give.worker)
    requires 0 < |give.ids| && |workers[give.worker].ids| + |give.ids| <= max
    ensures GivesTopUp(workers, max, alive, gives + [give])
  {
  }

  /** A worker that took its share leaves nothing, or is full. */
  lemma GiveStep(
    start: SupervisorValue, max: nat, alive: string -> bool, added: seq<TokenId>, todo: set<string>,
    before: SupervisorValue, gives: seq<Action>, remaining: seq<TokenId>, w: string, n: nat)
    requires FillState(start, max, alive, added, todo, before, gives, remaining)
    requires w in todo && alive(w) && 0 < n <= |remaining| && |before.workers[w].ids| + n <= max
    requires n < |remaining| ==> |before.workers[w].ids| + n == max
    ensures FillState(start, max, alive, added, todo - {w}, Act(before, Give(w, remaining[..n])),
      gives + [Give(w, remaining[..n])], remaining[n..])
  {
    var give := Give(w, remaining[..n]);
    var after := Act(before, give);
    ActMore(start, gives, give);
    ConservedGive(added, gives, remaining, w, n);
    TopUpMore(start.workers, max, alive, todo, gives, give);
    assert after.workers.Keys == before.workers.Keys;
    assert forall v :: v in before.workers && v != w ==> after.workers[v] == before.workers[v];
    assert |after.workers[w].ids| == |before.workers[w].ids| + n;
  }

  /** A worker that took nothing has no room or a closed channel. */
  lemma KeepStep(
    start: SupervisorValue, max: nat, alive: string -> bool, added: seq<TokenId>, todo: set<string>,
    before: SupervisorValue, gives: seq<Action>, remaining: seq<TokenId>, w: string, rest: seq<TokenId>)
    requires FillState(start, max, alive, added, todo, before, gives, remaining)
    requires w in todo && (alive(w) ==> |before.workers[w].ids| >= max)
    requires remaining != [] && multiset(rest) == multiset(remaining)
    ensures FillState(start, max, alive, added, todo - {w}, before, gives, rest)
  {
  }

  lemma FillStep(
    start: SupervisorValue, max: nat, alive: string -> bool, added: seq<TokenId>, todo: set<string>,
    before: SupervisorValue, gives: seq<Action>, remaining: seq<TokenId>,
    w: string, given: seq<Action>, rest: seq<TokenId>)
    requires FillState(start, max, alive, added, todo, before, gives, remaining)
    requires w in todo && remaining != [] && Offered(before, max, alive, w, remaining, given, rest)
    ensures FillState(start, max, alive, added, todo - {w}, RunActions(before, given), gives + given, rest)
  {
    var room := max - |before.workers[w].ids|;
    var n := if room < |remaining| then room else |remaining|;
    if room > 0 && alive(w) {
      ActMore(before, [], Give(w, remaining[..n]));
      GiveStep(start, max, alive, added, todo, before, gives, remaining, w, n);
    } else {
      assert gives + given == gives;
      if room > 0 {
        assert remaining == remaining[..n] + remaining[n..];
      }
      KeepStep(start, max, alive, added, todo, before, gives, remaining, w, rest);
    }
  }

  /** Spawning so far: the chunks in order, all of them full if anything remains. */
  ghost predicate SpawnState(max: nat, added: seq<TokenId>, spawns: seq<Action>, remaining: seq<TokenId>) {
    && SpawnsAreFull(max, spawns)
    && (remaining != [] ==> forall i :: 0 <= i < |spawns| ==> |spawns[i].ids| == max)
    && Handed(spawns) + remaining == added
    && (spawns != [] ==> added != [])
  }

  lemma SpawnStep(max: nat, added: seq<TokenId>, spawns: seq<Action>, remaining: seq<TokenId>, n: nat)
    requires SpawnState(max, added, spawns, remaining) && remaining != [] && max > 0
    requires n == if max < |remaining| then max else |remaining|
    ensures SpawnState(max, added, spawns + [Action.Spawn(remaining[..n])], remaining[n..])
  {
    var more := spawns + [Action.Spawn(remaining[..n])];
    assert more[..|spawns|] == spawns;
    assert Handed(more) == Handed(spawns) + remaining[..n];
    assert remaining == remaining[..n] + remaining[n..];
  }

  /** Unsubscribing at some of the workers only. */
  function UnsubscribedFrom(
    s: SupervisorValue, ids: seq<TokenId>, alive: string -> bool, done: set<string>): SupervisorValue
  {
    SupervisorValue(
      map w | w in s.workers :: if w in done then Unsubscribed(s.workers[w], ids, alive(w)) else s.workers[w],
      s.counter,
      s.tokens - (set w, id | w in s.workers && w in done && alive(w) && id in Held(s.workers[w].ids, ids) :: id))
  }

  lemma UnsubscribedNobody(s: SupervisorValue, ids: seq<TokenId>, alive: string -> bool)
    ensures UnsubscribedFrom(s, ids, alive, {}) == s
  {
    var after := UnsubscribedFrom(s, ids, alive, {});
    assert after.workers == s.workers && after.tokens == s.tokens;
  }

  lemma UnsubscribedEverybody(s: SupervisorValue, ids: seq<TokenId>, alive: string -> bool)
    ensures UnsubscribedFrom(s, ids, alive, s.workers.Keys) == UnsubscribedAll(s, ids, alive)
  {
    var all, from := UnsubscribedAll(s, ids, alive), UnsubscribedFrom(s, ids, alive, s.workers.Keys);
    assert all.workers == from.workers && all.tokens == from.tokens;
  }

  /** Visiting one more worker is one take of the ids it holds, or nothing. */
  lemma UnsubscribeStep(s: SupervisorValue, ids: seq<TokenId>, alive: string -> bool, done: set<string>, w: string)
    requires w in s.workers && w !in done
    ensures var before, gone := UnsubscribedFrom(s, ids, alive, done), Held(s.workers[w].ids, ids);
      && before.workers[w] == s.workers[w]
      && UnsubscribedFrom(s, ids, alive, done + {w})
         == if gone == [] || !alive(w) then before else Act(before, Take(w, gone))
  {
    var before, after := UnsubscribedFrom(s, ids, alive, done), UnsubscribedFrom(s, ids, alive, done + {w});
    var gone := Held(s.workers[w].ids, ids);
    assert after.workers == before.workers[w := Unsubscribed(s.workers[w], ids, alive(w))];
    forall id | id in s.tokens
      ensures id in after.tokens <==> id in before.tokens && !(alive(w) && id in gone)
    {
      if id !in before.tokens {
        var v :| v in s.workers && v in done && alive(v) && id in Held(s.workers[v].ids, ids);
        assert v in done + {w};
      } else if alive(w) && id in gone {
        assert w in done + {w};
      }
    }
    assert after.tokens == if gone == [] || !alive(w) then before.tokens else before.tokens - SetOf(gone);
  }

  // ---------------------------------------------------------------------------
  // Mappings
  // ---------------------------------------------------------------------------

  function IdsOf(mappings: seq<TokenMapping>): seq<TokenId> {
    if mappings == [] then []
    else IdsOf(mappings[..|mappings| - 1]) + [mappings[|mappings| - 1].clobTokenId]
  }

  function NewMappings(workers: Workers, mappings: seq<TokenMapping>): seq<TokenMapping> {
    if mappings == [] then []
    else
      NewMappings(workers, mappings[..|mappings| - 1])
        + if IsSubscribed(workers, mappings[|mappings| - 1].clobTokenId) then [] else [mappings[|mappings| - 1]]
  }

  function Record(tokens: map<TokenId, TokenMapping>, mappings: seq<TokenMapping>): map<TokenId, TokenMapping> {
    if mappings == [] then tokens
    else Record(tokens, mappings[..|mappings| - 1])[mappings[|mappings| - 1].clobTokenId := mappings[|mappings| - 1]]
  }

  lemma {:induction false} NewMappingsIds(workers: Workers, mappings: seq<TokenMapping>)
    ensures IdsOf(NewMappings(workers, mappings)) == NewIds(workers, IdsOf(mappings))
  {
    if mappings != [] {
      var front, last := mappings[..|mappings| - 1], mappings[|mappings| - 1];
      var kept := NewMappings(workers, front);
      NewMappingsIds(workers, front);
      assert (kept + [last])[..|kept|] == kept && kept + [] == kept;
      assert IdsOf(mappings)[..|IdsOf(mappings)| - 1] == IdsOf(front);
    }
  }

  lemma {:induction false} RecordedKeys(tokens: map<TokenId, TokenMapping>, mappings: seq<TokenMapping>)
    ensures Record(tokens, mappings).Keys == tokens.Keys + SetOf(IdsOf(mappings))
  {
    if mappings != [] {
      var front := mappings[..|mappings| - 1];
      RecordedKeys(tokens, front);
      SetOfAppend(IdsOf(front), [mappings[|mappings| - 1].clobTokenId]);
    }
  }

  /** Mapping `i` is the last one given for this id. */
  predicate IsLastFor(mappings: seq<TokenMapping>, id: TokenId, i: nat) {
    i < |mappings| && mappings[i].clobTokenId == id
    && forall j :: i < j < |mappings| ==> mappings[j].clobTokenId != id
  }

  /** The last mapping given for this id, if any. */
  function LastGiven(mappings: seq<TokenMapping>, id: TokenId): Option<TokenMapping> {
    if mappings == [] then None
    else if mappings[|mappings| - 1].clobTokenId == id then Some(mappings[|mappings| - 1])
    else LastGiven(mappings[..|mappings| - 1], id)
  }

  lemma {:induction false} LastGivenIff(mappings: seq<TokenMapping>, id: TokenId, mapping: TokenMapping)
    ensures LastGiven(mappings, id) == Some(mapping)
      <==> exists i: nat :: IsLastFor(mappings, id, i) && mappings[i] == mapping
  {
    if mappings != [] {
      var front, last := mappings[..|mappings| - 1], mappings[|mappings| - 1];
      LastGivenIff(front, id, mapping);
      if last.clobTokenId == id {
        assert IsLastFor(mappings, id, |mappings| - 1);
      } else {
        if i: nat :| IsLastFor(front, id, i) && front[i] == mapping {
          assert IsLastFor(mappings, id, i);
        }
        if i: nat :| IsLastFor(mappings, id, i) && mappings[i] == mapping {
          assert IsLastFor(front, id, i);
        }
      }
    }
  }

  function MappingOf(tokens: map<TokenId, TokenMapping>, id: TokenId): Option<TokenMapping> {
    if id in tokens then Some(tokens[id]) else None
  }

  /** Recording a mapping changes the mapping of its own id only. */
  lemma MappingOfRecorded(
    tokens: map<TokenId, TokenMapping>, mappings: seq<TokenMapping>, mapping: TokenMapping, id: TokenId)
    ensures MappingOf(Record(tokens, mappings + [mapping]), id)
         == if mapping.clobTokenId == id then Some(mapping) else MappingOf(Record(tokens, mappings), id)
  {
    assert (mappings + [mapping])[..|mappings|] == mappings;
  }

  lemma NewMappingsLast(workers: Workers, mappings: seq<TokenMapping>)
    requires mappings != []
    ensures var front, last := mappings[..|mappings| - 1], mappings[|mappings| - 1];
      NewMappings(workers, mappings)
        == if IsSubscribed(workers, last.clobTokenId) then NewMappings(workers, front)
           else NewMappings(workers, front) + [last]
  {
  }

  lemma {:induction false} RecordsLastGiven(
    workers: Workers, tokens: map<TokenId, TokenMapping>, mappings: seq<TokenMapping>, id: TokenId, known: bool)
    requires known == IsSubscribed(workers, id)
    ensures MappingOf(Record(tokens, NewMappings(workers, mappings)), id)
         == if known || LastGiven(mappings, id).None? then MappingOf(tokens, id) else LastGiven(mappings, id)
  {
    if mappings != [] {
      var front, last := mappings[..|mappings| - 1], mappings[|mappings| - 1];
      RecordsLastGiven(workers, tokens, front, id, known);
      NewMappingsLast(workers, mappings);
      MappingOfRecorded(tokens, NewMappings(workers, front), last, id);
    }
  }

  /**
   * After a request's mappings are recorded, a new id has the last mapping that the request gives for it; every
   * other id has the mapping it had, if it had one.
   */
  lemma RecordedMappings(
    workers: Workers, tokens: map<TokenId, TokenMapping>, mappings: seq<TokenMapping>, id: TokenId, i: nat)
    ensures var after := Record(tokens, NewMappings(workers, mappings));
      && (!IsSubscribed(workers, id) && IsLastFor(mappings, id, i) ==> id in after && after[id] == mappings[i])
      && (IsSubscribed(workers, id) || (forall j: nat :: !IsLastFor(mappings, id, j)) ==>
           (id in after <==> id in tokens) && (id in tokens ==> after[id] == tokens[id]))
  {
    RecordsLastGiven(workers, tokens, mappings, id, IsSubscribed(workers, id));
    if IsLastFor(mappings, id, i) {
      LastGivenIff(mappings, id, mappings[i]);
    }
    if LastGiven(mappings, id).Some? {
      LastGivenIff(mappings, id, LastGiven(mappings, id).value);
    }
  }

  // ---------------------------------------------------------------------------
  // The in-place supervisor
  // ---------------------------------------------------------------------------

  class Supervisor {
    const maxSubsPerWorker: nat
    var workers: Workers
    var workerCounter: nat
    var tokenMappings: map<TokenId, TokenMapping>

    function Value(): SupervisorValue
      reads this
    {
      SupervisorValue(workers, workerCounter, tokenMappings)
    }

    constructor (maxSubsPerWorker: nat)
      ensures this.maxSubsPerWorker == maxSubsPerWorker
      ensures Value() == SupervisorValue(map[], 0, map[])
    {
      this.maxSubsPerWorker := maxSubsPerWorker;
      workers, workerCounter, tokenMappings := map[], 0, map[];
    }

    /** Subscribes to bare ids. With no capacity at all the spawn loop would not end. */
    method Subscribe(ids: seq<TokenId>, alive: string -> bool)
      returns (ghost gives: seq<Action>, ghost spawns: seq<Action>)
      requires maxSubsPerWorker > 0 || NewIds(workers, ids) == []
      modifies this
      ensures Allocates(old(Value()), NewIds(old(workers), ids), maxSubsPerWorker, alive, gives, spawns)
      ensures Value() == Allocated(old(Value()), gives, spawns)
    {
      var remaining := [];
      for i := 0 to |ids|
        invariant remaining == NewIds(workers, ids[..i])
        invariant Value() == old(Value())
      {
        assert ids[..i + 1][..i] == ids[..i];
        if !IsSubscribed(workers, ids[i]) {
          remaining := remaining + [ids[i]];
        }
      }
      assert ids[..|ids|] == ids;
      gives, spawns := Allocate(remaining, alive);
    }

    /** Records the mappings of the new ids, then subscribes to them. */
    method SubscribeWithMappings(mappings: seq<TokenMapping>, alive: string -> bool)
      returns (ghost gives: seq<Action>, ghost spawns: seq<Action>)
      requires maxSubsPerWorker > 0 || NewIds(workers, IdsOf(mappings)) == []
      modifies this
      ensures var added := NewMappings(old(workers), mappings);
        var start := old(Value()).(tokens := Record(old(tokenMappings), added));
        && Allocates(start, IdsOf(added), maxSubsPerWorker, alive, gives, spawns)
        && Value() == Allocated(start, gives, spawns)
    {
      var added := [];
      for i := 0 to |mappings|
        invariant added == NewMappings(workers, mappings[..i])
        invariant workers == old(workers) && workerCounter == old(workerCounter)
        invariant tokenMappings == Record(old(tokenMappings), added)
      {
        assert mappings[..i + 1][..i] == mappings[..i];
        var mapping := mappings[i];
        if !IsSubscribed(workers, mapping.clobTokenId) {
          assert (added + [mapping])[..|added|] == added;
          tokenMappings := tokenMappings[mapping.clobTokenId := mapping];
          added := added + [mapping];
        }
      }
      assert mappings[..|mappings|] == mappings;
      NewMappingsIds(workers, mappings);
      gives, spawns := Allocate(IdsOf(added), alive);
    }

    method Allocate(added: seq<TokenId>, alive: string -> bool)
      returns (ghost gives: seq<Action>, ghost spawns: seq<Action>)
      requires maxSubsPerWorker > 0 || added == []
      modifies this
      ensures Allocates(old(Value()), added, maxSubsPerWorker, alive, gives, spawns)
      ensures Value() == Allocated(old(Value()), gives, spawns)
    {
      var remaining: seq<TokenId>;
      remaining, gives := FillWorkers(added, alive);
      spawns := SpawnForRest(remaining);
    }

    /** Offers the remaining ids to every worker in map order. */
    method FillWorkers(added: seq<TokenId>, alive: string -> bool)
      returns (remaining: seq<TokenId>, ghost gives: seq<Action>)
      modifies this
      ensures FillState(old(Value()), maxSubsPerWorker, alive, added, {}, Value(), gives, remaining)
    {
      remaining, gives := added, [];
      var todo := workers.Keys;
      while todo != {} && remaining != []
        invariant FillState(old(Value()), maxSubsPerWorker, alive, added, todo, Value(), gives, remaining)
      {
        var w :| w in todo;
        ghost var before, kept, given := Value(), remaining, [];
        remaining, given := OfferTo(w, remaining, alive);
        FillStep(old(Value()), maxSubsPerWorker, alive, added, todo, before, gives, kept, w, given, remaining);
        gives := gives + given;
        todo := todo - {w};
      }
    }

    /** Sends one worker as many ids as it has room for; on a closed channel the ids go back to the end. */
    method OfferTo(w: string, remaining: seq<TokenId>, alive: string -> bool)
      returns (rest: seq<TokenId>, ghost given: seq<Action>)
      requires w in workers && remaining != []
      modifies this`workers
      ensures Offered(old(Value()), maxSubsPerWorker, alive, w, remaining, given, rest)
      ensures Value() == RunActions(old(Value()), given)
    {
      given := [];
      var handle := workers[w];
      var room := if |handle.ids| < maxSubsPerWorker then maxSubsPerWorker - |handle.ids| else 0;
      if room == 0 {
        return remaining, [];
      }
      var n := if room < |remaining| then room else |remaining|;
      var toAdd := remaining[..n];
      rest := remaining[n..];
      if alive(w) {
        workers := workers[w :=
          WorkerHandle(handle.initial, handle.log + [Command.Subscribe(toAdd)], handle.ids + toAdd)];
        given := [Give(w, toAdd)];
        assert given[..0] == [];
      } else {
        rest := rest + toAdd;
      }
    }

    /** Spawns workers with full chunks until nothing remains. */
    method SpawnForRest(added: seq<TokenId>) returns (ghost spawns: seq<Action>)
      requires maxSubsPerWorker > 0 || added == []
      modifies this`workers, this`workerCounter
      ensures Value() == RunActions(old(Value()), spawns)
      ensures SpawnState(maxSubsPerWorker, added, spawns, [])
    {
      var remaining := added;
      spawns := [];
      while remaining != []
        invariant Value() == RunActions(old(Value()), spawns)
        invariant SpawnState(maxSubsPerWorker, added, spawns, remaining)
        decreases |remaining|
      {
        var n := if maxSubsPerWorker < |remaining| then maxSubsPerWorker else |remaining|;
        SpawnStep(maxSubsPerWorker, added, spawns, remaining, n);
        ActMore(old(Value()), spawns, Action.Spawn(remaining[..n]));
        SpawnWorker(remaining[..n]);
        spawns := spawns + [Action.Spawn(remaining[..n])];
        remaining := remaining[n..];
      }
    }

    method SpawnWorker(initialIds: seq<TokenId>)
      modifies this`workers, this`workerCounter
      ensures Value() == Act(old(Value()), Action.Spawn(initialIds))
    {
      workerCounter := workerCounter + 1;
      workers := workers[WorkerName(workerCounter) := WorkerHandle(initialIds, [], initialIds)];
    }

    /** Asks every worker to drop the ids it holds; a worker whose channel is closed is left as it is. */
    method Unsubscribe(ids: seq<TokenId>, alive: string -> bool)
      modifies this
      ensures Value() == UnsubscribedAll(old(Value()), ids, alive)
    {
      var todo := workers.Keys;
      UnsubscribedNobody(Value(), ids, alive);
      while todo != {}
        invariant todo <= old(workers).Keys
        invariant Value() == UnsubscribedFrom(old(Value()), ids, alive, old(workers).Keys - todo)
      {
        var w :| w in todo;
        ghost var done := old(workers).Keys - todo;
        var toRemove := HeldBy(w, ids);
        UnsubscribeStep(old(Value()), ids, alive, done, w);
        if toRemove != [] && alive(w) {
          var handle := workers[w];
          workers := workers[w :=
            WorkerHandle(
              handle.initial, handle.log + [Command.Unsubscribe(toRemove)], RemoveIds(handle.ids, toRemove))];
          ForgetTokens(toRemove);
        }
        todo := todo - {w};
        assert done + {w} == old(workers).Keys - todo;
      }
      UnsubscribedEverybody(old(Value()), ids, alive);
      assert old(workers).Keys - todo == old(workers).Keys;
    }

    method HeldBy(w: string, ids: seq<TokenId>) returns (held: seq<TokenId>)
      requires w in workers
      ensures held == Held(workers[w].ids, ids)
    {
      held := [];
      for i := 0 to |ids|
        invariant held == Held(workers[w].ids, ids[..i])
      {
        assert ids[..i + 1][..i] == ids[..i];
        if ids[i] in workers[w].ids {
          held := held + [ids[i]];
        }
      }
      assert ids[..|ids|] == ids;
    }

    method ForgetTokens(ids: seq<TokenId>)
      modifies this`tokenMappings
      ensures tokenMappings == old(tokenMappings) - SetOf(ids)
    {
      for i := 0 to |ids|
        invariant tokenMappings == old(tokenMappings) - SetOf(ids[..i])
      {
        tokenMappings := tokenMappings - {ids[i]};
        assert ids[..i + 1] == ids[..i] + [ids[i]];
      }
      assert ids[..|ids|] == ids;
    }
  }

  // ---------------------------------------------------------------------------
  // Whole runs of the supervisor
  // ---------------------------------------------------------------------------

  /** One call, with the sends that succeed and the actions it takes. */
  datatype Call =
    | SubscribeCall(ids: seq<TokenId>, gives: seq<Action>, spawns: seq<Action>)
    | MappingCall(mappings: seq<TokenMapping>, gives: seq<Action>, spawns: seq<Action>)
    | UnsubscribeCall(ids: seq<TokenId>)

  /** The state after a call, as the methods above promise it. */
  ghost function AfterCall(s: SupervisorValue, call: Call, alive: string -> bool): SupervisorValue {
    match call
    case SubscribeCall(ids, gives, spawns) => Allocated(s, gives, spawns)
    case MappingCall(mappings, gives, spawns) =>
      Allocated(s.(tokens := Record(s.tokens, NewMappings(s.workers, mappings))), gives, spawns)
    case UnsubscribeCall(ids) => UnsubscribedAll(s, ids, alive)
  }

  ghost predicate IsCall(s: SupervisorValue, max: nat, call: Call, alive: string -> bool) {
    match call
    case SubscribeCall(ids, gives, spawns) => Allocates(s, NewIds(s.workers, ids), max, alive, gives, spawns)
    case MappingCall(mappings, gives, spawns) =>
      Allocates(s.(tokens := Record(s.tokens, NewMappings(s.workers, mappings))),
        IdsOf(NewMappings(s.workers, mappings)), max, alive, gives, spawns)
    case UnsubscribeCall(ids) => true
  }

  /** The ids a call newly asks for. */
  function Requested(s: SupervisorValue, call: Call): seq<TokenId> {
    match call
    case SubscribeCall(ids, _, _) => NewIds(s.workers, ids)
    case MappingCall(mappings, _, _) => NewIds(s.workers, IdsOf(mappings))
    case UnsubscribeCall(_) => []
  }

  lemma CallKeepsInvariant(s: SupervisorValue, max: nat, call: Call, alive: string -> bool)
    requires SupervisorInvariant(s, max) && IsCall(s, max, call, alive)
    ensures SupervisorInvariant(AfterCall(s, call, alive), max)
    ensures OwnedOnce(s.workers) && NoDuplicates(Requested(s, call)) ==> OwnedOnce(AfterCall(s, call, alive).workers)
  {
    match call {
      case SubscribeCall(ids, gives, spawns) =>
        AllocationKeepsInvariant(s, ids, s.tokens, max, alive, gives, spawns);
        AllocationConserves(s, NewIds(s.workers, ids), max, alive, gives, spawns);
        OwnedOnceAfterSubscribe(s, ids, AfterCall(s, call, alive));
      case MappingCall(mappings, gives, spawns) =>
        var added := NewMappings(s.workers, mappings);
        var start := s.(tokens := Record(s.tokens, added));
        NewMappingsIds(s.workers, mappings);
        RecordedKeys(s.tokens, added);
        AllocationKeepsInvariant(s, IdsOf(mappings), start.tokens, max, alive, gives, spawns);
        AllocationConserves(start, IdsOf(added), max, alive, gives, spawns);
        OwnedOnceAfterSubscribe(s, IdsOf(mappings), AfterCall(s, call, alive));
      case UnsubscribeCall(ids) =>
        UnsubscribeKeepsInvariant(s, ids, alive, max);
    }
  }

  /** A call together with the channels that were open during it. */
  datatype Called = Called(call: Call, alive: string -> bool)

  ghost function RunCalls(calls: seq<Called>): SupervisorValue {
    if calls == [] then SupervisorValue(map[], 0, map[])
    else AfterCall(RunCalls(calls[..|calls| - 1]), calls[|calls| - 1].call, calls[|calls| - 1].alive)
  }

  /** Every call does what the methods promise. */
  ghost predicate IsRun(max: nat, calls: seq<Called>) {
    calls != [] ==>
      && IsRun(max, calls[..|calls| - 1])
      && IsCall(RunCalls(calls[..|calls| - 1]), max, calls[|calls| - 1].call, calls[|calls| - 1].alive)
  }

  /** No request of the run names a new id twice. */
  ghost predicate DistinctRequests(calls: seq<Called>) {
    calls != [] ==>
      && DistinctRequests(calls[..|calls| - 1])
      && NoDuplicates(Requested(RunCalls(calls[..|calls| - 1]), calls[|calls| - 1].call))
  }

  /** Over any run, whichever sends fail: unique names, capacity, mappings only for subscribed ids, one owner per id. */
  lemma {:induction false} SupervisorRun(max: nat, calls: seq<Called>)
    requires IsRun(max, calls)
    ensures SupervisorInvariant(RunCalls(calls), max)
    ensures DistinctRequests(calls) ==> OwnedOnce(RunCalls(calls).workers)
  {
    if calls != [] {
      var front, last := calls[..|calls| - 1], calls[|calls| - 1];
      SupervisorRun(max, front);
      CallKeepsInvariant(RunCalls(front), max, last.call, last.alive);
    }
  }

  /** A request that names a new id twice breaks single ownership at once. */
  lemma RepeatedRequestBreaksOwnership(s: SupervisorValue, max: nat, call: Call, alive: string -> bool)
    requires SupervisorInvariant(s, max) && IsCall(s, max, call, alive)
    requires !NoDuplicates(Requested(s, call))
    ensures !OwnedOnce(AfterCall(s, call, alive).workers)
  {
    match call {
      case SubscribeCall(ids, gives, spawns) =>
        AllocationConserves(s, NewIds(s.workers, ids), max, alive, gives, spawns);
        OwnedOnceAfterSubscribe(s, ids, AfterCall(s, call, alive));
      case MappingCall(mappings, gives, spawns) =>
        var added := NewMappings(s.workers, mappings);
        NewMappingsIds(s.workers, mappings);
        AllocationConserves(s.(tokens := Record(s.tokens, added)), IdsOf(added), max, alive, gives, spawns);
        OwnedOnceAfterSubscribe(s, IdsOf(mappings), AfterCall(s, call, alive));
    }
  }

  // ---------------------------------------------------------------------------
  // When the spawn loop ends
  // ---------------------------------------------------------------------------

  /** What remains after `n` rounds of the spawn loop. */
  function AfterRounds(remaining: seq<TokenId>, max: nat, n: nat): seq<TokenId> {
    if n == 0 then remaining
    else AfterRounds(remaining[if max < |remaining| then max else |remaining|..], max, n - 1)
  }

  lemma {:induction false} NoCapacityNoProgress(remaining: seq<TokenId>, n: nat)
    ensures AfterRounds(remaining, 0, n) == remaining
  {
    if n > 0 {
      NoCapacityNoProgress(remaining, n - 1);
    }
  }

  lemma {:induction false} RoundsNeeded(remaining: seq<TokenId>, max: nat)
    requires max > 0
    ensures AfterRounds(remaining, max, ChunksFor(|remaining|, max)) == []
    decreases |remaining|
  {
    if remaining != [] {
      RoundsNeeded(remaining[if max < |remaining| then max else |remaining|..], max);
    }
  }

  /** The loop runs dry exactly when there is capacity or nothing to place. */
  lemma SpawnLoopEndsIff(remaining: seq<TokenId>, max: nat)
    ensures (exists n :: AfterRounds(remaining, max, n) == []) <==> max > 0 || remaining == []
  {
    if max > 0 {
      RoundsNeeded(remaining, max);
    } else {
      forall n
        ensures AfterRounds(remaining, max, n) == remaining
      {
        NoCapacityNoProgress(remaining, n);
      }
      assert AfterRounds(remaining, max, 0) == remaining;
    }
  }
}
