// The supervisor's book-keeping as values: who owns which id, what each action changes,
// and what whole allocations guarantee.

module Ownership {
  import opened Prelude
  import opened Decimals
  import opened Protocol

  datatype TokenMapping = TokenMapping(clobTokenId: TokenId, marketId: string, eventSlug: string)

  /** A worker as the supervisor sees it: its first ids, everything sent to it since, and its current list. */
  datatype WorkerHandle = WorkerHandle(initial: seq<TokenId>, log: seq<Command>, ids: seq<TokenId>)

  type Workers = map<string, WorkerHandle>

  datatype SupervisorValue = SupervisorValue(workers: Workers, counter: nat, tokens: map<TokenId, TokenMapping>)

  // ---------------------------------------------------------------------------
  // Worker names
  // ---------------------------------------------------------------------------

  function WorkerName(n: nat): string {
    "poly-worker-" + Digits(n)
  }

  lemma WorkerNamesDiffer(m: nat, n: nat)
    requires WorkerName(m) == WorkerName(n)
    ensures m == n
  {
    assert WorkerName(m)[12..] == Digits(m) && WorkerName(n)[12..] == Digits(n);
    ValueOfDigits(m);
    ValueOfDigits(n);
  }

  // ---------------------------------------------------------------------------
  // Actions
  // ---------------------------------------------------------------------------

  /** The supervisor's atomic steps: a successful send together with its list update, or a spawn. */
  datatype Action =
    | Give(worker: string, ids: seq<TokenId>)
    | Take(worker: string, ids: seq<TokenId>)
    | Spawn(ids: seq<TokenId>)

  function Act(s: SupervisorValue, action: Action): SupervisorValue {
    match action
    case Give(w, ids) =>
      if w !in s.workers then s
      else
        var h := s.workers[w];
        s.(workers := s.workers[w := WorkerHandle(h.initial, h.log + [Subscribe(ids)], h.ids + ids)])
    case Take(w, ids) =>
      if w !in s.workers then s
      else
        var h := s.workers[w];
        s.(workers := s.workers[w := WorkerHandle(h.initial, h.log + [Unsubscribe(ids)], RemoveIds(h.ids, ids))],
           tokens := s.tokens - SetOf(ids))
    case Spawn(ids) =>
      s.(workers := s.workers[WorkerName(s.counter + 1) := WorkerHandle(ids, [], ids)], counter := s.counter + 1)
  }

  function RunActions(s: SupervisorValue, actions: seq<Action>): SupervisorValue {
    if actions == [] then s
    else Act(RunActions(s, actions[..|actions| - 1]), actions[|actions| - 1])
  }

  lemma ActMore(s: SupervisorValue, actions: seq<Action>, action: Action)
    ensures RunActions(s, actions + [action]) == Act(RunActions(s, actions), action)
  {
    assert (actions + [action])[..|actions|] == actions;
  }

  lemma {:induction false} RunActionsInParts(s: SupervisorValue, first: seq<Action>, second: seq<Action>)
    ensures RunActions(s, first + second) == RunActions(RunActions(s, first), second)
  {
    if second == [] {
      assert first + second == first;
    } else {
      assert (first + second)[..|first + second| - 1] == first + second[..|second| - 1];
      RunActionsInParts(s, first, second[..|second| - 1]);
    }
  }

  // ---------------------------------------------------------------------------
  // Ownership
  // ---------------------------------------------------------------------------

  predicate IsSubscribed(workers: Workers, id: TokenId) {
    exists w | w in workers :: id in workers[w].ids
  }

  /** Every id as often as the workers' lists hold it. */
  ghost function Owned(workers: Workers): multiset<TokenId> {
    if workers == map[] then multiset{}
    else
      var w :| w in workers;
      multiset(workers[w].ids) + Owned(workers - {w})
  }

  lemma {:induction false} OwnedSplit(workers: Workers, w: string)
    requires w in workers
    ensures Owned(workers) == multiset(workers[w].ids) + Owned(workers - {w})
    decreases |workers|
  {
    var first :| first in workers && Owned(workers) == multiset(workers[first].ids) + Owned(workers - {first});
    if first != w {
      OwnedSplit(workers - {first}, w);
      OwnedSplit(workers - {w}, first);
      assert workers - {first} - {w} == workers - {w} - {first};
    }
  }

  lemma OwnedUpdate(workers: Workers, w: string, h: WorkerHandle)
    ensures Owned(workers[w := h]) == Owned(workers - {w}) + multiset(h.ids)
  {
    OwnedSplit(workers[w := h], w);
    assert workers[w := h] - {w} == workers - {w};
  }

  lemma SubscribedSplit(workers: Workers, w: string, id: TokenId)
    requires w in workers
    ensures IsSubscribed(workers, id) <==> id in workers[w].ids || IsSubscribed(workers - {w}, id)
  {
    if v :| v in workers && id in workers[v].ids && v != w {
      assert v in workers - {w} && id in (workers - {w})[v].ids;
    }
  }

  lemma {:induction false} OwnedMembers(workers: Workers, id: TokenId)
    ensures id in Owned(workers) <==> IsSubscribed(workers, id)
    decreases |workers|
  {
    if w :| w in workers {
      OwnedSplit(workers, w);
      SubscribedSplit(workers, w, id);
      OwnedMembers(workers - {w}, id);
    }
  }

  /** No id is owned twice: not by two workers, and not twice by one. */
  ghost predicate OwnedOnce(workers: Workers) {
    forall id :: Owned(workers)[id] <= 1
  }

  lemma CountTwice(ids: seq<TokenId>, i: nat, j: nat)
    requires i < j < |ids| && ids[i] == ids[j]
    ensures multiset(ids)[ids[i]] >= 2
  {
    assert ids == ids[..j] + [ids[j]] + ids[j + 1..];
    assert ids[i] in ids[..j];
  }

  lemma {:induction false} NoDuplicatesByCount(ids: seq<TokenId>)
    ensures NoDuplicates(ids) <==> forall id :: multiset(ids)[id] <= 1
  {
    if ids != [] {
      var front, last := ids[..|ids| - 1], ids[|ids| - 1];
      NoDuplicatesByCount(front);
      assert ids == front + [last];
      if i :| 0 <= i < |front| && front[i] == last {
        CountTwice(ids, i, |ids| - 1);
      } else {
        assert last !in front && multiset(front)[last] == 0;
        assert forall id :: multiset(ids)[id] == multiset(front)[id] + if id == last then 1 else 0;
      }
    }
  }

  lemma OwnedAtLeast(workers: Workers, v: string, w: string, id: TokenId)
    requires v in workers && w in workers
    ensures multiset(workers[v].ids)[id] <= Owned(workers)[id]
    ensures v != w ==> multiset(workers[v].ids)[id] + multiset(workers[w].ids)[id] <= Owned(workers)[id]
  {
    OwnedSplit(workers, v);
    if v != w {
      OwnedSplit(workers - {v}, w);
    }
  }

  /** What owning once means for the lists themselves. */
  lemma OwnedOnceMeansDisjoint(workers: Workers, v: string, w: string)
    requires OwnedOnce(workers) && v in workers && w in workers
    ensures NoDuplicates(workers[v].ids)
    ensures v != w ==> SetOf(workers[v].ids) !! SetOf(workers[w].ids)
  {
    var mine, others := multiset(workers[v].ids), multiset(workers[w].ids);
    forall id
      ensures mine[id] <= 1
      ensures v != w ==> mine[id] + others[id] <= 1
    {
      OwnedAtLeast(workers, v, w, id);
      assert Owned(workers)[id] <= 1;
    }
    NoDuplicatesByCount(workers[v].ids);
    if v != w {
      forall id | id in SetOf(workers[v].ids)
        ensures id !in SetOf(workers[w].ids)
      {
        assert id in mine && mine[id] + others[id] <= 1;
      }
    }
  }

  // ---------------------------------------------------------------------------
  // What an allocation does
  // ---------------------------------------------------------------------------

  /** The requested ids that nobody owns yet, in order; duplicates within the request stay. */
  function NewIds(workers: Workers, ids: seq<TokenId>): seq<TokenId> {
    if ids == [] then []
    else
      NewIds(workers, ids[..|ids| - 1])
        + if IsSubscribed(workers, ids[|ids| - 1]) then [] else [ids[|ids| - 1]]
  }

  function Handed(actions: seq<Action>): seq<TokenId> {
    if actions == [] then []
    else Handed(actions[..|actions| - 1]) + actions[|actions| - 1].ids
  }

  /** Gives top up live workers within their room, each at most once. */
  ghost predicate GivesTopUp(workers: Workers, max: nat, alive: string -> bool, gives: seq<Action>) {
    && (forall i :: 0 <= i < |gives| ==>
         && gives[i].Give? && gives[i].worker in workers && alive(gives[i].worker)
         && 0 < |gives[i].ids| && |workers[gives[i].worker].ids| + |gives[i].ids| <= max)
    && (forall i, j :: 0 <= i < j < |gives| ==> gives[i].worker != gives[j].worker)
  }

  /** Spawns carry full chunks, except that the last one may be smaller. */
  ghost predicate SpawnsAreFull(max: nat, spawns: seq<Action>) {
    && (forall i :: 0 <= i < |spawns| ==> spawns[i].Spawn? && 0 < |spawns[i].ids| <= max)
    && (forall i :: 0 <= i < |spawns| - 1 ==> |spawns[i].ids| == max)
  }

  /** Every live worker that existed before has no room left. */
  ghost predicate LiveWorkersFull(before: Workers, after: Workers, max: nat, alive: string -> bool) {
    forall w :: w in before && alive(w) ==> w in after && |after[w].ids| >= max
  }

  ghost predicate Allocates(
    s: SupervisorValue, added: seq<TokenId>, max: nat, alive: string -> bool, gives: seq<Action>, spawns: seq<Action>)
  {
    && GivesTopUp(s.workers, max, alive, gives)
    && SpawnsAreFull(max, spawns)
    && multiset(Handed(gives)) + multiset(Handed(spawns)) == multiset(added)
    && (spawns != [] ==> LiveWorkersFull(s.workers, RunActions(s, gives).workers, max, alive))
  }

  /** Names in use are those of the spawns counted so far, so the next name is free. */
  ghost predicate NamesCounted(s: SupervisorValue) {
    forall w :: w in s.workers ==> exists n :: 1 <= n <= s.counter && w == WorkerName(n)
  }

  lemma NextNameIsFree(s: SupervisorValue)
    requires NamesCounted(s)
    ensures WorkerName(s.counter + 1) !in s.workers
  {
    if WorkerName(s.counter + 1) in s.workers {
      var n :| 1 <= n <= s.counter && WorkerName(s.counter + 1) == WorkerName(n);
      WorkerNamesDiffer(s.counter + 1, n);
    }
  }

  lemma ActKeepsNames(s: SupervisorValue, action: Action)
    requires NamesCounted(s)
    ensures NamesCounted(Act(s, action))
  {
    var after := Act(s, action);
    forall w | w in after.workers
      ensures exists n :: 1 <= n <= after.counter && w == WorkerName(n)
    {
      if w in s.workers {
        var n :| 1 <= n <= s.counter && w == WorkerName(n);
        assert 1 <= n <= after.counter;
      } else {
        assert w == WorkerName(after.counter);
      }
    }
  }

  /** Giving and spawning add exactly the ids they carry; nothing is overwritten. */
  lemma ActOwns(s: SupervisorValue, action: Action)
    requires NamesCounted(s) && !action.Take?
    requires action.Give? ==> action.worker in s.workers
    ensures Owned(Act(s, action).workers) == Owned(s.workers) + multiset(action.ids)
  {
    match action {
      case Give(w, ids) =>
        OwnedSplit(s.workers, w);
        OwnedUpdate(s.workers, w, Act(s, action).workers[w]);
      case Spawn(ids) =>
        NextNameIsFree(s);
        OwnedUpdate(s.workers, WorkerName(s.counter + 1), WorkerHandle(ids, [], ids));
        assert s.workers - {WorkerName(s.counter + 1)} == s.workers;
    }
  }

  lemma {:induction false} RunActionsOwns(s: SupervisorValue, actions: seq<Action>)
    requires NamesCounted(s)
    requires forall i :: 0 <= i < |actions| ==>
      actions[i].Spawn? || (actions[i].Give? && actions[i].worker in s.workers)
    ensures var after := RunActions(s, actions);
      && NamesCounted(after)
      && s.workers.Keys <= after.workers.Keys
      && after.tokens == s.tokens
      && Owned(after.workers) == Owned(s.workers) + multiset(Handed(actions))
  {
    if actions != [] {
      var front, last := actions[..|actions| - 1], actions[|actions| - 1];
      RunActionsOwns(s, front);
      ActKeepsNames(RunActions(s, front), last);
      ActOwns(RunActions(s, front), last);
    }
  }

  lemma {:induction false} NewIdsAreNew(workers: Workers, ids: seq<TokenId>, id: TokenId)
    ensures id in NewIds(workers, ids) <==> id in ids && !IsSubscribed(workers, id)
  {
    if ids != [] {
      NewIdsAreNew(workers, ids[..|ids| - 1], id);
      assert ids == ids[..|ids| - 1] + [ids[|ids| - 1]];
    }
  }

  /** The new ids of a request in two parts are those of the first, then those of the second. */
  lemma {:induction false} NewIdsInParts(workers: Workers, first: seq<TokenId>, second: seq<TokenId>)
    ensures NewIds(workers, first + second) == NewIds(workers, first) + NewIds(workers, second)
  {
    if second == [] {
      assert first + second == first;
    } else {
      var front := second[..|second| - 1];
      assert (first + second)[..|first + second| - 1] == first + front;
      NewIdsInParts(workers, first, front);
    }
  }

  lemma NewIdsOfOne(workers: Workers, id: TokenId)
    ensures NewIds(workers, [id]) == if IsSubscribed(workers, id) then [] else [id]
  {
    assert [id][..0] == [];
  }

  /** A request whose ids are distinct has distinct new ids. */
  lemma {:induction false} NewIdsDistinct(workers: Workers, ids: seq<TokenId>)
    requires NoDuplicates(ids)
    ensures NoDuplicates(NewIds(workers, ids))
  {
    if ids != [] {
      var front, last := ids[..|ids| - 1], ids[|ids| - 1];
      NewIdsDistinct(workers, front);
      NewIdsAreNew(workers, front, last);
      SnocDistinct(NewIds(workers, front), last);
    }
  }

  ghost function Allocated(s: SupervisorValue, gives: seq<Action>, spawns: seq<Action>): SupervisorValue {
    RunActions(RunActions(s, gives), spawns)
  }

  /** Every new id goes to exactly one list, as often as it was asked for; no id is lost or invented. */
  lemma AllocationConserves(
    s: SupervisorValue, added: seq<TokenId>, max: nat, alive: string -> bool, gives: seq<Action>, spawns: seq<Action>)
    requires NamesCounted(s) && Allocates(s, added, max, alive, gives, spawns)
    ensures var after := Allocated(s, gives, spawns);
      && NamesCounted(after)
      && s.workers.Keys <= after.workers.Keys
      && after.tokens == s.tokens
      && Owned(after.workers) == Owned(s.workers) + multiset(added)
  {
    RunActionsOwns(s, gives);
    var topped := RunActions(s, gives);
    RunActionsOwns(topped, spawns);
    assert Owned(topped.workers) + multiset(Handed(spawns))
        == Owned(s.workers) + (multiset(Handed(gives)) + multiset(Handed(spawns)));
  }

  /**
   * After subscribing, single ownership holds exactly when it held before and the new ids are distinct:
   * the check against existing workers does not see duplicates within one request.
   */
  lemma OwnedOnceAfterSubscribe(s: SupervisorValue, ids: seq<TokenId>, after: SupervisorValue)
    requires Owned(after.workers) == Owned(s.workers) + multiset(NewIds(s.workers, ids))
    ensures OwnedOnce(after.workers) <==> OwnedOnce(s.workers) && NoDuplicates(NewIds(s.workers, ids))
  {
    var added := NewIds(s.workers, ids);
    NoDuplicatesByCount(added);
    forall id
      ensures Owned(s.workers)[id] == 0 || multiset(added)[id] == 0
    {
      NewIdsAreNew(s.workers, ids, id);
      OwnedMembers(s.workers, id);
    }
    if OwnedOnce(after.workers) {
      forall id
        ensures Owned(s.workers)[id] <= 1 && multiset(added)[id] <= 1
      {
        assert Owned(after.workers)[id] <= 1;
      }
    }
  }

  // ---------------------------------------------------------------------------
  // Capacity and the number of spawns
  // ---------------------------------------------------------------------------

  ghost predicate WithinCapacity(workers: Workers, max: nat) {
    forall w :: w in workers ==> |workers[w].ids| <= max
  }

  lemma {:induction false} GivesKeepOthers(s: SupervisorValue, gives: seq<Action>, w: string)
    requires forall i :: 0 <= i < |gives| ==> gives[i].Give? && gives[i].worker != w
    ensures w in RunActions(s, gives).workers <==> w in s.workers
    ensures w in s.workers ==> RunActions(s, gives).workers[w] == s.workers[w]
  {
    if gives != [] {
      GivesKeepOthers(s, gives[..|gives| - 1], w);
    }
  }

  lemma {:induction false} GivesKeepCapacity(s: SupervisorValue, max: nat, alive: string -> bool, gives: seq<Action>)
    requires WithinCapacity(s.workers, max) && GivesTopUp(s.workers, max, alive, gives)
    ensures WithinCapacity(RunActions(s, gives).workers, max)
  {
    if gives != [] {
      var front, last := gives[..|gives| - 1], gives[|gives| - 1];
      GivesKeepCapacity(s, max, alive, front);
      GivesKeepOthers(s, front, last.worker);
    }
  }

  lemma {:induction false} SpawnsKeepCapacity(s: SupervisorValue, max: nat, spawns: seq<Action>)
    requires WithinCapacity(s.workers, max) && SpawnsAreFull(max, spawns)
    ensures WithinCapacity(RunActions(s, spawns).workers, max)
    ensures RunActions(s, spawns).counter == s.counter + |spawns|
  {
    if spawns != [] {
      SpawnsKeepCapacity(s, max, spawns[..|spawns| - 1]);
    }
  }

  lemma AllocationKeepsCapacity(
    s: SupervisorValue, added: seq<TokenId>, max: nat, alive: string -> bool, gives: seq<Action>, spawns: seq<Action>)
    requires WithinCapacity(s.workers, max) && Allocates(s, added, max, alive, gives, spawns)
    ensures WithinCapacity(Allocated(s, gives, spawns).workers, max)
  {
    GivesKeepCapacity(s, max, alive, gives);
    SpawnsKeepCapacity(RunActions(s, gives), max, spawns);
  }

  /** The number of chunks of at most `max` that `n` ids need. */
  function ChunksFor(n: nat, max: nat): nat
    requires max > 0
  {
    if n == 0 then 0 else 1 + ChunksFor(if n <= max then 0 else n - max, max)
  }

  /** ChunksFor is the quotient rounded up. */
  lemma {:induction false} ChunksForRoundsUp(n: nat, max: nat)
    requires max > 0
    ensures (ChunksFor(n, max) - 1) * max < n <= ChunksFor(n, max) * max || (n == 0 && ChunksFor(n, max) == 0)
  {
    if n > max {
      ChunksForRoundsUp(n - max, max);
      assert (ChunksFor(n, max) - 1) * max == (ChunksFor(n - max, max) - 1) * max + max;
      assert ChunksFor(n, max) * max == ChunksFor(n - max, max) * max + max;
    } else if n > 0 {
      assert ChunksFor(n, max) == 1;
    }
  }

  lemma {:induction false} SpawnsBeforeLast(max: nat, spawns: seq<Action>)
    requires forall i :: 0 <= i < |spawns| ==> |spawns[i].ids| == max
    ensures |Handed(spawns)| == |spawns| * max
  {
    if spawns != [] {
      SpawnsBeforeLast(max, spawns[..|spawns| - 1]);
      assert |spawns| * max == (|spawns| - 1) * max + max;
    }
  }

  lemma {:induction false} ChunksOfFullPlus(full: nat, rest: nat, max: nat)
    requires 0 < rest <= max
    ensures ChunksFor(full * max + rest, max) == full + 1
  {
    if full > 0 {
      assert full * max + rest - max == (full - 1) * max + rest;
      assert full * max + rest > max by {
        assert full * max >= max;
      }
      ChunksOfFullPlus(full - 1, rest, max);
    }
  }

  /** Workers are spawned for the ids that found no room, and no more of them than those ids need. */
  lemma {:induction false} SpawnCount(max: nat, spawns: seq<Action>)
    requires max > 0 && SpawnsAreFull(max, spawns)
    ensures |spawns| == ChunksFor(|Handed(spawns)|, max)
  {
    if spawns != [] {
      SpawnsBeforeLast(max, spawns[..|spawns| - 1]);
      ChunksOfFullPlus(|spawns| - 1, |spawns[|spawns| - 1].ids|, max);
    }
  }

  // ---------------------------------------------------------------------------
  // Whole runs
  // ---------------------------------------------------------------------------

  /** Names are unique, no worker is over capacity, and only subscribed ids have a mapping. */
  ghost predicate SupervisorInvariant(s: SupervisorValue, max: nat) {
    && NamesCounted(s)
    && WithinCapacity(s.workers, max)
    && forall id :: id in s.tokens ==> IsSubscribed(s.workers, id)
  }

  /** Subscribing keeps the invariant; mappings recorded for the new ids end up subscribed. */
  lemma AllocationKeepsInvariant(
    s: SupervisorValue, ids: seq<TokenId>, tokens: map<TokenId, TokenMapping>, max: nat, alive: string -> bool,
    gives: seq<Action>, spawns: seq<Action>)
    requires SupervisorInvariant(s, max)
    requires forall id :: id in tokens ==> id in s.tokens || id in NewIds(s.workers, ids)
    requires Allocates(s.(tokens := tokens), NewIds(s.workers, ids), max, alive, gives, spawns)
    ensures SupervisorInvariant(Allocated(s.(tokens := tokens), gives, spawns), max)
  {
    var start := s.(tokens := tokens);
    var after := Allocated(start, gives, spawns);
    AllocationConserves(start, NewIds(s.workers, ids), max, alive, gives, spawns);
    AllocationKeepsCapacity(start, NewIds(s.workers, ids), max, alive, gives, spawns);
    forall id | id in after.tokens
      ensures IsSubscribed(after.workers, id)
    {
      OwnedMembers(s.workers, id);
      OwnedMembers(after.workers, id);
    }
  }

  /** The requested ids that a list holds, in request order. */
  function Held(list: seq<TokenId>, ids: seq<TokenId>): seq<TokenId> {
    if ids == [] then []
    else Held(list, ids[..|ids| - 1]) + if ids[|ids| - 1] in list then [ids[|ids| - 1]] else []
  }

  /** What one worker's handle becomes when ids are unsubscribed: nothing changes if the send fails. */
  function Unsubscribed(h: WorkerHandle, ids: seq<TokenId>, sendOk: bool): WorkerHandle {
    var gone := Held(h.ids, ids);
    if gone == [] || !sendOk then h
    else WorkerHandle(h.initial, h.log + [Unsubscribe(gone)], RemoveIds(h.ids, gone))
  }

  lemma {:induction false} HeldSet(list: seq<TokenId>, ids: seq<TokenId>)
    ensures SetOf(Held(list, ids)) == SetOf(list) * SetOf(ids)
  {
    if ids != [] {
      var front, last := ids[..|ids| - 1], ids[|ids| - 1];
      HeldSet(list, front);
      assert ids == front + [last];
      SetOfAppend(front, [last]);
      SetOfAppend(Held(list, front), if last in list then [last] else []);
    }
  }

  lemma {:induction false} RemoveNone(list: seq<TokenId>)
    ensures RemoveIds(list, []) == list
  {
    if list != [] {
      RemoveNone(list[..|list| - 1]);
    }
  }

  lemma {:induction false} RemoveSame(list: seq<TokenId>, a: seq<TokenId>, b: seq<TokenId>)
    requires forall id :: id in list ==> (id in a <==> id in b)
    ensures RemoveIds(list, a) == RemoveIds(list, b)
  {
    if list != [] {
      RemoveSame(list[..|list| - 1], a, b);
    }
  }

  /** A successful unsubscribe takes exactly the requested ids out of a list and keeps the others in order. */
  lemma UnsubscribedIds(h: WorkerHandle, ids: seq<TokenId>, sendOk: bool)
    ensures Unsubscribed(h, ids, sendOk).ids == if sendOk then RemoveIds(h.ids, ids) else h.ids
  {
    HeldSet(h.ids, ids);
    assert forall id :: id in Held(h.ids, ids) <==> id in SetOf(Held(h.ids, ids));
    RemoveSame(h.ids, Held(h.ids, ids), ids);
    assert Held(h.ids, ids) == [] ==> RemoveIds(h.ids, Held(h.ids, ids)) == h.ids by {
      RemoveNone(h.ids);
    }
  }

  function UnsubscribedAll(s: SupervisorValue, ids: seq<TokenId>, alive: string -> bool): SupervisorValue {
    SupervisorValue(
      map w | w in s.workers :: Unsubscribed(s.workers[w], ids, alive(w)),
      s.counter,
      s.tokens - (set w, id | w in s.workers && alive(w) && id in Held(s.workers[w].ids, ids) :: id))
  }

  lemma {:induction false} RemoveIdsCount(list: seq<TokenId>, gone: seq<TokenId>)
    ensures multiset(RemoveIds(list, gone)) <= multiset(list) && |RemoveIds(list, gone)| <= |list|
  {
    if list != [] {
      var front, last := list[..|list| - 1], list[|list| - 1];
      RemoveIdsCount(front, gone);
      assert list == front + [last];
      assert multiset(list) == multiset(front) + multiset{last};
      assert multiset(RemoveIds(list, gone))
          == multiset(RemoveIds(front, gone)) + if last in gone then multiset{} else multiset{last};
    }
  }

  lemma {:induction false} OwnedMonotone(a: Workers, b: Workers)
    requires a.Keys == b.Keys && forall w :: w in a ==> multiset(a[w].ids) <= multiset(b[w].ids)
    ensures Owned(a) <= Owned(b)
    decreases |a|
  {
    if w :| w in a {
      OwnedSplit(a, w);
      OwnedSplit(b, w);
      OwnedMonotone(a - {w}, b - {w});
    } else {
      assert b == map[];
    }
  }

  /** The commands sent so far do not matter for ownership. */
  lemma SameIdsKeepInvariant(before: SupervisorValue, after: SupervisorValue, max: nat)
    requires after.counter == before.counter && after.tokens == before.tokens
    requires after.workers.Keys == before.workers.Keys
    requires forall w :: w in before.workers ==> after.workers[w].ids == before.workers[w].ids
    ensures SupervisorInvariant(before, max) ==> SupervisorInvariant(after, max)
    ensures OwnedOnce(before.workers) ==> OwnedOnce(after.workers)
  {
    OwnedMonotone(after.workers, before.workers);
    forall id | IsSubscribed(before.workers, id)
      ensures IsSubscribed(after.workers, id)
    {
      var w :| w in before.workers && id in before.workers[w].ids;
      assert id in after.workers[w].ids;
    }
  }

  lemma UnsubscribedShrinks(h: WorkerHandle, ids: seq<TokenId>, sendOk: bool)
    ensures multiset(Unsubscribed(h, ids, sendOk).ids) <= multiset(h.ids)
    ensures |Unsubscribed(h, ids, sendOk).ids| <= |h.ids|
  {
    RemoveIdsCount(h.ids, Held(h.ids, ids));
  }

  /** An id whose mapping survives is still on the list of whoever had it. */
  lemma MappingStillOwned(s: SupervisorValue, ids: seq<TokenId>, alive: string -> bool, w: string, id: TokenId)
    requires w in s.workers && id in s.workers[w].ids && id in UnsubscribedAll(s, ids, alive).tokens
    ensures id in Unsubscribed(s.workers[w], ids, alive(w)).ids
  {
    var h := s.workers[w];
    UnsubscribedIds(h, ids, alive(w));
    HeldSet(h.ids, ids);
    RemoveIdsSet(h.ids, ids);
    assert id in Held(h.ids, ids) <==> id in SetOf(Held(h.ids, ids));
    assert id in RemoveIds(h.ids, ids) <==> id in SetOf(RemoveIds(h.ids, ids));
  }

  /** Unsubscribing keeps the invariant and single ownership, whichever sends fail. */
  lemma UnsubscribeKeepsInvariant(s: SupervisorValue, ids: seq<TokenId>, alive: string -> bool, max: nat)
    requires SupervisorInvariant(s, max)
    ensures SupervisorInvariant(UnsubscribedAll(s, ids, alive), max)
    ensures OwnedOnce(s.workers) ==> OwnedOnce(UnsubscribedAll(s, ids, alive).workers)
  {
    var after := UnsubscribedAll(s, ids, alive);
    forall w | w in s.workers
      ensures multiset(after.workers[w].ids) <= multiset(s.workers[w].ids)
      ensures |after.workers[w].ids| <= |s.workers[w].ids|
    {
      UnsubscribedShrinks(s.workers[w], ids, alive(w));
    }
    OwnedMonotone(after.workers, s.workers);
    forall id | id in after.tokens
      ensures IsSubscribed(after.workers, id)
    {
      assert IsSubscribed(s.workers, id);
      var w :| w in s.workers && id in s.workers[w].ids;
      MappingStillOwned(s, ids, alive, w, id);
      assert id in after.workers[w].ids;
    }
  }

  /**
   * An unsubscribe forgets the mappings of exactly those ids that some reachable worker drops, and keeps the other
   * mappings as they are.
   */
  lemma MappingsAfterUnsubscribe(s: SupervisorValue, ids: seq<TokenId>, alive: string -> bool, id: TokenId)
    ensures id in UnsubscribedAll(s, ids, alive).tokens <==>
      id in s.tokens && !exists w :: w in s.workers && alive(w) && id in s.workers[w].ids && id in ids
    ensures id in UnsubscribedAll(s, ids, alive).tokens ==>
      UnsubscribedAll(s, ids, alive).tokens[id] == s.tokens[id]
  {
    forall w | w in s.workers
      ensures id in Held(s.workers[w].ids, ids) <==> id in s.workers[w].ids && id in ids
    {
      var list := s.workers[w].ids;
      HeldSet(list, ids);
      assert id in Held(list, ids) <==> id in SetOf(Held(list, ids));
    }
  }
}
