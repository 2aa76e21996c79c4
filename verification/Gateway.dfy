// The in-place registry with its client objects, the request handler, and whole runs of requests.

module Gateway {
  import opened Prelude
  import opened Subjects
  import opened Registry

  datatype GatewayError = ClientNotFound(id: ClientId) | InvalidSubject(reason: string) | ChannelSend

  // ---------------------------------------------------------------------------
  // The registry's loops, as values
  // ---------------------------------------------------------------------------

  function WithdrawOne(r: RegistryValue, id: ClientId, subject: string): RegistryValue {
    var cleared := r.(main := DropFrom(r.main, subject, id));
    if IsWildcardPattern(subject) then cleared.(wildcards := DropEverywhere(r.wildcards, id))
    else cleared.(exact := DropFrom(r.exact, subject, id))
  }

  lemma WithdrawNothing(r: RegistryValue, id: ClientId)
    ensures Withdraw(r, id, {}) == r
  {
    assert Withdraw(r, id, {}).main == r.main;
    assert Withdraw(r, id, {}).exact == r.exact;
  }

  lemma DropTwice(entries: seq<WildcardEntry>, id: ClientId)
    ensures DropEverywhere(DropEverywhere(entries, id), id) == DropEverywhere(entries, id)
  {
    forall i | 0 <= i < |entries|
      ensures DropEverywhere(DropEverywhere(entries, id), id)[i] == DropEverywhere(entries, id)[i]
    {
      assert entries[i].clients - {id} - {id} == entries[i].clients - {id};
    }
  }

  lemma MainStep(r: RegistryValue, id: ClientId, done: set<string>, subject: string)
    ensures DropFrom(Withdraw(r, id, done).main, subject, id) == Withdraw(r, id, done + {subject}).main
  {
    var before, after := Withdraw(r, id, done).main, Withdraw(r, id, done + {subject}).main;
    forall s | s in r.main
      ensures DropFrom(before, subject, id)[s] == after[s]
    {
      assert r.main[s] - {id} - {id} == r.main[s] - {id};
    }
  }

  lemma ExactStep(r: RegistryValue, id: ClientId, done: set<string>, subject: string)
    ensures Withdraw(r, id, done + {subject}).exact
         == if IsWildcardPattern(subject) then Withdraw(r, id, done).exact
            else DropFrom(Withdraw(r, id, done).exact, subject, id)
  {
    var before, after := Withdraw(r, id, done).exact, Withdraw(r, id, done + {subject}).exact;
    forall s | s in r.exact
      ensures after[s] == (if IsWildcardPattern(subject) then before else DropFrom(before, subject, id))[s]
    {
      assert r.exact[s] - {id} - {id} == r.exact[s] - {id};
    }
  }

  lemma WildcardStep(r: RegistryValue, id: ClientId, done: set<string>, subject: string)
    ensures Withdraw(r, id, done + {subject}).wildcards
         == if IsWildcardPattern(subject) then DropEverywhere(Withdraw(r, id, done).wildcards, id)
            else Withdraw(r, id, done).wildcards
  {
    DropTwice(r.wildcards, id);
    assert subject in done + {subject};
    assert (exists s | s in done + {subject} :: IsWildcardPattern(s))
      <==> IsWildcardPattern(subject) || (exists s | s in done :: IsWildcardPattern(s));
  }

  lemma WithdrawStep(r: RegistryValue, id: ClientId, done: set<string>, subject: string)
    ensures WithdrawOne(Withdraw(r, id, done), id, subject) == Withdraw(r, id, done + {subject})
  {
    MainStep(r, id, done, subject);
    ExactStep(r, id, done, subject);
    WildcardStep(r, id, done, subject);
  }

  lemma MatchingEntriesStep(entries: seq<WildcardEntry>, i: nat, subject: seq<string>)
    requires i < |entries|
    ensures MatchingEntries(entries[..i + 1], subject)
         == MatchingEntries(entries[..i], subject)
            + if Matches(Split(entries[i].pattern), subject) then entries[i].clients else {}
  {
    var front, more := entries[..i], entries[..i + 1];
    assert forall j :: 0 <= j < i ==> more[j] == front[j];
    forall id | id in MatchingEntries(front, subject)
      ensures id in MatchingEntries(more, subject)
    {
      var j :| 0 <= j < |front| && Matches(Split(front[j].pattern), subject) && id in front[j].clients;
      assert more[j] == front[j];
    }
    assert more[i] == entries[i];
  }

  // ---------------------------------------------------------------------------
  // The in-place registry
  // ---------------------------------------------------------------------------

  class ClientState {
    const id: ClientId
    var subscriptions: set<string>
    var lastPing: int

    constructor (id: ClientId, now: int)
      ensures this.id == id && subscriptions == {} && lastPing == now
    {
      this.id, subscriptions, lastPing := id, {}, now;
    }
  }

  class ClientRegistry {
    var clients: map<ClientId, ClientState>
    var subscriptions: Index
    var exactSubscriptions: Index
    var wildcardPatterns: seq<WildcardEntry>
    ghost var held: map<ClientId, set<string>>
    ghost var repr: set<ClientState>

    /** `held` is what the registered client objects hold, each filed under its own id. */
    ghost predicate Valid()
      reads this`clients, this`held, this`repr, repr
    {
      && clients.Keys == held.Keys
      && (forall id :: id in clients ==> clients[id] in repr && clients[id].id == id)
      && (forall id :: id in clients ==> clients[id].subscriptions == held[id])
    }

    ghost function Value(): RegistryValue
      reads this`held, this`subscriptions, this`exactSubscriptions, this`wildcardPatterns
    {
      RegistryValue(held, subscriptions, exactSubscriptions, wildcardPatterns)
    }

    constructor ()
      ensures Valid() && Value() == EMPTY_REGISTRY && repr == {}
    {
      clients, held, repr := map[], map[], {};
      subscriptions, exactSubscriptions, wildcardPatterns := map[], map[], [];
    }

    method Register(client: ClientState)
      requires Valid()
      modifies this`clients, this`held, this`repr
      ensures Valid() && repr == old(repr) + {client}
      ensures Value() == Registered(old(Value()), client.id, client.subscriptions)
      ensures clients == old(clients)[client.id := client]
    {
      clients := clients[client.id := client];
      held := held[client.id := client.subscriptions];
      repr := repr + {client};
    }

    method Subscribe(id: ClientId, subjects: seq<string>) returns (result: Result<(), GatewayError>)
      requires Valid()
      modifies this, repr`subscriptions
      ensures Valid() && clients == old(clients) && repr == old(repr)
      ensures result == if id in clients then Ok(()) else Err(ClientNotFound(id))
      ensures Value() == if id in clients then SubscribeAll(old(Value()), id, subjects) else old(Value())
    {
      if id !in clients {
        return Err(ClientNotFound(id));
      }
      for i := 0 to |subjects|
        invariant Valid() && clients == old(clients) && repr == old(repr)
        invariant Value() == SubscribeAll(old(Value()), id, subjects[..i])
      {
        assert subjects[..i + 1][..i] == subjects[..i];
        AddSubject(clients[id], subjects[i]);
      }
      assert subjects[..|subjects|] == subjects;
      return Ok(());
    }

    method AddSubject(client: ClientState, subject: string)
      requires Valid() && client.id in clients && clients[client.id] == client
      modifies this, client`subscriptions
      ensures Valid() && clients == old(clients) && repr == old(repr)
      ensures Value() == SubscribeOne(old(Value()), client.id, subject)
    {
      client.subscriptions := client.subscriptions + {subject};
      held := held[client.id := client.subscriptions];
      subscriptions := AddTo(subscriptions, subject, client.id);
      if IsWildcardPattern(subject) {
        AddToPattern(subject, client.id);
      } else {
        exactSubscriptions := AddTo(exactSubscriptions, subject, client.id);
      }
    }

    method AddToPattern(pattern: string, id: ClientId)
      modifies this`wildcardPatterns
      ensures wildcardPatterns == AddWildcard(old(wildcardPatterns), pattern, id)
    {
      var k := FindPattern(pattern);
      if k < |wildcardPatterns| {
        wildcardPatterns := wildcardPatterns[k := WildcardEntry(pattern, wildcardPatterns[k].clients + {id})];
      } else {
        wildcardPatterns := wildcardPatterns + [WildcardEntry(pattern, {id})];
      }
    }

    method RemoveFromPattern(pattern: string, id: ClientId)
      modifies this`wildcardPatterns
      ensures wildcardPatterns == DropWildcard(old(wildcardPatterns), pattern, id)
    {
      var k := FindPattern(pattern);
      if k < |wildcardPatterns| {
        wildcardPatterns := wildcardPatterns[k := WildcardEntry(pattern, wildcardPatterns[k].clients - {id})];
      }
    }

    method FindPattern(pattern: string) returns (k: nat)
      ensures k == Find(wildcardPatterns, pattern)
    {
      k := 0;
      while k < |wildcardPatterns| && wildcardPatterns[k].pattern != pattern
        invariant k <= Find(wildcardPatterns, pattern)
      {
        k := k + 1;
      }
    }

    method Unsubscribe(id: ClientId, subjects: seq<string>) returns (result: Result<(), GatewayError>)
      requires Valid()
      modifies this, repr`subscriptions
      ensures Valid() && clients == old(clients) && repr == old(repr)
      ensures result == if id in clients then Ok(()) else Err(ClientNotFound(id))
      ensures Value() == if id in clients then UnsubscribeAll(old(Value()), id, subjects) else old(Value())
    {
      if id !in clients {
        return Err(ClientNotFound(id));
      }
      for i := 0 to |subjects|
        invariant Valid() && clients == old(clients) && repr == old(repr)
        invariant Value() == UnsubscribeAll(old(Value()), id, subjects[..i])
      {
        assert subjects[..i + 1][..i] == subjects[..i];
        RemoveSubject(clients[id], subjects[i]);
      }
      assert subjects[..|subjects|] == subjects;
      return Ok(());
    }

    method RemoveSubject(client: ClientState, subject: string)
      requires Valid() && client.id in clients && clients[client.id] == client
      modifies this, client`subscriptions
      ensures Valid() && clients == old(clients) && repr == old(repr)
      ensures Value() == UnsubscribeOne(old(Value()), client.id, subject)
    {
      client.subscriptions := client.subscriptions - {subject};
      held := held[client.id := client.subscriptions];
      subscriptions := DropFrom(subscriptions, subject, client.id);
      if IsWildcardPattern(subject) {
        RemoveFromPattern(subject, client.id);
      } else {
        exactSubscriptions := DropFrom(exactSubscriptions, subject, client.id);
      }
    }

    /** Removes the client, then clears it from the indices subject by subject in set order. */
    method Unregister(id: ClientId)
      requires Valid()
      modifies this
      ensures Valid() && clients == old(clients) - {id} && repr == old(repr)
      ensures Value() == Unregistered(old(Value()), id)
    {
      if id !in clients {
        assert clients - {id} == clients;
        return;
      }
      var subjects := clients[id].subscriptions;
      clients, held := clients - {id}, held - {id};
      ClearSubjects(id, subjects);
    }

    method ClearSubjects(id: ClientId, subjects: set<string>)
      modifies this`subscriptions, this`exactSubscriptions, this`wildcardPatterns
      ensures Value() == Withdraw(old(Value()), id, subjects)
    {
      var remaining := subjects;
      ghost var start, done := Value(), {};
      WithdrawNothing(start, id);
      while remaining != {}
        invariant done + remaining == subjects
        invariant Value() == Withdraw(start, id, done)
      {
        var subject :| subject in remaining;
        ClearSubject(id, subject);
        assert Value() == Withdraw(start, id, done + {subject}) by {
          WithdrawStep(start, id, done, subject);
        }
        remaining, done := remaining - {subject}, done + {subject};
      }
    }

    method ClearSubject(id: ClientId, subject: string)
      modifies this`subscriptions, this`exactSubscriptions, this`wildcardPatterns
      ensures Value() == WithdrawOne(old(Value()), id, subject)
    {
      subscriptions := DropFrom(subscriptions, subject, id);
      if IsWildcardPattern(subject) {
        ghost var before := wildcardPatterns;
        for i := 0 to |wildcardPatterns|
          invariant |wildcardPatterns| == |before|
          invariant forall j :: 0 <= j < |before| ==>
            wildcardPatterns[j]
              == if j < i then WildcardEntry(before[j].pattern, before[j].clients - {id}) else before[j]
          invariant subscriptions == DropFrom(old(subscriptions), subject, id)
          invariant exactSubscriptions == old(exactSubscriptions)
        {
          var entry := wildcardPatterns[i];
          wildcardPatterns := wildcardPatterns[i := WildcardEntry(entry.pattern, entry.clients - {id})];
        }
        assert wildcardPatterns == DropEverywhere(before, id);
      } else {
        exactSubscriptions := DropFrom(exactSubscriptions, subject, id);
      }
    }

    method CollectMatching(subject: string) returns (matched: set<ClientId>)
      ensures matched == FastMatching(Value(), subject)
    {
      matched := if subject in exactSubscriptions then exactSubscriptions[subject] else {};
      var parts := Split(subject);
      ghost var exact := matched;
      for i := 0 to |wildcardPatterns|
        invariant matched == exact + MatchingEntries(wildcardPatterns[..i], parts)
      {
        var entry := wildcardPatterns[i];
        MatchingEntriesStep(wildcardPatterns, i, parts);
        var matches := MatchesSubject(entry.pattern, parts);
        if matches {
          matched := matched + entry.clients;
        }
      }
      assert wildcardPatterns[..|wildcardPatterns|] == wildcardPatterns;
    }

    /** One exact lookup, one scan of the wildcard list; the result lists every client found once. */
    method GetMatchingSubscribers(subject: string) returns (found: seq<ClientState>)
      requires Valid()
      ensures forall i :: 0 <= i < |found| ==> found[i].id in clients && clients[found[i].id] == found[i]
      ensures forall i, j :: 0 <= i < j < |found| ==> found[i] != found[j]
      ensures (set client | client in found :: client.id) == FastMatching(Value(), subject) * clients.Keys
      ensures Indexed(Value()) ==> (set client | client in found :: client.id) == Matching(Value(), subject)
    {
      var matched := CollectMatching(subject);
      found := Resolve(matched);
      if Indexed(Value()) {
        FastLookupIsNaiveScan(Value(), subject);
      }
    }

    /** The states of those ids that are still registered, in set order. */
    method Resolve(ids: set<ClientId>) returns (found: seq<ClientState>)
      requires Valid()
      ensures forall i :: 0 <= i < |found| ==> found[i].id in clients && clients[found[i].id] == found[i]
      ensures forall i, j :: 0 <= i < j < |found| ==> found[i] != found[j]
      ensures (set client | client in found :: client.id) == ids * clients.Keys
    {
      found := [];
      var remaining := ids;
      ghost var seen := {};
      while remaining != {}
        invariant remaining <= ids && seen == (ids - remaining) * clients.Keys
        invariant forall i :: 0 <= i < |found| ==> found[i].id in seen && clients[found[i].id] == found[i]
        invariant forall id :: id in seen ==> clients[id] in found
        invariant forall i, j :: 0 <= i < j < |found| ==> found[i] != found[j]
      {
        var id :| id in remaining;
        remaining := remaining - {id};
        if id in clients {
          assert id !in seen;
          found, seen := found + [clients[id]], seen + {id};
        }
      }
      assert seen == ids * clients.Keys;
    }

    /** Collects the ids that have been idle for too long, then unregisters each. */
    method CleanupStaleClients(now: int, maxIdle: int)
      requires Valid()
      modifies this
      ensures Valid() && repr == old(repr)
      ensures old(Indexed(Value())) ==> Indexed(Value())
      ensures held == map id | id in old(held) && now - old(clients)[id].lastPing <= maxIdle :: old(held)[id]
    {
      var stale := set id | id in clients && now - clients[id].lastPing > maxIdle;
      var remaining := stale;
      ghost var gone := {};
      while remaining != {}
        invariant Valid() && repr == old(repr)
        invariant old(Indexed(Value())) ==> Indexed(Value())
        invariant gone + remaining == stale
        invariant held == old(held) - gone
      {
        var id :| id in remaining;
        if old(Indexed(Value())) {
          UnregisterKeepsIndexed(Value(), id);
        }
        Unregister(id);
        remaining, gone := remaining - {id}, gone + {id};
      }
    }
  }

  // ---------------------------------------------------------------------------
  // Requests
  // ---------------------------------------------------------------------------

  datatype ClientMessage = Subscribe(subjects: seq<string>) | Unsubscribe(subjects: seq<string>) | Ping

  predicate AllValid(subjects: seq<string>) {
    forall i :: 0 <= i < |subjects| ==> IsValidPattern(subjects[i])
  }

  /** The complaint about the first bad subject of a request. */
  ghost predicate IsFirstFault(subjects: seq<string>, reason: string) {
    exists i :: (
      && 0 <= i < |subjects|
      && !IsValidPattern(subjects[i]) && IsFault(subjects[i], reason)
      && forall j :: 0 <= j < i ==> IsValidPattern(subjects[j]))
  }

  /** What a message of one client does to the registry: a single bad subject makes a subscribe do nothing. */
  function Handled(r: RegistryValue, id: ClientId, msg: ClientMessage): RegistryValue {
    if id !in r.held then r
    else
      match msg
      case Subscribe(subjects) => if AllValid(subjects) then SubscribeAll(r, id, subjects) else r
      case Unsubscribe(subjects) => UnsubscribeAll(r, id, subjects)
      case Ping => r
  }

  /** The validation error of the first bad subject, if there is one. */
  method FirstInvalid(subjects: seq<string>) returns (error: Option<string>)
    ensures error.None? <==> AllValid(subjects)
    ensures error.Some? ==> IsFirstFault(subjects, error.value)
  {
    for i := 0 to |subjects|
      invariant forall j :: 0 <= j < i ==> IsValidPattern(subjects[j])
    {
      error := ValidatePattern(subjects[i]);
      if error.Some? {
        return error;
      }
    }
    return None;
  }

  class AppState {
    const registry: ClientRegistry

    constructor (registry: ClientRegistry)
      ensures this.registry == registry
    {
      this.registry := registry;
    }

    /** Validates, updates the registry, confirms; `sendOk` says whether the client's channel took the reply. */
    method HandleClientMessage(client: ClientState, msg: ClientMessage, now: int, sendOk: bool)
      returns (result: Result<(), GatewayError>)
      requires registry.Valid()
      modifies registry, registry.repr`subscriptions, client`lastPing
      ensures registry.Valid() && registry.clients == old(registry.clients) && registry.repr == old(registry.repr)
      ensures registry.Value() == Handled(old(registry.Value()), client.id, msg)
      ensures
        if msg.Subscribe? && !AllValid(msg.subjects) then
          result.Err? && result.error.InvalidSubject? && IsFirstFault(msg.subjects, result.error.reason)
        else if !msg.Ping? && client.id !in registry.clients then result == Err(ClientNotFound(client.id))
        else result == if sendOk then Ok(()) else Err(ChannelSend)
      ensures client.lastPing == if msg.Ping? then now else old(client.lastPing)
    {
      match msg {
        case Subscribe(subjects) =>
          var invalid := FirstInvalid(subjects);
          if invalid.Some? {
            return Err(InvalidSubject(invalid.value));
          }
          var subscribed := registry.Subscribe(client.id, subjects);
          if subscribed.Err? {
            return subscribed;
          }
        case Unsubscribe(subjects) =>
          var unsubscribed := registry.Unsubscribe(client.id, subjects);
          if unsubscribed.Err? {
            return unsubscribed;
          }
        case Ping =>
          client.lastPing := now;
      }
      return if sendOk then Ok(()) else Err(ChannelSend);
    }
  }

  /** Connections arrive with a fresh id and no subscriptions; stale cleanup is a series of disconnects. */
  datatype Request = Connect(id: ClientId) | Receive(id: ClientId, msg: ClientMessage) | Disconnect(id: ClientId)

  function Serve(r: RegistryValue, request: Request): RegistryValue {
    match request
    case Connect(id) => if id in r.held then r else Registered(r, id, {})
    case Receive(id, msg) => Handled(r, id, msg)
    case Disconnect(id) => Unregistered(r, id)
  }

  function RunRequests(requests: seq<Request>): RegistryValue {
    if requests == [] then EMPTY_REGISTRY
    else Serve(RunRequests(requests[..|requests| - 1]), requests[|requests| - 1])
  }

  ghost predicate OnlyValidPatterns(r: RegistryValue) {
    forall id, p :: Holds(r, id, p) ==> IsValidPattern(p)
  }

  lemma HeldAfterOne(r: RegistryValue, id: ClientId, subject: string)
    requires id in r.held
    ensures SubscribeOne(r, id, subject).held == r.held[id := r.held[id] + {subject}]
    ensures UnsubscribeOne(r, id, subject).held == r.held[id := r.held[id] - {subject}]
  {
  }

  lemma {:induction false} HeldAfterSubscribe(r: RegistryValue, id: ClientId, subjects: seq<string>)
    requires id in r.held
    ensures SubscribeAll(r, id, subjects).held == r.held[id := r.held[id] + SetOf(subjects)]
  {
    if subjects == [] {
      assert r.held[id] + SetOf(subjects) == r.held[id];
    } else {
      var front, last := subjects[..|subjects| - 1], subjects[|subjects| - 1];
      var before, kept := SubscribeAll(r, id, front), r.held[id] + SetOf(front);
      assert before.held == r.held[id := kept] by {
        HeldAfterSubscribe(r, id, front);
      }
      assert r.held[id] + SetOf(subjects) == kept + {last} by {
        assert subjects == front + [last];
      }
      HeldAfterOne(before, id, last);
      assert before.held[id := kept + {last}] == r.held[id := kept + {last}];
    }
  }

  lemma {:induction false} HeldAfterUnsubscribe(r: RegistryValue, id: ClientId, subjects: seq<string>)
    requires id in r.held
    ensures UnsubscribeAll(r, id, subjects).held == r.held[id := r.held[id] - SetOf(subjects)]
  {
    if subjects == [] {
      assert r.held[id] - SetOf(subjects) == r.held[id];
    } else {
      var front, last := subjects[..|subjects| - 1], subjects[|subjects| - 1];
      var before, kept := UnsubscribeAll(r, id, front), r.held[id] - SetOf(front);
      assert before.held == r.held[id := kept] by {
        HeldAfterUnsubscribe(r, id, front);
      }
      assert r.held[id] - SetOf(subjects) == kept - {last} by {
        assert subjects == front + [last];
      }
      HeldAfterOne(before, id, last);
      assert before.held[id := kept - {last}] == r.held[id := kept - {last}];
    }
  }

  lemma ServeKeepsInvariants(r: RegistryValue, request: Request)
    requires Indexed(r) && OnlyValidPatterns(r)
    ensures Indexed(Serve(r, request)) && OnlyValidPatterns(Serve(r, request))
  {
    var after := Serve(r, request);
    match request {
      case Connect(id) =>
        RegisterKeepsIndexedIff(r, id, {});
        assert forall c, p :: Holds(after, c, p) ==> Holds(r, c, p);
      case Disconnect(id) =>
        UnregisterKeepsIndexed(r, id);
        assert forall c, p :: Holds(after, c, p) ==> Holds(r, c, p);
      case Receive(id, msg) =>
        if id in r.held && msg.Subscribe? && after != r {
          SubscribeKeepsIndexed(r, id, msg.subjects);
          HeldAfterSubscribe(r, id, msg.subjects);
          assert forall c, p :: Holds(after, c, p) ==> Holds(r, c, p) || p in msg.subjects;
        } else if id in r.held && msg.Unsubscribe? {
          UnsubscribeKeepsIndexed(r, id, msg.subjects);
          HeldAfterUnsubscribe(r, id, msg.subjects);
          assert forall c, p :: Holds(after, c, p) ==> Holds(r, c, p);
        }
    }
  }

  /** After any run of requests the indices are exact and every pattern held is a valid one. */
  lemma {:induction false} ReachableRegistry(requests: seq<Request>)
    ensures Indexed(RunRequests(requests)) && OnlyValidPatterns(RunRequests(requests))
  {
    if requests != [] {
      ReachableRegistry(requests[..|requests| - 1]);
      ServeKeepsInvariants(RunRequests(requests[..|requests| - 1]), requests[|requests| - 1]);
    }
  }

  /** After any run of requests the fast lookup finds exactly the clients a scan of all patterns finds. */
  lemma ReachableLookup(requests: seq<Request>, subject: string)
    ensures FastMatching(RunRequests(requests), subject) == Matching(RunRequests(requests), subject)
  {
    ReachableRegistry(requests);
    FastLookupIsNaiveScan(RunRequests(requests), subject);
  }

  /** By the requests alone: the client has connected and not disconnected since. */
  predicate Online(requests: seq<Request>, id: ClientId) {
    if requests == [] then false
    else
      var request, front := requests[|requests| - 1], requests[..|requests| - 1];
      if request.id != id || request.Receive? then Online(front, id) else request.Connect?
  }

  /** By the requests alone: the client's last word on the pattern is a subscribe that was accepted. */
  predicate Asked(requests: seq<Request>, id: ClientId, pattern: string) {
    if requests == [] then false
    else
      var request, front := requests[|requests| - 1], requests[..|requests| - 1];
      if request.id != id then Asked(front, id, pattern)
      else
        match request
        case Connect(_) => Asked(front, id, pattern)
        case Disconnect(_) => false
        case Receive(_, Subscribe(subjects)) =>
          Asked(front, id, pattern) || (Online(front, id) && AllValid(subjects) && pattern in subjects)
        case Receive(_, Unsubscribe(subjects)) => Asked(front, id, pattern) && pattern !in subjects
        case Receive(_, Ping) => Asked(front, id, pattern)
  }

  /** What one request does to one held pattern. */
  lemma HoldsAfterRequest(r: RegistryValue, request: Request, id: ClientId, pattern: string)
    ensures Holds(Serve(r, request), id, pattern) <==>
      if request.id != id then Holds(r, id, pattern)
      else
        match request
        case Connect(_) => Holds(r, id, pattern)
        case Disconnect(_) => false
        case Receive(_, Subscribe(subjects)) =>
          Holds(r, id, pattern) || (id in r.held && AllValid(subjects) && pattern in subjects)
        case Receive(_, Unsubscribe(subjects)) => Holds(r, id, pattern) && pattern !in subjects
        case Receive(_, Ping) => Holds(r, id, pattern)
  {
    if request.Receive? && request.id in r.held {
      match request.msg {
        case Subscribe(subjects) => HeldAfterSubscribe(r, request.id, subjects);
        case Unsubscribe(subjects) => HeldAfterUnsubscribe(r, request.id, subjects);
        case Ping =>
      }
    }
  }

  lemma RegisteredAfterRequest(r: RegistryValue, request: Request, id: ClientId)
    ensures id in Serve(r, request).held <==>
      if request.id != id || request.Receive? then id in r.held else request.Connect?
  {
  }

  /** The registry holds, after any run, exactly what the requests ask for. */
  lemma {:induction false} RegistryRefinesRequests(requests: seq<Request>, id: ClientId, pattern: string)
    ensures id in RunRequests(requests).held <==> Online(requests, id)
    ensures Holds(RunRequests(requests), id, pattern) <==> Asked(requests, id, pattern)
  {
    if requests != [] {
      var request, front := requests[|requests| - 1], requests[..|requests| - 1];
      RegistryRefinesRequests(front, id, pattern);
      RegisteredAfterRequest(RunRequests(front), request, id);
      HoldsAfterRequest(RunRequests(front), request, id, pattern);
    }
  }

  /** The client's requests ask for the subject by this pattern. */
  predicate AsksFor(requests: seq<Request>, id: ClientId, pattern: string, subject: string) {
    Asked(requests, id, pattern) && Matches(Split(pattern), Split(subject))
  }

  /** A subject reaches exactly the clients whose requests ask for some pattern that matches it. */
  lemma LookupByRequests(requests: seq<Request>, id: ClientId, subject: string)
    ensures id in FastMatching(RunRequests(requests), subject) <==> exists p :: AsksFor(requests, id, p, subject)
  {
    var r := RunRequests(requests);
    ReachableLookup(requests, subject);
    if id in Matching(r, subject) {
      var p :| p in r.held[id] && Matches(Split(p), Split(subject));
      RegistryRefinesRequests(requests, id, p);
      assert Holds(r, id, p) && AsksFor(requests, id, p, subject);
    }
    if p :| AsksFor(requests, id, p, subject) {
      RegistryRefinesRequests(requests, id, p);
      assert Holds(r, id, p);
    }
  }

  /** A request of one client changes neither what another client holds nor which subjects reach it. */
  lemma RequestsAreIsolated(r: RegistryValue, request: Request, other: ClientId, subject: string)
    requires other != request.id
    ensures var after := Serve(r, request);
      && (other in after.held <==> other in r.held)
      && (other in r.held ==> after.held[other] == r.held[other])
      && (other in Matching(after, subject) <==> other in Matching(r, subject))
  {
    if request.Receive? && request.id in r.held {
      match request.msg {
        case Subscribe(subjects) => HeldAfterSubscribe(r, request.id, subjects);
        case Unsubscribe(subjects) => HeldAfterUnsubscribe(r, request.id, subjects);
        case Ping =>
      }
    }
  }
}
