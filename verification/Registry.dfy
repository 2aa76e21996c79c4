// The gateway's client registry. One relation, "client holds pattern", is stored four times: in the
// clients themselves, in a main index, in an exact index and in a list of wildcard patterns.

module Registry {
  import opened Prelude
  import opened Subjects

  type ClientId = nat

  type Index = map<string, set<ClientId>>

  datatype WildcardEntry = WildcardEntry(pattern: string, clients: set<ClientId>)

  /** The registry's data as values: what each client holds, and the three indices. */
  datatype RegistryValue = RegistryValue(
    held: map<ClientId, set<string>>,
    main: Index,
    exact: Index,
    wildcards: seq<WildcardEntry>)

  const EMPTY_REGISTRY := RegistryValue(map[], map[], map[], [])

  // ---------------------------------------------------------------------------
  // Index updates
  // ---------------------------------------------------------------------------

  function AddTo(index: Index, subject: string, id: ClientId): Index {
    index[subject := (if subject in index then index[subject] else {}) + {id}]
  }

  function DropFrom(index: Index, subject: string, id: ClientId): Index {
    if subject in index then index[subject := index[subject] - {id}] else index
  }

  /** The position of the first entry for a pattern, or the length of the list. */
  function Find(entries: seq<WildcardEntry>, pattern: string): (k: nat)
    ensures k <= |entries|
    ensures k < |entries| ==> entries[k].pattern == pattern
    ensures forall i :: 0 <= i < k ==> entries[i].pattern != pattern
  {
    if entries == [] || entries[0].pattern == pattern then 0 else 1 + Find(entries[1..], pattern)
  }

  function AddWildcard(entries: seq<WildcardEntry>, pattern: string, id: ClientId): seq<WildcardEntry> {
    var k := Find(entries, pattern);
    if k < |entries| then entries[k := WildcardEntry(pattern, entries[k].clients + {id})]
    else entries + [WildcardEntry(pattern, {id})]
  }

  function DropWildcard(entries: seq<WildcardEntry>, pattern: string, id: ClientId): seq<WildcardEntry> {
    var k := Find(entries, pattern);
    if k < |entries| then entries[k := WildcardEntry(pattern, entries[k].clients - {id})] else entries
  }

  function DropEverywhere(entries: seq<WildcardEntry>, id: ClientId): seq<WildcardEntry> {
    seq(|entries|, i requires 0 <= i < |entries| => WildcardEntry(entries[i].pattern, entries[i].clients - {id}))
  }

  // ---------------------------------------------------------------------------
  // The operations as value transformers
  // ---------------------------------------------------------------------------

  function SubscribeOne(r: RegistryValue, id: ClientId, subject: string): RegistryValue
    requires id in r.held
  {
    var indexed := r.(held := r.held[id := r.held[id] + {subject}], main := AddTo(r.main, subject, id));
    if IsWildcardPattern(subject) then indexed.(wildcards := AddWildcard(r.wildcards, subject, id))
    else indexed.(exact := AddTo(r.exact, subject, id))
  }

  function UnsubscribeOne(r: RegistryValue, id: ClientId, subject: string): RegistryValue
    requires id in r.held
  {
    var indexed := r.(held := r.held[id := r.held[id] - {subject}], main := DropFrom(r.main, subject, id));
    if IsWildcardPattern(subject) then indexed.(wildcards := DropWildcard(r.wildcards, subject, id))
    else indexed.(exact := DropFrom(r.exact, subject, id))
  }

  function SubscribeAll(r: RegistryValue, id: ClientId, subjects: seq<string>): (after: RegistryValue)
    requires id in r.held
    ensures after.held.Keys == r.held.Keys
  {
    if subjects == [] then r
    else SubscribeOne(SubscribeAll(r, id, subjects[..|subjects| - 1]), id, subjects[|subjects| - 1])
  }

  function UnsubscribeAll(r: RegistryValue, id: ClientId, subjects: seq<string>): (after: RegistryValue)
    requires id in r.held
    ensures after.held.Keys == r.held.Keys
  {
    if subjects == [] then r
    else UnsubscribeOne(UnsubscribeAll(r, id, subjects[..|subjects| - 1]), id, subjects[|subjects| - 1])
  }

  /** Takes a client out of the indices of the given subjects; one wildcard subject clears the whole list. */
  function Withdraw(r: RegistryValue, id: ClientId, subjects: set<string>): RegistryValue {
    r.(main := map s | s in r.main :: if s in subjects then r.main[s] - {id} else r.main[s],
       exact :=
         map s | s in r.exact :: if s in subjects && !IsWildcardPattern(s) then r.exact[s] - {id} else r.exact[s],
       wildcards :=
         if exists s | s in subjects :: IsWildcardPattern(s) then DropEverywhere(r.wildcards, id) else r.wildcards)
  }

  function Unregistered(r: RegistryValue, id: ClientId): RegistryValue {
    if id in r.held then Withdraw(r.(held := r.held - {id}), id, r.held[id]) else r
  }

  function Registered(r: RegistryValue, id: ClientId, subscriptions: set<string>): RegistryValue {
    r.(held := r.held[id := subscriptions])
  }

  // ---------------------------------------------------------------------------
  // The index invariant
  // ---------------------------------------------------------------------------

  predicate Holds(r: RegistryValue, id: ClientId, subject: string) {
    id in r.held && subject in r.held[id]
  }

  predicate InIndex(index: Index, subject: string, id: ClientId) {
    subject in index && id in index[subject]
  }

  predicate InWildcards(entries: seq<WildcardEntry>, subject: string, id: ClientId) {
    exists i :: 0 <= i < |entries| && entries[i].pattern == subject && id in entries[i].clients
  }

  ghost predicate DistinctPatterns(entries: seq<WildcardEntry>) {
    forall i, j :: 0 <= i < j < |entries| ==> entries[i].pattern != entries[j].pattern
  }

  /** The three indices record one client-subject pair exactly as the client does. */
  predicate PairIndexed(r: RegistryValue, id: ClientId, subject: string) {
    && (InIndex(r.main, subject, id) <==> Holds(r, id, subject))
    && (InIndex(r.exact, subject, id) <==> Holds(r, id, subject) && !IsWildcardPattern(subject))
    && (InWildcards(r.wildcards, subject, id) <==> Holds(r, id, subject) && IsWildcardPattern(subject))
  }

  /** The indices are the inverse of what the clients hold, and each wildcard pattern has one entry. */
  ghost predicate Indexed(r: RegistryValue) {
    && (forall id, subject :: PairIndexed(r, id, subject))
    && DistinctPatterns(r.wildcards)
  }

  /** No index mentions a client that is not registered. */
  lemma IndexedMentionsOnlyClients(r: RegistryValue, id: ClientId, subject: string)
    requires Indexed(r) && id !in r.held
    ensures !InIndex(r.main, subject, id) && !InIndex(r.exact, subject, id) && !InWildcards(r.wildcards, subject, id)
  {
    assert PairIndexed(r, id, subject);
  }

  lemma InAddWildcard(entries: seq<WildcardEntry>, pattern: string, id: ClientId, s: string, c: ClientId)
    requires DistinctPatterns(entries)
    ensures DistinctPatterns(AddWildcard(entries, pattern, id))
    ensures InWildcards(AddWildcard(entries, pattern, id), s, c)
      <==> InWildcards(entries, s, c) || (s == pattern && c == id)
  {
    var k, after := Find(entries, pattern), AddWildcard(entries, pattern, id);
    if i :| 0 <= i < |entries| && entries[i].pattern == s && c in entries[i].clients {
      assert after[i].pattern == s && c in after[i].clients;
    }
    assert after[k].pattern == pattern && id in after[k].clients;
  }

  lemma InDropWildcard(entries: seq<WildcardEntry>, pattern: string, id: ClientId, s: string, c: ClientId)
    requires DistinctPatterns(entries)
    ensures DistinctPatterns(DropWildcard(entries, pattern, id))
    ensures InWildcards(DropWildcard(entries, pattern, id), s, c)
      <==> InWildcards(entries, s, c) && !(s == pattern && c == id)
  {
    var after := DropWildcard(entries, pattern, id);
    if i :| 0 <= i < |entries| && entries[i].pattern == s && c in entries[i].clients {
      if s != pattern || c != id {
        assert after[i].pattern == s && c in after[i].clients;
      }
    }
  }

  lemma InDropEverywhere(entries: seq<WildcardEntry>, id: ClientId, s: string, c: ClientId)
    requires DistinctPatterns(entries)
    ensures DistinctPatterns(DropEverywhere(entries, id))
    ensures InWildcards(DropEverywhere(entries, id), s, c) <==> InWildcards(entries, s, c) && c != id
  {
    var after := DropEverywhere(entries, id);
    if i :| 0 <= i < |entries| && entries[i].pattern == s && c in entries[i].clients && c != id {
      assert after[i].pattern == s && c in after[i].clients;
    }
  }

  lemma SubscribeOneKeepsIndexed(r: RegistryValue, id: ClientId, subject: string)
    requires Indexed(r) && id in r.held
    ensures Indexed(SubscribeOne(r, id, subject))
  {
    var after := SubscribeOne(r, id, subject);
    InAddWildcard(r.wildcards, subject, id, subject, id);
    forall c, s
      ensures PairIndexed(after, c, s)
    {
      assert PairIndexed(r, c, s);
      InAddWildcard(r.wildcards, subject, id, s, c);
    }
  }

  lemma UnsubscribeOneKeepsIndexed(r: RegistryValue, id: ClientId, subject: string)
    requires Indexed(r) && id in r.held
    ensures Indexed(UnsubscribeOne(r, id, subject))
  {
    var after := UnsubscribeOne(r, id, subject);
    InDropWildcard(r.wildcards, subject, id, subject, id);
    forall c, s
      ensures PairIndexed(after, c, s)
    {
      assert PairIndexed(r, c, s);
      InDropWildcard(r.wildcards, subject, id, s, c);
    }
  }

  lemma {:induction false} SubscribeKeepsIndexed(r: RegistryValue, id: ClientId, subjects: seq<string>)
    requires Indexed(r) && id in r.held
    ensures Indexed(SubscribeAll(r, id, subjects))
  {
    if subjects != [] {
      SubscribeKeepsIndexed(r, id, subjects[..|subjects| - 1]);
      SubscribeOneKeepsIndexed(SubscribeAll(r, id, subjects[..|subjects| - 1]), id, subjects[|subjects| - 1]);
    }
  }

  lemma {:induction false} UnsubscribeKeepsIndexed(r: RegistryValue, id: ClientId, subjects: seq<string>)
    requires Indexed(r) && id in r.held
    ensures Indexed(UnsubscribeAll(r, id, subjects))
  {
    if subjects != [] {
      UnsubscribeKeepsIndexed(r, id, subjects[..|subjects| - 1]);
      UnsubscribeOneKeepsIndexed(UnsubscribeAll(r, id, subjects[..|subjects| - 1]), id, subjects[|subjects| - 1]);
    }
  }

  lemma UnregisterKeepsIndexed(r: RegistryValue, id: ClientId)
    requires Indexed(r)
    ensures Indexed(Unregistered(r, id))
  {
    if id in r.held {
      var after := Unregistered(r, id);
      InDropEverywhere(r.wildcards, id, "", id);
      forall c, s
        ensures PairIndexed(after, c, s)
      {
        assert PairIndexed(r, c, s);
        InDropEverywhere(r.wildcards, id, s, c);
      }
    }
  }

  /** The subjects under which the main index already lists a client. */
  function ListedUnder(r: RegistryValue, id: ClientId): set<string> {
    set s | s in r.main && id in r.main[s]
  }

  /**
   * Registering inserts the client and touches no index, so the registry stays consistent exactly when
   * the client arrives holding what is already listed for its id: nothing, for an id not in use.
   */
  lemma RegisterKeepsIndexedIff(r: RegistryValue, id: ClientId, subscriptions: set<string>)
    requires Indexed(r)
    ensures Indexed(Registered(r, id, subscriptions)) <==> subscriptions == ListedUnder(r, id)
    ensures id !in r.held ==> ListedUnder(r, id) == {}
  {
    var after := Registered(r, id, subscriptions);
    forall s
      ensures s in ListedUnder(r, id) <==> Holds(r, id, s)
    {
      assert PairIndexed(r, id, s);
    }
    if subscriptions == ListedUnder(r, id) {
      forall c, s
        ensures PairIndexed(after, c, s)
      {
        assert PairIndexed(r, c, s);
        assert Holds(after, c, s) <==> Holds(r, c, s);
      }
    } else if Indexed(after) {
      forall s
        ensures s in subscriptions <==> s in ListedUnder(r, id)
      {
        assert PairIndexed(after, id, s);
        assert Holds(after, id, s) <==> s in subscriptions;
      }
      assert false;
    }
  }

  // ---------------------------------------------------------------------------
  // Lookup
  // ---------------------------------------------------------------------------

  /** The naive scan: every registered client holding some pattern that matches. */
  function Matching(r: RegistryValue, subject: string): set<ClientId> {
    set id | id in r.held && exists p | p in r.held[id] :: Matches(Split(p), Split(subject))
  }

  /** The clients of every matching wildcard entry. */
  function MatchingEntries(entries: seq<WildcardEntry>, subject: seq<string>): set<ClientId> {
    set i, id | 0 <= i < |entries| && Matches(Split(entries[i].pattern), subject) && id in entries[i].clients :: id
  }

  /** The fast path: the exact entry of the subject, and the matching wildcard entries. */
  function FastMatching(r: RegistryValue, subject: string): set<ClientId> {
    (if subject in r.exact then r.exact[subject] else {}) + MatchingEntries(r.wildcards, Split(subject))
  }

  lemma FastLookupIsNaiveScan(r: RegistryValue, subject: string)
    requires Indexed(r)
    ensures FastMatching(r, subject) == Matching(r, subject)
  {
    forall id | id in FastMatching(r, subject)
      ensures id in Matching(r, subject)
    {
      if InIndex(r.exact, subject, id) {
        assert PairIndexed(r, id, subject);
        ExactPatternMatchesItself(subject, subject);
      } else {
        var i :| 0 <= i < |r.wildcards| && Matches(Split(r.wildcards[i].pattern), Split(subject))
          && id in r.wildcards[i].clients;
        assert InWildcards(r.wildcards, r.wildcards[i].pattern, id);
        assert PairIndexed(r, id, r.wildcards[i].pattern);
      }
    }
    forall id | id in Matching(r, subject)
      ensures id in FastMatching(r, subject)
    {
      var p :| p in r.held[id] && Matches(Split(p), Split(subject));
      assert Holds(r, id, p) && PairIndexed(r, id, p);
      if IsWildcardPattern(p) {
        var i :| 0 <= i < |r.wildcards| && r.wildcards[i].pattern == p && id in r.wildcards[i].clients;
      } else {
        ExactPatternMatchesItself(p, subject);
      }
    }
  }
}
