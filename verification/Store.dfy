// The store: market -> asset -> book, its statistics, and concurrent appliers.

module Store {
  import opened Prelude
  import opened Sums
  import opened Schema
  import opened Levels
  import opened Books

  datatype Key = Key(marketId: string, assetId: string)

  function KeyOf(msg: Message): Key {
    Key(msg.marketId, msg.assetId)
  }

  type StoreValue = map<Key, BookValue>

  /** The book under a key; a key nobody wrote to reads as the book that would be created for it. */
  function BookAt(store: StoreValue, key: Key): BookValue {
    if key in store then store[key] else EmptyBook(key.assetId, key.marketId)
  }

  function ApplyToStore(parse: Parser, store: StoreValue, msg: Message): StoreValue {
    store[KeyOf(msg) := ApplyMessage(parse, BookAt(store, KeyOf(msg)), msg)]
  }

  function RunFrom(parse: Parser, store: StoreValue, messages: seq<Message>): StoreValue {
    if messages == [] then store
    else ApplyToStore(parse, RunFrom(parse, store, messages[..|messages| - 1]), messages[|messages| - 1])
  }

  function RunStore(parse: Parser, history: seq<Message>): StoreValue {
    RunFrom(parse, map[], history)
  }

  // ---------------------------------------------------------------------------
  // The in-place store
  // ---------------------------------------------------------------------------

  class OrderbookStore {
    const parse: Parser
    var books: map<Key, Orderbook>
    var totalSnapshots: nat
    var totalDeltas: nat
    ghost var value: StoreValue
    ghost var repr: set<Orderbook>

    /** Every key owns its own book object, labelled with the key, and `value` is what those objects hold. */
    ghost predicate Valid()
      reads this`books, this`value, this`repr, repr
    {
      && books.Keys == value.Keys
      && (forall key :: key in books ==> books[key] in repr && Labelled(books[key], key))
      && (forall key :: key in books ==> books[key].Value() == value[key])
    }

    ghost predicate Labelled(book: Orderbook, key: Key) {
      book.parse == parse && book.marketId == key.marketId && book.assetId == key.assetId
    }

    constructor (parse: Parser)
      ensures Valid() && this.parse == parse && repr == {}
      ensures value == map[] && totalSnapshots == totalDeltas == 0
    {
      this.parse, books, totalSnapshots, totalDeltas, value, repr := parse, map[], 0, 0, map[], {};
    }

    method Apply(msg: Message)
      requires Valid()
      modifies this, repr
      ensures Valid() && fresh(repr - old(repr))
      ensures value == ApplyToStore(parse, old(value), msg)
      ensures totalSnapshots == old(totalSnapshots) + if msg.messageType.Snapshot? then 1 else 0
      ensures totalDeltas == old(totalDeltas) + if msg.messageType.Delta? then 1 else 0
    {
      UpdateEntry(msg);
      CountApplied(msg.messageType);
    }

    /** Gets or creates the book, then updates it. */
    method UpdateEntry(msg: Message)
      requires Valid()
      modifies this`books, this`value, this`repr, repr
      ensures Valid() && fresh(repr - old(repr))
      ensures value == ApplyToStore(parse, old(value), msg)
    {
      ghost var target := ApplyToStore(parse, value, msg);
      GetOrCreate(KeyOf(msg));
      assert ApplyToStore(parse, value, msg) == target;
      UpdateBook(msg);
    }

    method CountApplied(kind: MessageType)
      modifies this`totalSnapshots, this`totalDeltas
      ensures totalSnapshots == old(totalSnapshots) + if kind.Snapshot? then 1 else 0
      ensures totalDeltas == old(totalDeltas) + if kind.Delta? then 1 else 0
    {
      match kind {
        case Snapshot => totalSnapshots := totalSnapshots + 1;
        case Delta => totalDeltas := totalDeltas + 1;
      }
    }

    method GetOrCreate(key: Key)
      requires Valid()
      modifies this`books, this`value, this`repr
      ensures Valid() && fresh(repr - old(repr)) && key in books
      ensures value == old(value)[key := BookAt(old(value), key)]
    {
      if key !in books {
        Create(key);
      }
    }

    method Create(key: Key)
      requires Valid() && key !in books
      modifies this`books, this`value, this`repr
      ensures Valid() && fresh(repr - old(repr)) && key in books
      ensures value == old(value)[key := EmptyBook(key.assetId, key.marketId)]
    {
      var book := new Orderbook(parse, key.assetId, key.marketId);
      books := books[key := book];
      value, repr := value[key := EmptyBook(key.assetId, key.marketId)], repr + {book};
    }

    method UpdateBook(msg: Message)
      requires Valid() && KeyOf(msg) in books
      modifies this`value, repr
      ensures Valid()
      ensures value == ApplyToStore(parse, old(value), msg)
    {
      var book := books[KeyOf(msg)];
      book.Apply(msg);
      value := value[KeyOf(msg) := book.Value()];
      assert forall key :: key in books && key != KeyOf(msg) ==> books[key] != book;
    }
  }

  // ---------------------------------------------------------------------------
  // Decomposition by key
  // ---------------------------------------------------------------------------

  /** The messages addressed to one book, in order. */
  function For(history: seq<Message>, key: Key): seq<Message> {
    if history == [] then []
    else
      var older := For(history[..|history| - 1], key);
      if KeyOf(history[|history| - 1]) == key then older + [history[|history| - 1]] else older
  }

  lemma ForLast(history: seq<Message>, key: Key)
    requires history != []
    ensures var front, last := history[..|history| - 1], history[|history| - 1];
      var mine := For(history, key);
      if KeyOf(last) != key then mine == For(front, key)
      else mine != [] && mine[|mine| - 1] == last && mine[..|mine| - 1] == For(front, key)
  {
  }

  lemma ForStep(history: seq<Message>, msg: Message, key: Key)
    ensures For(history + [msg], key) == if KeyOf(msg) == key then For(history, key) + [msg] else For(history, key)
  {
    assert (history + [msg])[..|history|] == history;
  }

  /** A book's messages are those with its market and its asset, and only those. */
  lemma {:induction false} ForIsOwn(history: seq<Message>, key: Key, msg: Message)
    ensures msg in For(history, key) <==> msg in history && msg.marketId == key.marketId && msg.assetId == key.assetId
  {
    if history != [] {
      var front, last := history[..|history| - 1], history[|history| - 1];
      ForIsOwn(front, key, msg);
      assert history == front + [last];
    }
  }

  lemma {:induction false} OwnMessages(history: seq<Message>, key: Key)
    requires forall i :: 0 <= i < |history| ==> KeyOf(history[i]) == key
    ensures For(history, key) == history
  {
    if history != [] {
      OwnMessages(history[..|history| - 1], key);
    }
  }

  /** The messages of a book among the first `n` come first among all its messages. */
  lemma {:induction false} ForPrefix(history: seq<Message>, n: nat, key: Key)
    requires n <= |history|
    ensures For(history[..n], key) <= For(history, key)
  {
    if n == |history| {
      assert history[..n] == history;
    } else {
      var front := history[..|history| - 1];
      assert front[..n] == history[..n];
      ForPrefix(front, n, key);
    }
  }

  /** From any store on, each book goes on with its own messages; a book exists once addressed. */
  lemma {:induction false} RunFromDecomposes(parse: Parser, store: StoreValue, messages: seq<Message>, key: Key)
    ensures key in RunFrom(parse, store, messages) <==> key in store || For(messages, key) != []
    ensures BookAt(RunFrom(parse, store, messages), key) == RunBook(parse, BookAt(store, key), For(messages, key))
  {
    if messages != [] {
      var front, msg := messages[..|messages| - 1], messages[|messages| - 1];
      RunFromDecomposes(parse, store, front, key);
      if KeyOf(msg) == key {
        assert For(messages, key)[..|For(messages, key)| - 1] == For(front, key);
      }
    }
  }

  /** Each book is the run of its own messages and carries its own ids. */
  lemma StoreDecomposes(parse: Parser, history: seq<Message>, key: Key)
    ensures key in RunStore(parse, history) <==> For(history, key) != []
    ensures BookAt(RunStore(parse, history), key)
         == RunBook(parse, EmptyBook(key.assetId, key.marketId), For(history, key))
  {
    RunFromDecomposes(parse, map[], history, key);
  }

  // ---------------------------------------------------------------------------
  // Statistics under concurrent appliers
  // ---------------------------------------------------------------------------

  /** An apply is two atomic steps: the book update, then the counter increment. */
  datatype Step = UpdateStep(msg: Message) | CountStep(kind: MessageType)

  datatype Shared = Shared(store: StoreValue, totalSnapshots: nat, totalDeltas: nat, inFlight: multiset<MessageType>)

  /** A `CountStep` needs an apply that has updated its book and not yet been counted. */
  function TakeStep(parse: Parser, shared: Shared, step: Step): Shared {
    match step
    case UpdateStep(msg) =>
      shared.(store := ApplyToStore(parse, shared.store, msg),
              inFlight := shared.inFlight + multiset{msg.messageType})
    case CountStep(kind) =>
      if kind !in shared.inFlight then shared
      else
        var counted := shared.(inFlight := shared.inFlight - multiset{kind});
        if kind.Snapshot? then counted.(totalSnapshots := shared.totalSnapshots + 1)
        else counted.(totalDeltas := shared.totalDeltas + 1)
  }

  function RunSteps(parse: Parser, steps: seq<Step>): Shared {
    if steps == [] then Shared(map[], 0, 0, multiset{})
    else TakeStep(parse, RunSteps(parse, steps[..|steps| - 1]), steps[|steps| - 1])
  }

  ghost function TotalUpdates(store: StoreValue): Decimal {
    SumOver(store.Keys, key => BookAt(store, key).updateCount as real)
  }

  lemma UpdateCountsOne(parse: Parser, store: StoreValue, msg: Message)
    ensures TotalUpdates(ApplyToStore(parse, store, msg)) == TotalUpdates(store) + 1.0
  {
    var after := ApplyToStore(parse, store, msg);
    var before, now := key => BookAt(store, key).updateCount as real, key => BookAt(after, key).updateCount as real;
    SumSupport(after.Keys, store.Keys, before);
    SumChange(after.Keys, KeyOf(msg), before, now);
  }

  function Counted(shared: Shared): nat {
    shared.totalSnapshots + shared.totalDeltas + |shared.inFlight|
  }

  lemma StepCounts(parse: Parser, shared: Shared, step: Step)
    ensures Counted(TakeStep(parse, shared, step)) == Counted(shared) + if step.UpdateStep? then 1 else 0
  {
  }

  /** How many book updates of this kind the steps contain. */
  function UpdatesOfKind(steps: seq<Step>, kind: MessageType): nat {
    if steps == [] then 0
    else
      var step := steps[|steps| - 1];
      UpdatesOfKind(steps[..|steps| - 1], kind)
        + match step case UpdateStep(msg) => (if msg.messageType == kind then 1 else 0) case CountStep(_) => 0
  }

  lemma StepCountsKinds(parse: Parser, shared: Shared, step: Step)
    ensures var after := TakeStep(parse, shared, step);
      && after.totalSnapshots + after.inFlight[Snapshot]
         == shared.totalSnapshots + shared.inFlight[Snapshot]
            + (if step.UpdateStep? && step.msg.messageType.Snapshot? then 1 else 0)
      && after.totalDeltas + after.inFlight[Delta]
         == shared.totalDeltas + shared.inFlight[Delta]
            + (if step.UpdateStep? && step.msg.messageType.Delta? then 1 else 0)
  {
  }

  /** Each counter has counted the updates of its own kind that are no longer in flight. */
  lemma {:induction false} CountersByKind(parse: Parser, steps: seq<Step>)
    ensures var shared := RunSteps(parse, steps);
      && shared.totalSnapshots + shared.inFlight[Snapshot] == UpdatesOfKind(steps, Snapshot)
      && shared.totalDeltas + shared.inFlight[Delta] == UpdatesOfKind(steps, Delta)
  {
    if steps != [] {
      CountersByKind(parse, steps[..|steps| - 1]);
      StepCountsKinds(parse, RunSteps(parse, steps[..|steps| - 1]), steps[|steps| - 1]);
    }
  }

  /** In every interleaving the books are ahead of the counters by exactly the applies in flight. */
  lemma {:induction false} CountersLagByInFlight(parse: Parser, steps: seq<Step>)
    ensures TotalUpdates(RunSteps(parse, steps).store) == Counted(RunSteps(parse, steps)) as real
  {
    if steps != [] {
      var before, step := RunSteps(parse, steps[..|steps| - 1]), steps[|steps| - 1];
      CountersLagByInFlight(parse, steps[..|steps| - 1]);
      StepCounts(parse, before, step);
      if step.UpdateStep? {
        UpdateCountsOne(parse, before.store, step.msg);
      }
    }
  }
}
