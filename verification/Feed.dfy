// The change feed: after each message the service publishes the full aggregated level at every
// affected price, and a client maintains a replica by overwriting the levels it is told about.

module Feed {
  import opened Prelude
  import opened Sums
  import opened Schema
  import opened Levels
  import opened Books
  import opened History
  import opened Store
  import Ranking

  datatype AggregatedLevel = AggregatedLevel(price: string, totalSize: Decimal, platforms: PlatformSizes)

  datatype LevelChange = LevelChange(price: string, side: Side, totalSize: Decimal, platforms: PlatformSizes)

  datatype Event = Event(key: Key, changes: seq<LevelChange>)

  // ---------------------------------------------------------------------------
  // What one message publishes
  // ---------------------------------------------------------------------------

  function Entries(listed: seq<PriceLevel>, side: Side): seq<(string, Side)> {
    seq(|listed|, i requires 0 <= i < |listed| => (listed[i].price, side))
  }

  /** The affected prices as text: everything listed, parsable or not, whatever its size. */
  function Affected(msg: Message): seq<(string, Side)> {
    match msg.messageType
    case Snapshot => Entries(OrEmpty(msg.bids), Buy) + Entries(OrEmpty(msg.asks), Sell)
    case Delta =>
      var updates := OrEmpty(msg.updates);
      seq(|updates|, i requires 0 <= i < |updates| => (updates[i].price, updates[i].side))
  }

  /** All the sizes there are, added up in no particular order. */
  ghost predicate IsTotal(total: Decimal, sizes: PlatformSizes) {
    total == SumOver(sizes.Keys, platform => if platform in sizes then sizes[platform] else 0.0)
  }

  lemma TotalSizeIsTotal(sizes: PlatformSizes)
    ensures IsTotal(Ranking.TotalSize(sizes), sizes)
  {
    SumSame(sizes.Keys, platform => Ranking.SizeIn(sizes, platform),
      platform => if platform in sizes then sizes[platform] else 0.0);
  }

  ghost function AggregatedAt(codec: Codec, levels: Levels, text: string): Option<AggregatedLevel> {
    match codec.parse(text)
    case None => None
    case Some(price) =>
      if price in levels && levels[price] != map[]
      then Some(AggregatedLevel(codec.show(price), Ranking.TotalSize(levels[price]), levels[price]))
      else None
  }

  /** A level that exists is published in full; one that does not is published as a removal. */
  ghost function ChangeAt(codec: Codec, book: BookValue, affected: (string, Side)): LevelChange {
    match AggregatedAt(codec, book.Levels(affected.1), affected.0)
    case Some(level) => LevelChange(level.price, affected.1, level.totalSize, level.platforms)
    case None => LevelChange(affected.0, affected.1, 0.0, map[])
  }

  ghost function Changes(codec: Codec, book: BookValue, affected: seq<(string, Side)>): seq<LevelChange> {
    if affected == [] then []
    else Changes(codec, book, affected[..|affected| - 1]) + [ChangeAt(codec, book, affected[|affected| - 1])]
  }

  /** The event for a message, computed from the store after the message was applied. */
  ghost function EventFor(codec: Codec, store: StoreValue, msg: Message): Event {
    Event(KeyOf(msg), Changes(codec, BookAt(store, KeyOf(msg)), Affected(msg)))
  }

  // ---------------------------------------------------------------------------
  // The service
  // ---------------------------------------------------------------------------

  class OrderbookService {
    const codec: Codec
    const store: OrderbookStore
    const publishChanges: bool
    var published: seq<Event>

    ghost predicate Valid()
      reads store`books, store`value, store`repr, store.repr
    {
      store.Valid() && store.parse == codec.parse
    }

    constructor (codec: Codec, store: OrderbookStore, publishChanges: bool)
      requires store.Valid() && store.parse == codec.parse
      ensures Valid() && published == []
      ensures this.codec == codec && this.store == store && this.publishChanges == publishChanges
    {
      this.codec, this.store, this.publishChanges, published := codec, store, publishChanges, [];
    }

    /** Applies the message, then publishes when publishing is on. */
    method ProcessMessage(msg: Message)
      requires Valid()
      modifies this, store, store.repr
      ensures Valid() && fresh(store.repr - old(store.repr))
      ensures store.value == ApplyToStore(codec.parse, old(store.value), msg)
      ensures published == old(published) + if publishChanges then [EventFor(codec, store.value, msg)] else []
    {
      store.Apply(msg);
      if publishChanges {
        var event := PublishChange(msg);
        published := published + [event];
      }
    }

    method PublishChange(msg: Message) returns (event: Event)
      requires Valid() && KeyOf(msg) in store.books
      ensures event == EventFor(codec, store.value, msg)
    {
      var affected := CollectAffected(msg);
      var changes := [];
      for i := 0 to |affected|
        invariant changes == Changes(codec, BookAt(store.value, KeyOf(msg)), affected[..i])
      {
        assert affected[..i + 1][..i] == affected[..i];
        var level := AggregatedLevelAt(KeyOf(msg), affected[i].1, affected[i].0);
        var change := match level
          case Some(found) => LevelChange(found.price, affected[i].1, found.totalSize, found.platforms)
          case None => LevelChange(affected[i].0, affected[i].1, 0.0, map[]);
        changes := changes + [change];
      }
      assert affected[..|affected|] == affected;
      event := Event(KeyOf(msg), changes);
    }

    method CollectAffected(msg: Message) returns (affected: seq<(string, Side)>)
      ensures affected == Affected(msg)
    {
      affected := [];
      match msg.messageType {
        case Snapshot =>
          var bids, asks := OrEmpty(msg.bids), OrEmpty(msg.asks);
          for i := 0 to |bids|
            invariant affected == Entries(bids, Buy)[..i]
          {
            affected := affected + [(bids[i].price, Buy)];
          }
          for i := 0 to |asks|
            invariant affected == Entries(bids, Buy) + Entries(asks, Sell)[..i]
          {
            affected := affected + [(asks[i].price, Sell)];
          }
        case Delta =>
          var updates := OrEmpty(msg.updates);
          for i := 0 to |updates|
            invariant affected == Affected(msg)[..i]
          {
            affected := affected + [(updates[i].price, updates[i].side)];
          }
      }
    }

    method AggregatedLevelAt(key: Key, side: Side, text: string) returns (level: Option<AggregatedLevel>)
      requires Valid()
      ensures level == if key in store.value then AggregatedAt(codec, store.value[key].Levels(side), text) else None
      ensures level.Some? ==> key in store.value && codec.parse(text).Some?
      ensures level.Some? ==>
        var levels, price := store.value[key].Levels(side), codec.parse(text).value;
        && price in levels && level.value.platforms == levels[price] != map[]
        && level.value.price == codec.show(price) && IsTotal(level.value.totalSize, levels[price])
      ensures level.None? && key in store.value && codec.parse(text).Some? ==>
        var levels, price := store.value[key].Levels(side), codec.parse(text).value;
        price in levels ==> levels[price] == map[]
    {
      if key !in store.books {
        return None;
      }
      var levels := if side.Buy? then store.books[key].bids else store.books[key].asks;
      assert levels == store.books[key].Value().Levels(side);
      var price := codec.parse(text);
      if price.None? || price.value !in levels || levels[price.value] == map[] {
        return None;
      }
      var total := AddUp(levels[price.value]);
      TotalSizeIsTotal(levels[price.value]);
      level := Some(AggregatedLevel(codec.show(price.value), total, levels[price.value]));
    }

    /** Visits the platforms in whatever order the hash map yields them. */
    static method AddUp(sizes: PlatformSizes) returns (total: Decimal)
      ensures total == Ranking.TotalSize(sizes) && IsTotal(total, sizes)
    {
      TotalSizeIsTotal(sizes);
      total := 0.0;
      var remaining := sizes.Keys;
      ghost var f := (platform: string) => Ranking.SizeIn(sizes, platform);
      while remaining != {}
        invariant remaining <= sizes.Keys
        invariant total + SumOver(remaining, f) == Ranking.TotalSize(sizes)
      {
        var platform :| platform in remaining;
        SumRemove(remaining, platform, f);
        total := total + sizes[platform];
        remaining := remaining - {platform};
      }
    }
  }

  // ---------------------------------------------------------------------------
  // The replica
  // ---------------------------------------------------------------------------

  /** A client overwrites, or deletes when no platform is named, the level it is told about. */
  function OverwriteOne(parse: Parser, side: Side, replica: Levels, change: LevelChange): Levels {
    match parse(change.price)
    case None => replica
    case Some(price) =>
      if change.side != side then replica
      else if change.platforms == map[] then replica - {price}
      else replica[price := change.platforms]
  }

  function Overwrite(parse: Parser, side: Side, replica: Levels, changes: seq<LevelChange>): Levels {
    if changes == [] then replica
    else OverwriteOne(parse, side, Overwrite(parse, side, replica, changes[..|changes| - 1]), changes[|changes| - 1])
  }

  function LevelAt(levels: Levels, price: Decimal): PlatformSizes {
    if price in levels then levels[price] else map[]
  }

  predicate Names(parse: Parser, entry: (string, Side), side: Side, price: Decimal) {
    entry.1 == side && parse(entry.0) == Some(price)
  }

  predicate ListsIn(parse: Parser, affected: seq<(string, Side)>, side: Side, price: Decimal) {
    exists i :: 0 <= i < |affected| && Names(parse, affected[i], side, price)
  }

  /** The message names this price on this side. */
  predicate Lists(parse: Parser, msg: Message, side: Side, price: Decimal) {
    ListsIn(parse, Affected(msg), side, price)
  }

  lemma ReplicaAfterChange(
    codec: Codec, side: Side, replica: Levels, book: BookValue, entry: (string, Side), price: Decimal)
    requires codec.Faithful()
    ensures var after := OverwriteOne(codec.parse, side, replica, ChangeAt(codec, book, entry));
      if Names(codec.parse, entry, side, price)
      then LevelAt(after, price) == LevelAt(book.Levels(side), price)
           && (price in after ==> after[price] != map[])
      else LevelAt(after, price) == LevelAt(replica, price) && (price in after <==> price in replica)
  {
    assert codec.parse(ChangeAt(codec, book, entry).price) == codec.parse(entry.0);
  }

  /** Named prices take the book's level; the others keep the replica's. */
  lemma {:induction false} ReplicaAfterChanges(
    codec: Codec, side: Side, replica: Levels, book: BookValue, affected: seq<(string, Side)>, price: Decimal)
    requires codec.Faithful()
    ensures var after := Overwrite(codec.parse, side, replica, Changes(codec, book, affected));
      if ListsIn(codec.parse, affected, side, price)
      then LevelAt(after, price) == LevelAt(book.Levels(side), price)
           && (price in after ==> after[price] != map[])
      else LevelAt(after, price) == LevelAt(replica, price) && (price in after <==> price in replica)
  {
    if affected != [] {
      var front, last := affected[..|affected| - 1], affected[|affected| - 1];
      var changes := Changes(codec, book, affected);
      assert changes[..|changes| - 1] == Changes(codec, book, front);
      assert affected == front + [last];
      assert ListsIn(codec.parse, affected, side, price)
        <==> ListsIn(codec.parse, front, side, price) || Names(codec.parse, last, side, price);
      ReplicaAfterChanges(codec, side, replica, book, front, price);
      var before := Overwrite(codec.parse, side, replica, Changes(codec, book, front));
      ReplicaAfterChange(codec, side, before, book, last, price);
    }
  }

  /** A write names its price. */
  lemma {:induction false} SnapshotWriteIsListed(parse: Parser, listed: seq<PriceLevel>, price: Decimal)
    returns (i: nat)
    requires LastAt(SnapshotWrites(parse, listed), price).Some?
    ensures i < |listed| && parse(listed[i].price) == Some(price)
  {
    var front, ws := listed[..|listed| - 1], SnapshotWrites(parse, listed);
    if LevelWrite(parse, listed[|listed| - 1]) == [] {
      assert ws == SnapshotWrites(parse, front);
      i := SnapshotWriteIsListed(parse, front, price);
    } else if ws[|ws| - 1].price == price {
      i := |listed| - 1;
    } else {
      assert ws[..|ws| - 1] == SnapshotWrites(parse, front);
      i := SnapshotWriteIsListed(parse, front, price);
    }
  }

  lemma {:induction false} DeltaWriteIsListed(parse: Parser, side: Side, updates: seq<Update>, price: Decimal)
    returns (i: nat)
    requires LastAt(DeltaWrites(parse, side, updates), price).Some?
    ensures i < |updates| && updates[i].side == side && parse(updates[i].price) == Some(price)
  {
    var front, ws := updates[..|updates| - 1], DeltaWrites(parse, side, updates);
    if UpdateWrite(parse, side, updates[|updates| - 1]) == [] {
      assert ws == DeltaWrites(parse, side, front);
      i := DeltaWriteIsListed(parse, side, front, price);
    } else if ws[|ws| - 1].price == price {
      i := |updates| - 1;
    } else {
      assert ws[..|ws| - 1] == DeltaWrites(parse, side, front);
      i := DeltaWriteIsListed(parse, side, front, price);
    }
  }

  lemma EntryIsListed(parse: Parser, msg: Message, side: Side, i: nat, price: Decimal)
    requires i < |Affected(msg)| && Names(parse, Affected(msg)[i], side, price)
    ensures Lists(parse, msg, side, price)
  {
  }

  lemma WritesAreListed(parse: Parser, side: Side, msg: Message, price: Decimal)
    requires LastAt(Writes(parse, side, msg), price).Some?
    ensures Lists(parse, msg, side, price)
  {
    if msg.messageType.Snapshot? {
      var i := SnapshotWriteIsListed(parse, msg.Listed(side), price);
      EntryIsListed(parse, msg, side, if side.Buy? then i else |OrEmpty(msg.bids)| + i, price);
    } else {
      var i := DeltaWriteIsListed(parse, side, OrEmpty(msg.updates), price);
      EntryIsListed(parse, msg, side, i, price);
    }
  }

  /** At a price the message does not name, a delta changes nothing and a snapshot takes its platform out. */
  lemma UnlistedLevel(parse: Parser, side: Side, levels: Levels, msg: Message, price: Decimal)
    requires !Lists(parse, msg, side, price)
    ensures LevelAt(ApplySide(parse, side, levels, msg), price)
         == if msg.messageType.Snapshot? then LevelAt(levels, price) - {msg.platform} else LevelAt(levels, price)
  {
    if LastAt(Writes(parse, side, msg), price).Some? {
      WritesAreListed(parse, side, msg, price);
    }
    var after := LevelAt(ApplySide(parse, side, levels, msg), price);
    var expected :=
      if msg.messageType.Snapshot? then LevelAt(levels, price) - {msg.platform} else LevelAt(levels, price);
    forall p
      ensures p in after <==> p in expected
      ensures p in after ==> after[p] == expected[p]
    {
      CellAfterMessage(parse, side, levels, msg, price, p);
      assert CellOf(ApplySide(parse, side, levels, msg), price, p)
          == if p in after then Some(after[p]) else None;
      assert CellOf(levels, price, p) == if p in LevelAt(levels, price) then Some(LevelAt(levels, price)[p]) else None;
    }
  }

  // ---------------------------------------------------------------------------
  // One message
  // ---------------------------------------------------------------------------

  ghost function Followed(codec: Codec, side: Side, replica: Levels, after: BookValue, msg: Message): Levels {
    Overwrite(codec.parse, side, replica, Changes(codec, after, Affected(msg)))
  }

  /** The message is a snapshot that takes a level of its platform away without naming the price. */
  predicate Drops(parse: Parser, side: Side, levels: Levels, msg: Message, price: Decimal) {
    && msg.messageType.Snapshot?
    && CellOf(levels, price, msg.platform).Some?
    && !Lists(parse, msg, side, price)
  }

  /** At a price the message does not name, the book changes only when the level is dropped. */
  lemma UnnamedLevel(parse: Parser, side: Side, levels: Levels, msg: Message, price: Decimal)
    requires !Lists(parse, msg, side, price)
    ensures LevelAt(ApplySide(parse, side, levels, msg), price)
         == if Drops(parse, side, levels, msg, price) then LevelAt(levels, price) - {msg.platform}
            else LevelAt(levels, price)
  {
    UnlistedLevel(parse, side, levels, msg, price);
    if CellOf(levels, price, msg.platform).None? {
      assert LevelAt(levels, price) - {msg.platform} == LevelAt(levels, price);
    }
  }

  /** The followed replica takes the book's level at named prices and keeps its own elsewhere. */
  lemma FollowedLevel(codec: Codec, side: Side, replica: Levels, after: BookValue, msg: Message, price: Decimal)
    requires codec.Faithful()
    requires price in replica <==> LevelAt(replica, price) != map[]
    ensures var followed := Followed(codec, side, replica, after, msg);
      && (price in followed <==> LevelAt(followed, price) != map[])
      && LevelAt(followed, price)
         == LevelAt(if Lists(codec.parse, msg, side, price) then after.Levels(side) else replica, price)
  {
    ReplicaAfterChanges(codec, side, replica, after, Affected(msg), price);
  }

  lemma SameLevels(a: Levels, b: Levels)
    requires forall price :: price in a <==> LevelAt(a, price) != map[]
    requires forall price :: price in b <==> LevelAt(b, price) != map[]
    ensures a == b <==> forall price :: LevelAt(a, price) == LevelAt(b, price)
  {
    if forall price :: LevelAt(a, price) == LevelAt(b, price) {
      forall price | price in a
        ensures price in b && a[price] == b[price]
      {
        assert LevelAt(a, price) == LevelAt(b, price);
      }
      forall price | price in b
        ensures price in a
      {
        assert LevelAt(a, price) == LevelAt(b, price);
      }
      assert a == b;
    }
  }

  /**
   * A replica in agreement with the book stays in agreement over a delta, and over a snapshot exactly when
   * the snapshot names every price its platform still holds: levels it silently drops are never published.
   */
  lemma AgreementAfterMessage(codec: Codec, side: Side, levels: Levels, after: BookValue, msg: Message)
    requires codec.Faithful() && Clean(levels)
    requires after.Levels(side) == ApplySide(codec.parse, side, levels, msg)
    ensures Followed(codec, side, levels, after, msg) == after.Levels(side)
      <==> forall price :: !Drops(codec.parse, side, levels, msg, price)
  {
    MessageKeepsClean(codec.parse, side, levels, msg);
    var replica := Followed(codec, side, levels, after, msg);
    forall price
      ensures LevelAt(replica, price) == LevelAt(after.Levels(side), price)
        <==> !Drops(codec.parse, side, levels, msg, price)
      ensures price in replica <==> LevelAt(replica, price) != map[]
    {
      FollowedLevel(codec, side, levels, after, msg, price);
      if !Lists(codec.parse, msg, side, price) {
        UnnamedLevel(codec.parse, side, levels, msg, price);
      }
      assert Drops(codec.parse, side, levels, msg, price) ==> msg.platform in LevelAt(levels, price);
    }
    SameLevels(replica, after.Levels(side));
  }

  // ---------------------------------------------------------------------------
  // Whole runs
  // ---------------------------------------------------------------------------

  /** A replica that starts as the book is after its first `joined` messages, and follows the others. */
  ghost function RunReplica(codec: Codec, side: Side, key: Key, history: seq<Message>, joined: nat): Levels {
    if |history| <= joined then RunSide(codec.parse, side, history)
    else
      Followed(codec, side, RunReplica(codec, side, key, history[..|history| - 1], joined),
        RunBook(codec.parse, EmptyBook(key.assetId, key.marketId), history), history[|history| - 1])
  }

  /** Since the replica joined, some snapshot dropped this price without naming it, and nothing has named it after. */
  predicate Stale(parse: Parser, side: Side, history: seq<Message>, joined: nat, price: Decimal) {
    if |history| <= joined then false
    else
      var msg, older := history[|history| - 1], history[..|history| - 1];
      !Lists(parse, msg, side, price)
      && (Stale(parse, side, older, joined, price) || Drops(parse, side, RunSide(parse, side, older), msg, price))
  }

  ghost predicate Covers(big: PlatformSizes, small: PlatformSizes) {
    forall p :: p in small ==> p in big && big[p] == small[p]
  }

  /** The replica's level contains the book's, and is the book's unless it has gone stale. */
  ghost predicate Lags(replica: Levels, book: Levels, price: Decimal, stale: bool) {
    && Covers(LevelAt(replica, price), LevelAt(book, price))
    && (LevelAt(replica, price) == LevelAt(book, price) <==> !stale)
    && (price in replica <==> LevelAt(replica, price) != map[])
  }

  lemma LagAfterMessage(
    codec: Codec, side: Side, replica: Levels, levels: Levels, after: BookValue, msg: Message, price: Decimal,
    stale: bool)
    requires codec.Faithful() && Lags(replica, levels, price, stale)
    requires after.Levels(side) == ApplySide(codec.parse, side, levels, msg)
    ensures Lags(Followed(codec, side, replica, after, msg), after.Levels(side), price,
      !Lists(codec.parse, msg, side, price) && (stale || Drops(codec.parse, side, levels, msg, price)))
  {
    FollowedLevel(codec, side, replica, after, msg, price);
    if !Lists(codec.parse, msg, side, price) {
      UnnamedLevel(codec.parse, side, levels, msg, price);
    }
    if Drops(codec.parse, side, levels, msg, price) {
      assert msg.platform in LevelAt(levels, price) && msg.platform in LevelAt(replica, price);
    }
  }

  lemma AgreedStart(parse: Parser, side: Side, history: seq<Message>, price: Decimal)
    ensures Lags(RunSide(parse, side, history), RunSide(parse, side, history), price, false)
  {
    RunIsClean(parse, side, history);
  }

  /**
   * From an agreed start on, over any run, the replica's level at a price contains the book's, and equals it
   * exactly when the price is not stale: a replica never shows a wrong size, only sizes that have been withdrawn.
   */
  lemma {:induction false} ReplicaLag(
    codec: Codec, side: Side, key: Key, history: seq<Message>, joined: nat, price: Decimal)
    requires codec.Faithful()
    ensures Lags(RunReplica(codec, side, key, history, joined), RunSide(codec.parse, side, history), price,
      Stale(codec.parse, side, history, joined, price))
  {
    if |history| <= joined {
      AgreedStart(codec.parse, side, history, price);
    } else {
      var msg, older := history[|history| - 1], history[..|history| - 1];
      var after := RunBook(codec.parse, EmptyBook(key.assetId, key.marketId), history);
      ReplicaLag(codec, side, key, older, joined, price);
      RunBookFields(codec.parse, key.assetId, key.marketId, history);
      LagAfterMessage(codec, side, RunReplica(codec, side, key, older, joined), RunSide(codec.parse, side, older),
        after, msg, price, Stale(codec.parse, side, older, joined, price));
    }
  }

  /** A fresh start heals: whoever joins later has no stale price that who joined before does not have. */
  lemma {:induction false} JoiningLaterHeals(
    parse: Parser, side: Side, history: seq<Message>, before: nat, later: nat, price: Decimal)
    requires before <= later && Stale(parse, side, history, later, price)
    ensures Stale(parse, side, history, before, price)
  {
    var older := history[..|history| - 1];
    if Stale(parse, side, older, later, price) {
      JoiningLaterHeals(parse, side, older, before, later, price);
    }
  }

  lemma LagsEverywhere(replica: Levels, book: Levels, stale: iset<Decimal>)
    requires Clean(book)
    requires forall price :: Lags(replica, book, price, price in stale)
    ensures replica == book <==> stale == iset{}
  {
    forall price
      ensures LevelAt(replica, price) == LevelAt(book, price) <==> price !in stale
      ensures price in replica <==> LevelAt(replica, price) != map[]
    {
      assert Lags(replica, book, price, price in stale);
    }
    SameLevels(replica, book);
    if stale != iset{} {
      var price :| price in stale;
      assert LevelAt(replica, price) != LevelAt(book, price);
    }
  }

  ghost function StalePrices(parse: Parser, side: Side, history: seq<Message>, joined: nat): iset<Decimal> {
    iset price | Stale(parse, side, history, joined, price)
  }

  /** The replica is the book exactly when no price is stale. */
  lemma ReplicaEqualsBook(codec: Codec, side: Side, key: Key, history: seq<Message>, joined: nat)
    requires codec.Faithful()
    ensures RunReplica(codec, side, key, history, joined) == RunSide(codec.parse, side, history)
      <==> StalePrices(codec.parse, side, history, joined) == iset{}
  {
    var book, replica := RunSide(codec.parse, side, history), RunReplica(codec, side, key, history, joined);
    RunIsClean(codec.parse, side, history);
    forall price
      ensures Lags(replica, book, price, price in StalePrices(codec.parse, side, history, joined))
    {
      ReplicaLag(codec, side, key, history, joined, price);
    }
    LagsEverywhere(replica, book, StalePrices(codec.parse, side, history, joined));
  }

  lemma RunReplicaStep(codec: Codec, side: Side, key: Key, history: seq<Message>, joined: nat, msg: Message)
    requires joined <= |history|
    ensures RunReplica(codec, side, key, history + [msg], joined)
         == Followed(codec, side, RunReplica(codec, side, key, history, joined),
              RunBook(codec.parse, EmptyBook(key.assetId, key.marketId), history + [msg]), msg)
  {
    assert (history + [msg])[..|history|] == history;
  }

  /** A dropped level is gone from the book and still shown by the replica, whatever happened before. */
  lemma SilentRemoval(
    codec: Codec, side: Side, key: Key, history: seq<Message>, joined: nat, msg: Message, price: Decimal)
    requires codec.Faithful() && Drops(codec.parse, side, RunSide(codec.parse, side, history), msg, price)
    requires joined <= |history|
    ensures CellOf(RunSide(codec.parse, side, history + [msg]), price, msg.platform) == None
    ensures msg.platform in LevelAt(RunReplica(codec, side, key, history + [msg], joined), price)
  {
    assert (history + [msg])[..|history|] == history;
    assert LastAt(Writes(codec.parse, side, msg), price).None? by {
      if LastAt(Writes(codec.parse, side, msg), price).Some? {
        WritesAreListed(codec.parse, side, msg, price);
      }
    }
    CellAfterMessage(codec.parse, side, RunSide(codec.parse, side, history), msg, price, msg.platform);
    ReplicaLag(codec, side, key, history, joined, price);
    RunReplicaStep(codec, side, key, history, joined, msg);
    FollowedLevel(codec, side, RunReplica(codec, side, key, history, joined),
      RunBook(codec.parse, EmptyBook(key.assetId, key.marketId), history + [msg]), msg, price);
  }

  function OneBid(key: Key): Message {
    Message("p", key.assetId, key.marketId, Snapshot, Some([PriceLevel("1", "5")]), None, None)
  }

  function NoBids(key: Key): Message {
    Message("p", key.assetId, key.marketId, Snapshot, Some([]), None, None)
  }

  /** Two snapshots, the second one empty, are enough: the client keeps a bid nobody has. */
  lemma EmptySnapshotDrops(parse: Parser, key: Key)
    requires parse("1") == Some(1.0) && parse("5") == Some(5.0)
    ensures Drops(parse, Buy, RunSide(parse, Buy, [OneBid(key)]), NoBids(key), 1.0)
  {
    assert [PriceLevel("1", "5")][..0] == [];
    assert Writes(parse, Buy, OneBid(key)) == [Write(1.0, 5.0)];
    assert [OneBid(key)][..0] == [];
    CellAfterMessage(parse, Buy, map[], OneBid(key), 1.0, "p");
  }

  // ---------------------------------------------------------------------------
  // The whole feed, seen by the client of one book
  // ---------------------------------------------------------------------------

  /** What a service publishes that has processed the whole history, without the first `joined` events. */
  ghost function RunFeed(codec: Codec, history: seq<Message>, joined: nat): seq<Event> {
    if |history| <= joined then []
    else
      RunFeed(codec, history[..|history| - 1], joined)
        + [EventFor(codec, RunStore(codec.parse, history), history[|history| - 1])]
  }

  lemma PartsAndOne(first: seq<Event>, second: seq<Event>, event: Event)
    ensures first + second + [event] == first + (second + [event])
  {
  }

  /** Whoever joins later gets the rest of the one feed there is. */
  lemma {:induction false} FeedInParts(codec: Codec, history: seq<Message>, joined: nat)
    requires joined <= |history|
    ensures RunFeed(codec, history, 0) == RunFeed(codec, history[..joined], 0) + RunFeed(codec, history, joined)
  {
    if joined == |history| {
      assert history[..joined] == history;
    } else {
      var front := history[..|history| - 1];
      assert front[..joined] == history[..joined];
      FeedInParts(codec, front, joined);
      var event := EventFor(codec, RunStore(codec.parse, history), history[|history| - 1]);
      PartsAndOne(RunFeed(codec, front[..joined], 0), RunFeed(codec, front, joined), event);
    }
  }

  /** One more message appends one event, computed from the book its own messages have built. */
  lemma FeedStep(codec: Codec, history: seq<Message>, joined: nat) returns (event: Event)
    requires joined < |history|
    ensures RunFeed(codec, history, joined) == RunFeed(codec, history[..|history| - 1], joined) + [event]
    ensures var key := KeyOf(history[|history| - 1]);
      && event.key == key
      && event.changes == Changes(codec,
           RunBook(codec.parse, EmptyBook(key.assetId, key.marketId), For(history, key)),
           Affected(history[|history| - 1]))
  {
    event := EventFor(codec, RunStore(codec.parse, history), history[|history| - 1]);
    StoreDecomposes(codec.parse, history, KeyOf(history[|history| - 1]));
  }

  /** The client of one book ignores the other books' events. */
  function Follow(parse: Parser, side: Side, key: Key, start: Levels, events: seq<Event>): Levels {
    if events == [] then start
    else
      var before := Follow(parse, side, key, start, events[..|events| - 1]);
      var event := events[|events| - 1];
      if event.key == key then Overwrite(parse, side, before, event.changes) else before
  }

  lemma FollowStep(parse: Parser, side: Side, key: Key, start: Levels, events: seq<Event>, event: Event)
    ensures Follow(parse, side, key, start, events + [event])
         == if event.key == key then Overwrite(parse, side, Follow(parse, side, key, start, events), event.changes)
            else Follow(parse, side, key, start, events)
  {
    assert (events + [event])[..|events|] == events;
  }

  /** How many of the first `joined` messages are a book's own. */
  function OwnJoined(history: seq<Message>, joined: nat, key: Key): nat
    requires joined <= |history|
  {
    |For(history[..joined], key)|
  }

  lemma OwnJoinedStep(history: seq<Message>, joined: nat, key: Key)
    requires joined < |history|
    ensures OwnJoined(history[..|history| - 1], joined, key) == OwnJoined(history, joined, key)
    ensures OwnJoined(history, joined, key) <= |For(history[..|history| - 1], key)|
  {
    var front := history[..|history| - 1];
    assert front[..joined] == history[..joined];
    ForPrefix(front, joined, key);
  }

  /** Overwriting with what is published for a book's newest message is one more step of the replica. */
  lemma EventIsStep(codec: Codec, side: Side, key: Key, history: seq<Message>, joined: nat, event: Event)
    requires joined < |history|
    requires event.changes == Changes(codec,
      RunBook(codec.parse, EmptyBook(key.assetId, key.marketId), history), Affected(history[|history| - 1]))
    ensures Overwrite(codec.parse, side, RunReplica(codec, side, key, history[..|history| - 1], joined), event.changes)
         == RunReplica(codec, side, key, history, joined)
  {
  }

  /** An event of the book's newest message moves the replica on, an event of another book does not. */
  lemma FollowOneMore(
    codec: Codec, side: Side, key: Key, start: Levels, events: seq<Event>, event: Event, older: seq<Message>,
    mine: seq<Message>, own: nat)
    requires Follow(codec.parse, side, key, start, events) == RunReplica(codec, side, key, older, own)
    requires event.key != key ==> mine == older
    requires event.key == key ==>
      && own < |mine| && mine[..|mine| - 1] == older
      && event.changes == Changes(codec,
           RunBook(codec.parse, EmptyBook(key.assetId, key.marketId), mine), Affected(mine[|mine| - 1]))
    ensures Follow(codec.parse, side, key, start, events + [event]) == RunReplica(codec, side, key, mine, own)
  {
    FollowStep(codec.parse, side, key, start, events, event);
    if event.key == key {
      EventIsStep(codec, side, key, mine, own, event);
    }
  }

  /**
   * Following the service's feed for all books, from the book as it is when one joins, is following the run of
   * the book's own messages.
   */
  lemma {:induction false} FollowOwnBook(
    codec: Codec, side: Side, key: Key, history: seq<Message>, joined: nat, start: Levels)
    requires joined <= |history| && start == RunSide(codec.parse, side, For(history[..joined], key))
    ensures Follow(codec.parse, side, key, start, RunFeed(codec, history, joined))
         == RunReplica(codec, side, key, For(history, key), OwnJoined(history, joined, key))
  {
    if joined == |history| {
      assert history[..joined] == history;
    } else {
      var older := history[..|history| - 1];
      var event := FeedStep(codec, history, joined);
      assert older[..joined] == history[..joined];
      FollowOwnBook(codec, side, key, older, joined, start);
      OwnJoinedStep(history, joined, key);
      ForLast(history, key);
      FollowOneMore(codec, side, key, start, RunFeed(codec, older, joined), event, For(older, key), For(history, key),
        OwnJoined(history, joined, key));
    }
  }

  // ---------------------------------------------------------------------------
  // What the feed says, told from the messages alone
  // ---------------------------------------------------------------------------

  predicate IsListed(parse: Parser, listed: seq<PriceLevel>, price: Decimal) {
    exists i :: 0 <= i < |listed| && parse(listed[i].price) == Some(price)
  }

  predicate IsUpdated(parse: Parser, updates: seq<Update>, side: Side, price: Decimal) {
    exists i :: 0 <= i < |updates| && updates[i].side == side && parse(updates[i].price) == Some(price)
  }

  lemma {:induction false} EntriesList(parse: Parser, listed: seq<PriceLevel>, of: Side, side: Side, price: Decimal)
    ensures ListsIn(parse, Entries(listed, of), side, price) <==> side == of && IsListed(parse, listed, price)
  {
    var entries := Entries(listed, of);
    if i :| 0 <= i < |listed| && parse(listed[i].price) == Some(price) {
      assert side == of ==> Names(parse, entries[i], side, price);
    }
    if i :| 0 <= i < |entries| && Names(parse, entries[i], side, price) {
      assert parse(listed[i].price) == Some(price);
    }
  }

  lemma ListsInParts(parse: Parser, first: seq<(string, Side)>, second: seq<(string, Side)>, side: Side, price: Decimal)
    ensures ListsIn(parse, first + second, side, price)
      <==> ListsIn(parse, first, side, price) || ListsIn(parse, second, side, price)
  {
    var both := first + second;
    if i :| 0 <= i < |first| && Names(parse, first[i], side, price) {
      assert Names(parse, both[i], side, price);
    }
    if i :| 0 <= i < |second| && Names(parse, second[i], side, price) {
      assert Names(parse, both[|first| + i], side, price);
    }
  }

  /** The prices a message names: those of the listed bids and asks of a snapshot, or of a delta's updates. */
  lemma ListsIff(parse: Parser, msg: Message, side: Side, price: Decimal)
    ensures Lists(parse, msg, side, price) <==>
      match msg.messageType
      case Snapshot =>
        if side.Buy? then IsListed(parse, OrEmpty(msg.bids), price) else IsListed(parse, OrEmpty(msg.asks), price)
      case Delta => IsUpdated(parse, OrEmpty(msg.updates), side, price)
  {
    match msg.messageType {
      case Snapshot =>
        ListsInParts(parse, Entries(OrEmpty(msg.bids), Buy), Entries(OrEmpty(msg.asks), Sell), side, price);
        EntriesList(parse, OrEmpty(msg.bids), Buy, side, price);
        EntriesList(parse, OrEmpty(msg.asks), Sell, side, price);
      case Delta =>
        var updates, affected := OrEmpty(msg.updates), Affected(msg);
        if i :| 0 <= i < |updates| && updates[i].side == side && parse(updates[i].price) == Some(price) {
          assert Names(parse, affected[i], side, price);
        }
        if i :| 0 <= i < |affected| && Names(parse, affected[i], side, price) {
          assert updates[i].side == side && parse(updates[i].price) == Some(price);
        }
    }
  }

  /** The size the history leaves a platform at a price, zero when it leaves none. */
  function SizeLeft(parse: Parser, mine: seq<Message>, side: Side, price: Decimal, platform: string): Decimal {
    match LastWrite(parse, mine, side, price, platform)
    case Some(size) => size
    case None => 0.0
  }

  /** The change lists exactly the platforms the history leaves a size at its price, with that size. */
  ghost predicate SaysSizes(parse: Parser, mine: seq<Message>, change: LevelChange, price: Decimal) {
    forall p ::
      LastWrite(parse, mine, change.side, price, p)
        == if p in change.platforms then Some(change.platforms[p]) else None
  }

  /** What a published change says about the book that its own messages have built. */
  ghost predicate Tells(parse: Parser, mine: seq<Message>, change: LevelChange) {
    && IsTotal(change.totalSize, change.platforms)
    && (parse(change.price).None? ==> change.platforms == map[])
    && (parse(change.price).Some? ==>
         var price := parse(change.price).value;
         && SaysSizes(parse, mine, change, price)
         && change.totalSize == SumOver(Contributors(mine), p => SizeLeft(parse, mine, change.side, price, p)))
  }

  lemma SizesFromLevels(parse: Parser, mine: seq<Message>, change: LevelChange, price: Decimal)
    requires change.platforms == LevelAt(RunSide(parse, change.side, mine), price)
    ensures SaysSizes(parse, mine, change, price)
  {
    forall p
      ensures LastWrite(parse, mine, change.side, price, p)
           == if p in change.platforms then Some(change.platforms[p]) else None
    {
      RunRefinesLastWrite(parse, mine, change.side, price, p);
    }
  }

  lemma TotalFromSizes(parse: Parser, mine: seq<Message>, change: LevelChange, price: Decimal)
    requires SaysSizes(parse, mine, change, price)
    requires IsTotal(change.totalSize, change.platforms)
    ensures change.totalSize == SumOver(Contributors(mine), p => SizeLeft(parse, mine, change.side, price, p))
  {
    var left := p => SizeLeft(parse, mine, change.side, price, p);
    forall p | p in change.platforms
      ensures p in Contributors(mine)
    {
      if p !in Contributors(mine) {
        SilentPlatform(parse, mine, change.side, price, p);
      }
    }
    SumSupport(Contributors(mine), change.platforms.Keys, left);
    SumSame(change.platforms.Keys, left, p => if p in change.platforms then change.platforms[p] else 0.0);
  }

  lemma PartsTell(parse: Parser, mine: seq<Message>, change: LevelChange)
    requires IsTotal(change.totalSize, change.platforms)
    requires change.platforms == match parse(change.price)
      case None => map[]
      case Some(price) => LevelAt(RunSide(parse, change.side, mine), price)
    ensures Tells(parse, mine, change)
  {
    if parse(change.price).Some? {
      SizesFromLevels(parse, mine, change, parse(change.price).value);
      TotalFromSizes(parse, mine, change, parse(change.price).value);
    }
  }

  lemma ChangeParts(codec: Codec, book: BookValue, entry: (string, Side))
    requires codec.Faithful()
    ensures var change := ChangeAt(codec, book, entry);
      && change.side == entry.1 && codec.parse(change.price) == codec.parse(entry.0)
      && IsTotal(change.totalSize, change.platforms)
      && change.platforms == match codec.parse(entry.0)
           case None => map[]
           case Some(price) => LevelAt(book.Levels(entry.1), price)
  {
    TotalSizeIsTotal(ChangeAt(codec, book, entry).platforms);
  }

  lemma ChangeTells(codec: Codec, mine: seq<Message>, book: BookValue, entry: (string, Side))
    requires codec.Faithful()
    requires book.bids == RunSide(codec.parse, Buy, mine) && book.asks == RunSide(codec.parse, Sell, mine)
    ensures var change := ChangeAt(codec, book, entry);
      && Tells(codec.parse, mine, change)
      && change.side == entry.1 && codec.parse(change.price) == codec.parse(entry.0)
  {
    ChangeParts(codec, book, entry);
    PartsTell(codec.parse, mine, ChangeAt(codec, book, entry));
  }

  /** One change per affected entry of the newest message, each telling what the history leaves at its price. */
  ghost predicate EventTells(
    parse: Parser, mine: seq<Message>, affected: seq<(string, Side)>, changes: seq<LevelChange>)
  {
    |changes| == |affected| && forall i :: 0 <= i < |changes| ==>
      && changes[i].side == affected[i].1
      && parse(changes[i].price) == parse(affected[i].0)
      && Tells(parse, mine, changes[i])
  }

  lemma {:induction false} ChangesTell(codec: Codec, mine: seq<Message>, book: BookValue, affected: seq<(string, Side)>)
    requires codec.Faithful()
    requires book.bids == RunSide(codec.parse, Buy, mine) && book.asks == RunSide(codec.parse, Sell, mine)
    ensures EventTells(codec.parse, mine, affected, Changes(codec, book, affected))
  {
    if affected != [] {
      ChangesTell(codec, mine, book, affected[..|affected| - 1]);
      ChangeTells(codec, mine, book, affected[|affected| - 1]);
    }
  }

  /** Every event of the feed is its message's, and every change of it tells what the book's messages leave. */
  ghost predicate FeedTells(parse: Parser, history: seq<Message>, joined: nat, events: seq<Event>) {
    if |history| <= joined then events == []
    else
      var msg := history[|history| - 1];
      && events != []
      && FeedTells(parse, history[..|history| - 1], joined, events[..|events| - 1])
      && var event := events[|events| - 1];
         && event.key == Key(msg.marketId, msg.assetId)
         && EventTells(parse, For(history, event.key), Affected(msg), event.changes)
  }

  lemma NewestTells(codec: Codec, key: Key, mine: seq<Message>, affected: seq<(string, Side)>)
    requires codec.Faithful()
    ensures EventTells(codec.parse, mine, affected,
      Changes(codec, RunBook(codec.parse, EmptyBook(key.assetId, key.marketId), mine), affected))
  {
    RunBookFields(codec.parse, key.assetId, key.marketId, mine);
    ChangesTell(codec, mine, RunBook(codec.parse, EmptyBook(key.assetId, key.marketId), mine), affected);
  }

  /** From the messages alone: what the service publishes, message by message, sizes and totals. */
  lemma {:induction false} FeedTellsBook(codec: Codec, history: seq<Message>, joined: nat)
    requires codec.Faithful()
    ensures FeedTells(codec.parse, history, joined, RunFeed(codec, history, joined))
  {
    if joined < |history| {
      var msg := history[|history| - 1];
      FeedTellsBook(codec, history[..|history| - 1], joined);
      var event := FeedStep(codec, history, joined);
      NewestTells(codec, event.key, For(history, event.key), Affected(msg));
    }
  }
}
