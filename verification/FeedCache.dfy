// The executor's cache on the order book service's own feed: a published change lists the platforms that have
// a size and says nothing of those that no longer do.

module FeedCache {
  import opened Prelude
  import opened Schema
  import opened Levels
  import opened Ranking
  import opened Feed
  import opened Caching
  import Books
  import Decimals
  import Store

  // ---------------------------------------------------------------------------
  // The feed on the wire
  // ---------------------------------------------------------------------------

  function WireSide(side: Side): string {
    if side.Buy? then "buy" else "sell"
  }

  ghost predicate Enumerates(order: seq<string>, platforms: set<string>) {
    NoDuplicates(order) && forall p :: p in order <==> p in platforms
  }

  lemma EnumerationSize(order: seq<string>, platforms: set<string>)
    requires Enumerates(order, platforms)
    ensures |order| == |platforms|
  {
    NoDuplicatesBySize(order);
    assert SetOf(order) == platforms;
  }

  /** A published change; the platforms come in some map order. */
  function OnWire(codec: Codec, change: LevelChange, order: seq<string>): PriceChange
    requires Enumerates(order, change.platforms.Keys)
  {
    PriceChange(WireSide(change.side), change.price,
      seq(|order|, i requires 0 <= i < |order| => PlatformSize(order[i], codec.show(change.platforms[order[i]]))))
  }

  ghost predicate IsWire(codec: Codec, change: LevelChange, wire: PriceChange) {
    exists order :: Enumerates(order, change.platforms.Keys) && wire == OnWire(codec, change, order)
  }

  ghost predicate AreWires(codec: Codec, changes: seq<LevelChange>, wires: seq<PriceChange>) {
    |wires| == |changes| && forall i :: 0 <= i < |wires| ==> IsWire(codec, changes[i], wires[i])
  }

  ghost predicate Carries(codec: Codec, event: Event, received: OrderbookChange) {
    Caching.KeyOf(received) == event.key && AreWires(codec, event.changes, received.changes)
  }

  /** The executor receives what the service publishes, in order and without loss. */
  ghost predicate CarriesAll(codec: Codec, events: seq<Event>, received: seq<OrderbookChange>) {
    |received| == |events| && forall i :: 0 <= i < |received| ==> Carries(codec, events[i], received[i])
  }

  lemma {:induction false} EnumerationExists(platforms: set<string>) returns (order: seq<string>)
    ensures Enumerates(order, platforms)
    decreases |platforms|
  {
    if platforms == {} {
      order := [];
    } else {
      var p := Member(platforms);
      var rest := EnumerationExists(platforms - {p});
      order := rest + [p];
    }
  }

  lemma {:induction false} WiresExist(codec: Codec, changes: seq<LevelChange>) returns (wires: seq<PriceChange>)
    ensures AreWires(codec, changes, wires)
  {
    if changes == [] {
      wires := [];
    } else {
      var last := changes[|changes| - 1];
      var front := WiresExist(codec, changes[..|changes| - 1]);
      var order := EnumerationExists(last.platforms.Keys);
      wires := front + [OnWire(codec, last, order)];
      assert IsWire(codec, last, wires[|front|]);
    }
  }

  /** Every feed can be received. */
  lemma {:induction false} ReceivedExists(codec: Codec, events: seq<Event>) returns (received: seq<OrderbookChange>)
    ensures CarriesAll(codec, events, received)
  {
    if events == [] {
      received := [];
    } else {
      var last := events[|events| - 1];
      var front := ReceivedExists(codec, events[..|events| - 1]);
      var wires := WiresExist(codec, last.changes);
      received := front + [OrderbookChange(last.key.marketId, last.key.assetId, wires)];
    }
  }

  // ---------------------------------------------------------------------------
  // What the executor reads in one event
  // ---------------------------------------------------------------------------

  /** Clean levels whose sizes were read from text, as every book has them. */
  ghost predicate CleanAndReadable(parse: Parser, levels: Levels) {
    Clean(levels) && forall price, p :: CellOf(levels, price, p).Some? ==>
      Readable(parse, CellOf(levels, price, p).value)
  }

  lemma RunIsCleanAndReadable(parse: Parser, side: Side, history: seq<Message>)
    ensures CleanAndReadable(parse, RunSide(parse, side, history))
  {
    RunIsClean(parse, side, history);
    forall price, p | CellOf(RunSide(parse, side, history), price, p).Some?
      ensures Readable(parse, CellOf(RunSide(parse, side, history), price, p).value)
    {
      SizesAreReadable(parse, side, history, price, p);
    }
  }

  /** The affected entries before the first whose price is no decimal: there the executor stops reading. */
  function ReadPart(parse: Parser, affected: seq<(string, Side)>): seq<(string, Side)> {
    if affected == [] || parse(affected[0].0).None? then [] else [affected[0]] + ReadPart(parse, affected[1..])
  }

  predicate ListsReadably(parse: Parser, msg: Message, side: Side, price: Decimal) {
    ListsIn(parse, ReadPart(parse, Affected(msg)), side, price)
  }

  lemma {:induction false} QuotesAtAll(parse: Parser, side: Side, price: Decimal, platforms: seq<PlatformSize>)
    requires SizesParse(parse, platforms)
    ensures var quotes := QuotesAt(parse, WireSide(side), price, platforms);
      && |quotes| == |platforms|
      && forall i :: 0 <= i < |platforms| ==>
           quotes[i] == Quote(side, platforms[i].platform, price, parse(platforms[i].size).value)
  {
    if platforms != [] {
      QuotesAtAll(parse, side, price, platforms[1..]);
    }
  }

  lemma WirePrice(codec: Codec, book: Books.BookValue, entry: (string, Side))
    requires codec.Faithful()
    ensures var change := ChangeAt(codec, book, entry);
      && change.side == entry.1
      && codec.parse(change.price) == codec.parse(entry.0)
      && (codec.parse(entry.0).None? ==> change.platforms == map[])
      && (codec.parse(entry.0).Some? ==>
           change.platforms == LevelAt(book.Levels(entry.1), codec.parse(entry.0).value))
  {
  }

  lemma WireSizes(codec: Codec, change: LevelChange, order: seq<string>, levels: Levels, price: Decimal)
    requires codec.Faithful() && CleanAndReadable(codec.parse, levels)
    requires Enumerates(order, change.platforms.Keys) && change.platforms == LevelAt(levels, price)
    ensures var wire := OnWire(codec, change, order);
      forall i :: 0 <= i < |order| ==>
        && codec.parse(wire.platforms[i].size) == Some(change.platforms[order[i]])
        && change.platforms[order[i]] != 0.0
  {
    forall i | 0 <= i < |order|
      ensures codec.parse(codec.show(change.platforms[order[i]])) == Some(change.platforms[order[i]])
      ensures change.platforms[order[i]] != 0.0
    {
      assert CellOf(levels, price, order[i]) == Some(change.platforms[order[i]]);
    }
  }

  lemma MentionedInOrder(
    quotes: seq<Quote>, order: seq<string>, sizes: PlatformSizes, at: Decimal, quoteSide: Side, side: Side,
    platform: string, price: Decimal)
    requires Enumerates(order, sizes.Keys) && |quotes| == |order|
    requires forall i :: 0 <= i < |order| ==>
      quotes[i].side == quoteSide && quotes[i].platform == order[i] && quotes[i].price == at
    ensures Mentioned(quotes, side, platform, price) <==> side == quoteSide && price == at && platform in sizes
  {
    if side == quoteSide && price == at && platform in sizes {
      var i :| 0 <= i < |order| && order[i] == platform;
      assert IsAbout(quotes[i], side, platform, price);
    }
    if i :| 0 <= i < |quotes| && IsAbout(quotes[i], side, platform, price) {
      assert order[i] in order;
    }
  }

  /** One published change mentions exactly the platforms that have a size at its price, with that size. */
  lemma WireQuotes(
    codec: Codec, book: Books.BookValue, entry: (string, Side), wire: PriceChange, side: Side, platform: string,
    price: Decimal)
    requires codec.Faithful() && CleanAndReadable(codec.parse, book.Levels(entry.1))
    requires IsWire(codec, ChangeAt(codec, book, entry), wire)
    ensures codec.parse(wire.price) == codec.parse(entry.0) && SizesParse(codec.parse, wire.platforms)
    ensures codec.parse(entry.0).Some? ==>
      var quotes := QuotesAt(codec.parse, wire.side, codec.parse(entry.0).value, wire.platforms);
      && NoRemovals(quotes)
      && (Mentioned(quotes, side, platform, price)
          <==> Names(codec.parse, entry, side, price) && CellOf(book.Levels(side), price, platform).Some?)
  {
    var change := ChangeAt(codec, book, entry);
    var order :| Enumerates(order, change.platforms.Keys) && wire == OnWire(codec, change, order);
    WirePrice(codec, book, entry);
    if codec.parse(entry.0).Some? {
      var at, levels := codec.parse(entry.0).value, book.Levels(entry.1);
      WireSizes(codec, change, order, levels, at);
      QuotesAtAll(codec.parse, entry.1, at, wire.platforms);
      var quotes := QuotesAt(codec.parse, wire.side, at, wire.platforms);
      MentionedInOrder(quotes, order, change.platforms, at, entry.1, side, platform, price);
    } else {
      EnumerationSize(order, change.platforms.Keys);
    }
  }

  lemma ListsInFirst(parse: Parser, affected: seq<(string, Side)>, side: Side, price: Decimal)
    requires affected != []
    ensures ListsIn(parse, affected, side, price)
      <==> Names(parse, affected[0], side, price) || ListsIn(parse, affected[1..], side, price)
  {
    if i :| 0 <= i < |affected| && Names(parse, affected[i], side, price) && i > 0 {
      assert Names(parse, affected[1..][i - 1], side, price);
    }
    if i :| 0 <= i < |affected| - 1 && Names(parse, affected[1..][i], side, price) {
      assert Names(parse, affected[i + 1], side, price);
    }
  }

  /** What the executor reads in an event: the platforms with a size at each price it gets to; no removals. */
  lemma {:induction false} EventQuotes(
    codec: Codec, book: Books.BookValue, affected: seq<(string, Side)>, wires: seq<PriceChange>, side: Side,
    platform: string, price: Decimal)
    requires codec.Faithful() && CleanAndReadable(codec.parse, book.bids) && CleanAndReadable(codec.parse, book.asks)
    requires |wires| == |affected|
    requires forall i :: 0 <= i < |wires| ==> IsWire(codec, ChangeAt(codec, book, affected[i]), wires[i])
    ensures NoRemovals(Quotes(codec.parse, wires))
    ensures Mentioned(Quotes(codec.parse, wires), side, platform, price)
      <==> ListsIn(codec.parse, ReadPart(codec.parse, affected), side, price)
           && CellOf(book.Levels(side), price, platform).Some?
    decreases |wires|
  {
    if wires != [] {
      WireQuotes(codec, book, affected[0], wires[0], side, platform, price);
      if codec.parse(affected[0].0).Some? {
        EventQuotes(codec, book, affected[1..], wires[1..], side, platform, price);
        var first := QuotesAt(codec.parse, wires[0].side, codec.parse(affected[0].0).value, wires[0].platforms);
        MentionedInParts(first, Quotes(codec.parse, wires[1..]), side, platform, price);
        var read := ReadPart(codec.parse, affected);
        ListsInFirst(codec.parse, read, side, price);
        assert read[1..] == ReadPart(codec.parse, affected[1..]);
      }
    }
  }

  lemma {:induction false} ChangesByIndex(codec: Codec, book: Books.BookValue, affected: seq<(string, Side)>)
    ensures |Changes(codec, book, affected)| == |affected|
    ensures forall i :: 0 <= i < |affected| ==>
      Changes(codec, book, affected)[i] == ChangeAt(codec, book, affected[i])
  {
    if affected != [] {
      ChangesByIndex(codec, book, affected[..|affected| - 1]);
    }
  }

  function BookAfter(codec: Codec, key: Store.Key, mine: seq<Message>): Books.BookValue {
    Books.RunBook(codec.parse, Books.EmptyBook(key.assetId, key.marketId), mine)
  }

  /** What is published for the newest message of a book's history. */
  ghost function PublishedAfter(codec: Codec, key: Store.Key, mine: seq<Message>): seq<LevelChange>
    requires mine != []
  {
    Changes(codec, BookAfter(codec, key, mine), Affected(mine[|mine| - 1]))
  }

  /** The same for the newest message of a book's history. */
  lemma NewestEventQuotes(
    codec: Codec, key: Store.Key, mine: seq<Message>, wires: seq<PriceChange>, side: Side, platform: string,
    price: Decimal)
    requires codec.Faithful() && mine != []
    requires AreWires(codec, PublishedAfter(codec, key, mine), wires)
    ensures NoRemovals(Quotes(codec.parse, wires))
    ensures Mentioned(Quotes(codec.parse, wires), side, platform, price)
      <==> ListsReadably(codec.parse, mine[|mine| - 1], side, price)
           && CellOf(RunSide(codec.parse, side, mine), price, platform).Some?
  {
    var book, affected := BookAfter(codec, key, mine), Affected(mine[|mine| - 1]);
    Books.RunBookFields(codec.parse, key.assetId, key.marketId, mine);
    RunIsCleanAndReadable(codec.parse, Buy, mine);
    RunIsCleanAndReadable(codec.parse, Sell, mine);
    ChangesByIndex(codec, book, affected);
    EventQuotes(codec, book, affected, wires, side, platform, price);
  }

  /** Some texts and what they stand for. */
  lemma NaturalTexts()
    ensures NATURALS.Faithful() && NATURALS.parse("x") == None
    ensures NATURALS.parse("0") == Some(0.0) && NATURALS.parse("1") == Some(1.0) && NATURALS.parse("5") == Some(5.0)
  {
    NaturalsAreFaithful();
    assert Decimals.Digits(0) == "0" && Decimals.Digits(1) == "1" && Decimals.Digits(5) == "5";
    assert !Decimals.IsDigit("x"[0]);
  }

  // ---------------------------------------------------------------------------
  // Whole runs
  // ---------------------------------------------------------------------------

  /** After the first `joined`, some message named this price, readably, while the platform had a size there. */
  predicate Shown(
    parse: Parser, side: Side, mine: seq<Message>, joined: nat, price: Decimal, platform: string)
  {
    if |mine| <= joined then false
    else
      || Shown(parse, side, mine[..|mine| - 1], joined, price, platform)
      || (ListsReadably(parse, mine[|mine| - 1], side, price)
          && CellOf(RunSide(parse, side, mine), price, platform).Some?)
  }

  lemma EarlierCarried(codec: Codec, events: seq<Event>, event: Event, received: seq<OrderbookChange>)
    requires CarriesAll(codec, events + [event], received)
    ensures CarriesAll(codec, events, received[..|received| - 1])
    ensures Carries(codec, event, received[|received| - 1])
  {
    assert forall i :: 0 <= i < |events| ==> (events + [event])[i] == events[i];
    assert (events + [event])[|events|] == event;
  }

  /** One more message, for this key or another. */
  lemma QuotesForMore(
    parse: Parser, received: seq<OrderbookChange>, key: Store.Key, side: Side, platform: string, price: Decimal)
    requires received != []
    ensures var front, last := received[..|received| - 1], received[|received| - 1];
      var before, more := QuotesFor(parse, front, key), Quotes(parse, last.changes);
      if Caching.KeyOf(last) != key then QuotesFor(parse, received, key) == before
      else
        && (NoRemovals(before) && NoRemovals(more) ==> NoRemovals(QuotesFor(parse, received, key)))
        && (Mentioned(QuotesFor(parse, received, key), side, platform, price)
            <==> Mentioned(before, side, platform, price) || Mentioned(more, side, platform, price))
  {
    var front, last := received[..|received| - 1], received[|received| - 1];
    MentionedInParts(QuotesFor(parse, front, key), Quotes(parse, last.changes), side, platform, price);
    assert QuotesFor(parse, front, key) + [] == QuotesFor(parse, front, key);
  }

  lemma {:induction false} FeedQuotes(
    codec: Codec, history: seq<Message>, joined: nat, received: seq<OrderbookChange>, key: Store.Key, side: Side,
    platform: string, price: Decimal)
    requires codec.Faithful() && joined <= |history|
    requires CarriesAll(codec, RunFeed(codec, history, joined), received)
    ensures NoRemovals(QuotesFor(codec.parse, received, key))
    ensures Mentioned(QuotesFor(codec.parse, received, key), side, platform, price)
      <==> Shown(codec.parse, side, Store.For(history, key), OwnJoined(history, joined, key), price, platform)
  {
    if joined == |history| {
      assert history[..joined] == history;
    } else {
      var older, msg := history[..|history| - 1], history[|history| - 1];
      var event := FeedStep(codec, history, joined);
      var front, last := received[..|received| - 1], received[|received| - 1];
      EarlierCarried(codec, RunFeed(codec, older, joined), event, received);
      FeedQuotes(codec, older, joined, front, key, side, platform, price);
      QuotesForMore(codec.parse, received, key, side, platform, price);
      OwnJoinedStep(history, joined, key);
      if Store.KeyOf(msg) == key {
        var mine := Store.For(history, key);
        assert mine[..|mine| - 1] == Store.For(older, key);
        NewestEventQuotes(codec, key, mine, last.changes, side, platform, price);
      }
    }
  }

  /**
   * On the service's own feed, from whatever event on, and whatever order the platforms are listed in: the cache of
   * an executor is not the best price a platform has but the best price the executor was ever shown it with.
   */
  lemma CacheIsBestEverShown(
    codec: Codec, history: seq<Message>, joined: nat, received: seq<OrderbookChange>, key: Store.Key, side: Side,
    platform: string, price: Decimal)
    requires codec.Faithful() && joined <= |history|
    requires CarriesAll(codec, RunFeed(codec, history, joined), received)
    ensures NoRemovals(QuotesFor(codec.parse, received, key))
    ensures var best := EntryAt(RunCache(codec.parse, received), key).Best(side);
      var mine, own := Store.For(history, key), OwnJoined(history, joined, key);
      && (platform in best ==> Shown(codec.parse, side, mine, own, best[platform], platform))
      && (Shown(codec.parse, side, mine, own, price, platform) ==>
           platform in best && !Better(side, price, best[platform]))
  {
    var quotes := QuotesFor(codec.parse, received, key);
    EntryIsCacheAfter(codec.parse, received, key);
    CacheAfterIsApply(quotes);
    FeedQuotes(codec, history, joined, received, key, side, platform, price);
    CacheIsBestKnown(NO_PRICES, quotes, side, platform, price);
    var best := CacheAfter(quotes).Best(side);
    if platform in best {
      FeedQuotes(codec, history, joined, received, key, side, platform, best[platform]);
    }
  }

  // ---------------------------------------------------------------------------
  // One message
  // ---------------------------------------------------------------------------

  /** The prices at which a platform has a size. */
  function PricesOf(levels: Levels, platform: string): set<Decimal> {
    set price | price in levels && platform in levels[price]
  }

  function CachedPrice(best: BestPrices, platform: string): Option<Decimal> {
    if platform in best then Some(best[platform]) else None
  }

  /** The cached price is the best price the platform has in the book. */
  ghost predicate Agrees(cached: Option<Decimal>, side: Side, prices: set<Decimal>) {
    match cached
    case None => prices == {}
    case Some(best) => IsBest(side, prices, best)
  }

  /** The message gives its platform a size at this price. */
  predicate Sets(parse: Parser, side: Side, msg: Message, price: Decimal) {
    var last := LastAt(Writes(parse, side, msg), price);
    last.Some? && last.value != 0.0
  }

  /** The message leaves its platform the size it has at this price, or gives it another. */
  predicate Leaves(parse: Parser, side: Side, msg: Message, price: Decimal) {
    match LastAt(Writes(parse, side, msg), price)
    case Some(size) => size != 0.0
    case None => msg.messageType.Delta?
  }

  /** The message keeps the platform's best price or sets a better one. */
  ghost predicate KeepsOrImproves(parse: Parser, side: Side, msg: Message, best: Option<Decimal>) {
    best.Some? ==>
      Leaves(parse, side, msg, best.value)
      || exists price :: Sets(parse, side, msg, price) && Better(side, price, best.value)
  }

  /** No new best price stands behind an entry at which the executor stops reading. */
  ghost predicate ShowsNewBest(parse: Parser, side: Side, msg: Message, best: Option<Decimal>) {
    forall price ::
      Sets(parse, side, msg, price) && !ListsReadably(parse, msg, side, price)
      && (best.Some? ==> Better(side, price, best.value)) ==>
        exists shown ::
          Sets(parse, side, msg, shown) && ListsReadably(parse, msg, side, shown) && Better(side, shown, price)
  }

  /** The prices of the sender after a message. */
  lemma PricesAfterOwn(parse: Parser, side: Side, levels: Levels, msg: Message, price: Decimal)
    ensures price in PricesOf(ApplySide(parse, side, levels, msg), msg.platform)
      <==> Sets(parse, side, msg, price)
           || (price in PricesOf(levels, msg.platform) && Leaves(parse, side, msg, price))
  {
    var after := ApplySide(parse, side, levels, msg);
    CellAfterMessage(parse, side, levels, msg, price, msg.platform);
    assert price in PricesOf(after, msg.platform) <==> CellOf(after, price, msg.platform).Some?;
    assert price in PricesOf(levels, msg.platform) <==> CellOf(levels, price, msg.platform).Some?;
  }

  lemma PricesAfterOther(parse: Parser, side: Side, levels: Levels, msg: Message, platform: string)
    requires platform != msg.platform
    ensures PricesOf(ApplySide(parse, side, levels, msg), platform) == PricesOf(levels, platform)
  {
    var after := ApplySide(parse, side, levels, msg);
    forall price
      ensures price in PricesOf(after, platform) <==> price in PricesOf(levels, platform)
    {
      CellAfterMessage(parse, side, levels, msg, price, platform);
      assert price in PricesOf(after, platform) <==> CellOf(after, price, platform).Some?;
      assert price in PricesOf(levels, platform) <==> CellOf(levels, price, platform).Some?;
    }
  }

  /** The cached price after a message is the best of the cached price and what the message shows. */
  ghost predicate IsUpdate(
    cached: Option<Decimal>, after: Option<Decimal>, parse: Parser, side: Side, msg: Message, prices: set<Decimal>)
  {
    && (after.Some? ==>
         after == cached || (ListsReadably(parse, msg, side, after.value) && after.value in prices))
    && (cached.Some? ==> after.Some? && !Better(side, cached.value, after.value))
    && (forall price :: ListsReadably(parse, msg, side, price) && price in prices ==>
         after.Some? && !Better(side, price, after.value))
  }

  lemma UpdateFromQuotes(
    parse: Parser, cached: CachedBbo, quotes: seq<Quote>, side: Side, platform: string, msg: Message,
    prices: set<Decimal>)
    requires NoRemovals(quotes)
    requires forall price ::
      Mentioned(quotes, side, platform, price) <==> ListsReadably(parse, msg, side, price) && price in prices
    ensures IsUpdate(CachedPrice(cached.Best(side), platform),
      CachedPrice(ApplyQuotes(cached, quotes).Best(side), platform), parse, side, msg, prices)
  {
    var after := ApplyQuotes(cached, quotes).Best(side);
    forall price
      ensures platform in after ==> Known(cached, quotes, side, platform, after[platform])
      ensures Known(cached, quotes, side, platform, price) ==>
        platform in after && !Better(side, price, after[platform])
    {
      CacheIsBestKnown(cached, quotes, side, platform, price);
    }
    if platform in cached.Best(side) {
      assert Known(cached, quotes, side, platform, cached.Best(side)[platform]);
    }
    forall price | ListsReadably(parse, msg, side, price) && price in prices
      ensures platform in after && !Better(side, price, after[platform])
    {
      assert Mentioned(quotes, side, platform, price);
      assert Known(cached, quotes, side, platform, price);
    }
  }

  lemma CacheUpdate(
    codec: Codec, key: Store.Key, mine: seq<Message>, wires: seq<PriceChange>, cached: CachedBbo, side: Side,
    platform: string)
    requires codec.Faithful() && mine != []
    requires AreWires(codec, PublishedAfter(codec, key, mine), wires)
    ensures IsUpdate(CachedPrice(cached.Best(side), platform),
      CachedPrice(ApplyQuotes(cached, Quotes(codec.parse, wires)).Best(side), platform),
      codec.parse, side, mine[|mine| - 1], PricesOf(RunSide(codec.parse, side, mine), platform))
  {
    var prices := PricesOf(RunSide(codec.parse, side, mine), platform);
    NewestEventQuotes(codec, key, mine, wires, side, platform, 0.0);
    forall price
      ensures Mentioned(Quotes(codec.parse, wires), side, platform, price)
        <==> ListsReadably(codec.parse, mine[|mine| - 1], side, price) && price in prices
    {
      NewestEventQuotes(codec, key, mine, wires, side, platform, price);
    }
    UpdateFromQuotes(
      codec.parse, cached, Quotes(codec.parse, wires), side, platform, mine[|mine| - 1], prices);
  }

  ghost predicate IsStep(parse: Parser, side: Side, msg: Message, before: set<Decimal>, now: set<Decimal>) {
    forall price ::
      price in now <==> Sets(parse, side, msg, price) || (price in before && Leaves(parse, side, msg, price))
  }

  lemma AgreementNeeds(
    parse: Parser, side: Side, msg: Message, cached: Option<Decimal>, after: Option<Decimal>,
    before: set<Decimal>, now: set<Decimal>)
    requires Agrees(cached, side, before) && IsStep(parse, side, msg, before, now)
    requires IsUpdate(cached, after, parse, side, msg, now) && Agrees(after, side, now)
    ensures KeepsOrImproves(parse, side, msg, cached) && ShowsNewBest(parse, side, msg, cached)
  {
    if cached.Some? && !Leaves(parse, side, msg, cached.value) {
      assert after.value in now && Better(side, after.value, cached.value);
      assert Sets(parse, side, msg, after.value);
    }
    forall price |
      Sets(parse, side, msg, price) && !ListsReadably(parse, msg, side, price)
      && (cached.Some? ==> Better(side, price, cached.value))
      ensures exists shown ::
        Sets(parse, side, msg, shown) && ListsReadably(parse, msg, side, shown) && Better(side, shown, price)
    {
      assert price in now;
      assert after != cached && after.value != price;
      assert Sets(parse, side, msg, after.value);
    }
  }

  lemma AgreementFollows(
    parse: Parser, side: Side, msg: Message, cached: Option<Decimal>, after: Option<Decimal>,
    before: set<Decimal>, now: set<Decimal>)
    requires Agrees(cached, side, before) && IsStep(parse, side, msg, before, now)
    requires IsUpdate(cached, after, parse, side, msg, now)
    requires KeepsOrImproves(parse, side, msg, cached) && ShowsNewBest(parse, side, msg, cached)
    ensures Agrees(after, side, now)
  {
    if now == {} {
      assert cached.None?;
    } else {
      BestExists(side, now);
      var best :| IsBest(side, now, best);
      if cached.Some? {
        assert cached.value in before;
      }
      assert best in before ==> cached.Some? && !Better(side, best, cached.value);
    }
  }

  lemma SenderStaysExactIff(
    parse: Parser, side: Side, levels: Levels, msg: Message, cached: Option<Decimal>, after: Option<Decimal>)
    requires Agrees(cached, side, PricesOf(levels, msg.platform))
    requires IsUpdate(cached, after, parse, side, msg, PricesOf(ApplySide(parse, side, levels, msg), msg.platform))
    ensures Agrees(after, side, PricesOf(ApplySide(parse, side, levels, msg), msg.platform))
      <==> KeepsOrImproves(parse, side, msg, cached) && ShowsNewBest(parse, side, msg, cached)
  {
    var before, now := PricesOf(levels, msg.platform), PricesOf(ApplySide(parse, side, levels, msg), msg.platform);
    assert IsStep(parse, side, msg, before, now) by {
      forall price
        ensures price in now
          <==> Sets(parse, side, msg, price) || (price in before && Leaves(parse, side, msg, price))
      {
        PricesAfterOwn(parse, side, levels, msg, price);
      }
    }
    if Agrees(after, side, now) {
      AgreementNeeds(parse, side, msg, cached, after, before, now);
    } else if KeepsOrImproves(parse, side, msg, cached) && ShowsNewBest(parse, side, msg, cached) {
      AgreementFollows(parse, side, msg, cached, after, before, now);
    }
  }

  /**
   * An exact cached price stays exact over a message, exactly when the message is another platform's, or
   * keeps or improves the price and shows its new best where the executor can read it.
   */
  lemma CacheStaysExactIff(
    codec: Codec, key: Store.Key, mine: seq<Message>, msg: Message, wires: seq<PriceChange>, cached: CachedBbo,
    side: Side, platform: string)
    requires codec.Faithful()
    requires AreWires(codec, PublishedAfter(codec, key, mine + [msg]), wires)
    requires Agrees(CachedPrice(cached.Best(side), platform), side,
      PricesOf(RunSide(codec.parse, side, mine), platform))
    ensures Agrees(CachedPrice(ApplyQuotes(cached, Quotes(codec.parse, wires)).Best(side), platform), side,
        PricesOf(RunSide(codec.parse, side, mine + [msg]), platform))
      <==> platform != msg.platform
           || (KeepsOrImproves(codec.parse, side, msg, CachedPrice(cached.Best(side), platform))
               && ShowsNewBest(codec.parse, side, msg, CachedPrice(cached.Best(side), platform)))
  {
    var before, after := CachedPrice(cached.Best(side), platform),
      CachedPrice(ApplyQuotes(cached, Quotes(codec.parse, wires)).Best(side), platform);
    var levels := RunSide(codec.parse, side, mine);
    CacheUpdate(codec, key, mine + [msg], wires, cached, side, platform);
    assert (mine + [msg])[..|mine|] == mine;
    assert RunSide(codec.parse, side, mine + [msg]) == ApplySide(codec.parse, side, levels, msg);
    if platform == msg.platform {
      SenderStaysExactIff(codec.parse, side, levels, msg, before, after);
    } else {
      PricesAfterOther(codec.parse, side, levels, msg, platform);
    }
  }

  lemma {:induction false} ReadPartIsAll(parse: Parser, affected: seq<(string, Side)>)
    requires forall i :: 0 <= i < |affected| ==> parse(affected[i].0).Some?
    ensures ReadPart(parse, affected) == affected
  {
    if affected != [] {
      ReadPartIsAll(parse, affected[1..]);
    }
  }

  /** When every price of a message can be read, only keeping or improving the price matters. */
  lemma ReadableMessagesShowAll(parse: Parser, side: Side, msg: Message, best: Option<Decimal>)
    requires forall i :: 0 <= i < |Affected(msg)| ==> parse(Affected(msg)[i].0).Some?
    ensures ShowsNewBest(parse, side, msg, best)
  {
    ReadPartIsAll(parse, Affected(msg));
    forall price | Sets(parse, side, msg, price)
      ensures ListsReadably(parse, msg, side, price)
    {
      WritesAreListed(parse, side, msg, price);
    }
  }

  /**
   * A cached price stays, whether its platform still has a size there or not, exactly until a message shows
   * the platform with a better one.
   */
  lemma CachedPriceStaysIff(
    codec: Codec, key: Store.Key, mine: seq<Message>, msg: Message, wires: seq<PriceChange>, cached: CachedBbo,
    side: Side, platform: string)
    requires codec.Faithful() && platform in cached.Best(side)
    requires AreWires(codec, PublishedAfter(codec, key, mine + [msg]), wires)
    ensures var price := cached.Best(side)[platform];
      var after := ApplyQuotes(cached, Quotes(codec.parse, wires)).Best(side);
      && platform in after
      && (after[platform] == price <==>
           forall other :: other in PricesOf(RunSide(codec.parse, side, mine + [msg]), platform)
             ==> !ListsReadably(codec.parse, msg, side, other) || !Better(side, other, price))
  {
    CacheUpdate(codec, key, mine + [msg], wires, cached, side, platform);
  }

  /** The best price a platform has now has been shown since, and nothing better was. */
  ghost predicate NeverBetter(
    parse: Parser, side: Side, mine: seq<Message>, joined: nat, platform: string, prices: set<Decimal>)
  {
    if prices == {} then forall price :: !Shown(parse, side, mine, joined, price, platform)
    else
      exists best :: IsBest(side, prices, best) && Shown(parse, side, mine, joined, best, platform)
        && forall price :: Shown(parse, side, mine, joined, price, platform) ==> !Better(side, price, best)
  }

  lemma ExactFromShown(
    parse: Parser, side: Side, mine: seq<Message>, joined: nat, platform: string, cached: Option<Decimal>,
    prices: set<Decimal>)
    requires cached.Some? ==> Shown(parse, side, mine, joined, cached.value, platform)
    requires forall price :: Shown(parse, side, mine, joined, price, platform) ==>
      cached.Some? && !Better(side, price, cached.value)
    ensures Agrees(cached, side, prices) <==> NeverBetter(parse, side, mine, joined, platform, prices)
  {
    if prices != {} && Agrees(cached, side, prices) {
      assert IsBest(side, prices, cached.value);
    }
    if prices != {} && NeverBetter(parse, side, mine, joined, platform, prices) {
      var best :| IsBest(side, prices, best) && Shown(parse, side, mine, joined, best, platform)
        && forall price :: Shown(parse, side, mine, joined, price, platform) ==> !Better(side, price, best);
      assert cached == Some(best);
    }
  }

  /**
   * After any run, for an executor that was started at any event, the cache is right about a platform exactly when
   * the platform's best price was shown since and the platform has not been shown with a better one.
   */
  lemma CacheIsExactIff(
    codec: Codec, history: seq<Message>, joined: nat, received: seq<OrderbookChange>, key: Store.Key, side: Side,
    platform: string)
    requires codec.Faithful() && joined <= |history|
    requires CarriesAll(codec, RunFeed(codec, history, joined), received)
    ensures var mine := Store.For(history, key);
      var prices := PricesOf(RunSide(codec.parse, side, mine), platform);
      var cached := CachedPrice(EntryAt(RunCache(codec.parse, received), key).Best(side), platform);
      var own := OwnJoined(history, joined, key);
      Agrees(cached, side, prices) <==> NeverBetter(codec.parse, side, mine, own, platform, prices)
  {
    var mine, own := Store.For(history, key), OwnJoined(history, joined, key);
    var best := EntryAt(RunCache(codec.parse, received), key).Best(side);
    CacheIsBestEverShown(codec, history, joined, received, key, side, platform, 0.0);
    var cached := CachedPrice(best, platform);
    forall price | Shown(codec.parse, side, mine, own, price, platform)
      ensures cached.Some? && !Better(side, price, cached.value)
    {
      CacheIsBestEverShown(codec, history, joined, received, key, side, platform, price);
    }
    ExactFromShown(codec.parse, side, mine, own, platform, cached,
      PricesOf(RunSide(codec.parse, side, mine), platform));
  }

  // ---------------------------------------------------------------------------
  // An entry that cannot be read
  // ---------------------------------------------------------------------------

  function BehindUnreadable(key: Store.Key): Message {
    Message("p", key.assetId, key.marketId, Delta, None, None, Some([Update(Buy, "x", "5"), Update(Buy, "1", "5")]))
  }

  /** The book skips an entry it cannot read and takes the next; the executor never gets to that one. */
  lemma UnreadableEntryHidesRest(parse: Parser, key: Store.Key)
    requires parse("x") == None && parse("1") == Some(1.0) && parse("5") == Some(5.0)
    ensures Sets(parse, Buy, BehindUnreadable(key), 1.0)
    ensures !ShowsNewBest(parse, Buy, BehindUnreadable(key), None)
    ensures forall price :: Sets(parse, Buy, BehindUnreadable(key), price) <==> price == 1.0
    ensures forall price :: !ListsReadably(parse, BehindUnreadable(key), Buy, price)
  {
    var msg := BehindUnreadable(key);
    var updates := OrEmpty(msg.updates);
    assert updates[..1][..0] == [] && updates[..2] == updates && updates[..2][..1] == updates[..1];
    assert DeltaWrites(parse, Buy, updates[..1]) == [];
    assert Writes(parse, Buy, msg) == [Write(1.0, 5.0)];
    assert [Write(1.0, 5.0)][..0] == [];
    assert forall price :: LastAt([Write(1.0, 5.0)], price) == if price == 1.0 then Some(5.0) else None;
    assert Affected(msg)[0] == ("x", Buy);
    assert forall price :: !ListsReadably(parse, msg, Buy, price);
    assert Sets(parse, Buy, msg, 1.0) && !ListsReadably(parse, msg, Buy, 1.0);
  }

  /** A platform that was never shown is not cached. */
  lemma NeverShown(
    codec: Codec, history: seq<Message>, received: seq<OrderbookChange>, key: Store.Key, side: Side, platform: string)
    requires codec.Faithful() && CarriesAll(codec, RunFeed(codec, history, 0), received)
    requires forall price :: !Shown(codec.parse, side, Store.For(history, key), 0, price, platform)
    ensures CachedPrice(EntryAt(RunCache(codec.parse, received), key).Best(side), platform) == None
  {
    CacheIsBestEverShown(codec, history, 0, received, key, side, platform, 0.0);
    assert history[..0] == [];
  }

  lemma HiddenBid(parse: Parser, key: Store.Key)
    requires parse("x") == None && parse("1") == Some(1.0) && parse("5") == Some(5.0)
    ensures Store.For([BehindUnreadable(key)], key) == [BehindUnreadable(key)]
    ensures PricesOf(RunSide(parse, Buy, [BehindUnreadable(key)]), "p") == {1.0}
    ensures forall price :: !Shown(parse, Buy, [BehindUnreadable(key)], 0, price, "p")
  {
    var msg := BehindUnreadable(key);
    Store.OwnMessages([msg], key);
    assert [msg][..0] == [];
    UnreadableEntryHidesRest(parse, key);
    forall price
      ensures price in PricesOf(RunSide(parse, Buy, [msg]), "p") <==> price == 1.0
    {
      PricesAfterOwn(parse, Buy, map[], msg, price);
    }
  }

  /** The book has a bid and the executor does not know of any. */
  lemma HiddenBidHappens(key: Store.Key) returns (received: seq<OrderbookChange>)
    ensures CarriesAll(NATURALS, RunFeed(NATURALS, [BehindUnreadable(key)], 0), received)
    ensures CachedPrice(EntryAt(RunCache(NATURALS.parse, received), key).Best(Buy), "p") == None
    ensures PricesOf(RunSide(NATURALS.parse, Buy, [BehindUnreadable(key)]), "p") == {1.0}
  {
    NaturalTexts();
    HiddenBid(NATURALS.parse, key);
    received := ReceivedExists(NATURALS, RunFeed(NATURALS, [BehindUnreadable(key)], 0));
    NeverShown(NATURALS, [BehindUnreadable(key)], received, key, Buy, "p");
  }

  // ---------------------------------------------------------------------------
  // A level that one platform leaves and another keeps
  // ---------------------------------------------------------------------------

  function BidAtOne(key: Store.Key, platform: string, size: string): Message {
    Message(platform, key.assetId, key.marketId, Delta, None, None, Some([Update(Buy, "1", size)]))
  }

  /** Two platforms bid at the same price, then the first withdraws. */
  function Departure(key: Store.Key): seq<Message> {
    [BidAtOne(key, "p", "5"), BidAtOne(key, "q", "5"), BidAtOne(key, "p", "0")]
  }

  lemma BidAtOneWrites(parse: Parser, key: Store.Key, platform: string, size: string, price: Decimal)
    requires parse("1") == Some(1.0) && parse(size).Some?
    ensures Writes(parse, Buy, BidAtOne(key, platform, size)) == [Write(1.0, parse(size).value)]
    ensures ListsReadably(parse, BidAtOne(key, platform, size), Buy, price) <==> price == 1.0
  {
    var msg := BidAtOne(key, platform, size);
    var update := Update(Buy, "1", size);
    assert [update][..0] == [];
    assert DeltaWrites(parse, Buy, [update]) == UpdateWrite(parse, Buy, update);
    assert Affected(msg) == [("1", Buy)];
    ReadPartIsAll(parse, Affected(msg));
    assert Names(parse, Affected(msg)[0], Buy, 1.0);
  }

  lemma DepartureCells(parse: Parser, key: Store.Key)
    requires parse("1") == Some(1.0) && parse("5") == Some(5.0) && parse("0") == Some(0.0)
    ensures CellOf(RunSide(parse, Buy, Departure(key)[..1]), 1.0, "p") == Some(5.0)
    ensures CellOf(RunSide(parse, Buy, Departure(key)), 1.0, "p") == None
    ensures CellOf(RunSide(parse, Buy, Departure(key)), 1.0, "q") == Some(5.0)
  {
    var all, two, one := Departure(key), Departure(key)[..2], Departure(key)[..1];
    assert all[..|all| - 1] == two && two[..|two| - 1] == one && one[..|one| - 1] == [];
    BidAtOneWrites(parse, key, "p", "5", 1.0);
    BidAtOneWrites(parse, key, "q", "5", 1.0);
    BidAtOneWrites(parse, key, "p", "0", 1.0);
    CellAfterMessage(parse, Buy, map[], one[0], 1.0, "p");
    CellAfterMessage(parse, Buy, RunSide(parse, Buy, one), two[1], 1.0, "q");
    CellAfterMessage(parse, Buy, RunSide(parse, Buy, two), all[2], 1.0, "q");
    CellAfterMessage(parse, Buy, RunSide(parse, Buy, two), all[2], 1.0, "p");
  }

  lemma {:induction false} DepartureShows(parse: Parser, key: Store.Key, n: nat, price: Decimal)
    requires parse("1") == Some(1.0) && parse("5") == Some(5.0) && parse("0") == Some(0.0)
    requires n <= 3
    ensures Shown(parse, Buy, Departure(key)[..n], 0, price, "p") ==> price == 1.0
    ensures n > 0 ==> Shown(parse, Buy, Departure(key)[..n], 0, 1.0, "p")
  {
    if n > 0 {
      assert Departure(key)[..n][..n - 1] == Departure(key)[..n - 1];
      DepartureShows(parse, key, n - 1, price);
      BidAtOneWrites(parse, key, "p", "5", price);
      BidAtOneWrites(parse, key, "q", "5", price);
      BidAtOneWrites(parse, key, "p", "0", price);
      if n == 1 {
        DepartureCells(parse, key);
        BidAtOneWrites(parse, key, "p", "5", 1.0);
      }
    }
  }

  /** A platform shown at one price only is cached at that price. */
  lemma ShownAtOnePrice(
    codec: Codec, history: seq<Message>, received: seq<OrderbookChange>, key: Store.Key, side: Side, platform: string,
    price: Decimal)
    requires codec.Faithful() && CarriesAll(codec, RunFeed(codec, history, 0), received)
    requires Shown(codec.parse, side, Store.For(history, key), 0, price, platform)
    requires forall other :: Shown(codec.parse, side, Store.For(history, key), 0, other, platform) ==> other == price
    ensures CachedPrice(EntryAt(RunCache(codec.parse, received), key).Best(side), platform) == Some(price)
  {
    CacheIsBestEverShown(codec, history, 0, received, key, side, platform, price);
    assert history[..0] == [];
  }

  lemma DepartureShowsOnePrice(parse: Parser, key: Store.Key)
    requires parse("1") == Some(1.0) && parse("5") == Some(5.0) && parse("0") == Some(0.0)
    ensures Store.For(Departure(key), key) == Departure(key)
    ensures Shown(parse, Buy, Departure(key), 0, 1.0, "p")
    ensures forall other :: Shown(parse, Buy, Departure(key), 0, other, "p") ==> other == 1.0
  {
    var all := Departure(key);
    Store.OwnMessages(all, key);
    assert all[..3] == all;
    DepartureShows(parse, key, 3, 1.0);
    forall other | Shown(parse, Buy, all, 0, other, "p")
      ensures other == 1.0
    {
      DepartureShows(parse, key, 3, other);
    }
  }

  /** The first platform is gone from the level, the second is still there; the cache goes on quoting the first. */
  lemma DepartureIsMissed(codec: Codec, key: Store.Key, received: seq<OrderbookChange>)
    requires codec.Faithful()
    requires codec.parse("1") == Some(1.0) && codec.parse("5") == Some(5.0) && codec.parse("0") == Some(0.0)
    requires CarriesAll(codec, RunFeed(codec, Departure(key), 0), received)
    ensures CachedPrice(EntryAt(RunCache(codec.parse, received), key).Best(Buy), "p") == Some(1.0)
    ensures var level := LevelAt(RunSide(codec.parse, Buy, Departure(key)), 1.0); "p" !in level && "q" in level
  {
    DepartureCells(codec.parse, key);
    DepartureShowsOnePrice(codec.parse, key);
    ShownAtOnePrice(codec, Departure(key), received, key, Buy, "p", 1.0);
  }

  /** And this can happen. */
  lemma DepartureHappens(key: Store.Key) returns (received: seq<OrderbookChange>)
    ensures CarriesAll(NATURALS, RunFeed(NATURALS, Departure(key), 0), received)
    ensures CachedPrice(EntryAt(RunCache(NATURALS.parse, received), key).Best(Buy), "p") == Some(1.0)
    ensures var level := LevelAt(RunSide(NATURALS.parse, Buy, Departure(key)), 1.0); "p" !in level && "q" in level
  {
    NaturalTexts();
    received := ReceivedExists(NATURALS, RunFeed(NATURALS, Departure(key), 0));
    DepartureIsMissed(NATURALS, key, received);
  }
}
