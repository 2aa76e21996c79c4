// The multi-platform order book of one asset: the in-place class, the value it denotes,
// and what every run of messages guarantees about that value.

module Books {
  import opened Prelude
  import opened Schema
  import opened Levels
  import opened History
  import Ranking

  datatype BookValue = BookValue(
    assetId: string,
    marketId: string,
    bids: Levels,
    asks: Levels,
    platforms: seq<string>,
    bestBid: Option<Decimal>,
    bestAsk: Option<Decimal>,
    updateCount: nat)
  {
    function Levels(side: Side): Levels {
      if side.Buy? then bids else asks
    }

    function Best(side: Side): Option<Decimal> {
      if side.Buy? then bestBid else bestAsk
    }
  }

  function EmptyBook(assetId: string, marketId: string): BookValue {
    BookValue(assetId, marketId, map[], map[], [], None, None, 0)
  }

  function ApplyMessage(parse: Parser, book: BookValue, msg: Message): BookValue {
    var bids := Written(parse, Buy, book.bids, msg);
    var asks := Written(parse, Sell, book.asks, msg);
    book.(
      bids := DropEmpty(bids),
      asks := DropEmpty(asks),
      platforms := if msg.platform in book.platforms then book.platforms else book.platforms + [msg.platform],
      bestBid := Ranking.BestPrice(Buy, bids),
      bestAsk := Ranking.BestPrice(Sell, asks),
      updateCount := book.updateCount + 1)
  }

  function RunBook(parse: Parser, book: BookValue, history: seq<Message>): BookValue {
    if history == [] then book
    else ApplyMessage(parse, RunBook(parse, book, history[..|history| - 1]), history[|history| - 1])
  }

  /** Both sides of a book hold, cell by cell, what the entries of the message say. */
  lemma ApplyTells(parse: Parser, book: BookValue, msg: Message)
    ensures var after := ApplyMessage(parse, book, msg);
      && Told(parse, Buy, book.bids, msg, after.bids)
      && Told(parse, Sell, book.asks, msg, after.asks)
      && after.updateCount == book.updateCount + 1
      && after.assetId == book.assetId && after.marketId == book.marketId
  {
    WrittenIsTold(parse, Buy, book.bids, msg);
    WrittenIsTold(parse, Sell, book.asks, msg);
  }

  // ---------------------------------------------------------------------------
  // The in-place book
  // ---------------------------------------------------------------------------

  class Orderbook {
    const parse: Parser
    const assetId: string
    const marketId: string
    var bids: Levels
    var asks: Levels
    var platforms: seq<string>
    var bestBid: Option<Decimal>
    var bestAsk: Option<Decimal>
    var updateCount: nat

    function Value(): BookValue
      reads this
    {
      BookValue(assetId, marketId, bids, asks, platforms, bestBid, bestAsk, updateCount)
    }

    constructor (parse: Parser, assetId: string, marketId: string)
      ensures this.parse == parse
      ensures Value() == EmptyBook(assetId, marketId)
    {
      this.parse, this.assetId, this.marketId := parse, assetId, marketId;
      bids, asks, platforms := map[], map[], [];
      bestBid, bestAsk, updateCount := None, None, 0;
    }

    method Apply(msg: Message)
      modifies this
      ensures Value() == ApplyMessage(parse, old(Value()), msg)
    {
      if msg.platform !in platforms {
        platforms := platforms + [msg.platform];
      }
      match msg.messageType {
        case Snapshot => ApplySnapshotPlatform(msg);
        case Delta => ApplyDeltaPlatform(msg);
      }
      RecalculateSystemBbo();
      CleanupEmptyLevels();
      updateCount := updateCount + 1;
    }

    method ApplySnapshotPlatform(msg: Message)
      requires msg.messageType.Snapshot?
      modifies this`bids, this`asks
      ensures bids == Written(parse, Buy, old(bids), msg)
      ensures asks == Written(parse, Sell, old(asks), msg)
      ensures Told(parse, Buy, old(bids), msg, bids) && Told(parse, Sell, old(asks), msg, asks)
    {
      WrittenIsTold(parse, Buy, bids, msg);
      WrittenIsTold(parse, Sell, asks, msg);
      var platform := msg.platform;
      bids := ClearSide(bids, platform);
      asks := ClearSide(asks, platform);
      ghost var clearedBids, clearedAsks := bids, asks;

      var listedBids := OrEmpty(msg.bids);
      for i := 0 to |listedBids|
        invariant bids == ApplyWrites(clearedBids, SnapshotWrites(parse, listedBids[..i]), platform)
        invariant asks == clearedAsks
      {
        SnapshotStep(parse, clearedBids, listedBids, i, platform);
        InsertLevelPlatform(listedBids[i], Buy, platform);
      }
      assert listedBids[..|listedBids|] == listedBids;

      var listedAsks := OrEmpty(msg.asks);
      for i := 0 to |listedAsks|
        invariant asks == ApplyWrites(clearedAsks, SnapshotWrites(parse, listedAsks[..i]), platform)
        invariant bids == ApplyWrites(clearedBids, SnapshotWrites(parse, listedBids), platform)
      {
        SnapshotStep(parse, clearedAsks, listedAsks, i, platform);
        InsertLevelPlatform(listedAsks[i], Sell, platform);
      }
      assert listedAsks[..|listedAsks|] == listedAsks;
    }

    /** Walks every level of a side and takes one platform out of it. */
    static method ClearSide(levels: Levels, platform: string) returns (cleared: Levels)
      ensures cleared == ClearPlatform(levels, platform)
    {
      cleared := levels;
      var prices := levels.Keys;
      while prices != {}
        invariant prices <= levels.Keys == cleared.Keys
        invariant forall price :: price in levels ==>
          cleared[price] == if price in prices then levels[price] else levels[price] - {platform}
      {
        assert exists price :: price in prices by {
          var price := Member(prices);
        }
        var price :| price in prices;
        cleared := cleared[price := cleared[price] - {platform}];
        prices := prices - {price};
      }
      assert forall price :: price in levels ==> cleared[price] == levels[price] - {platform};
    }

    method ApplyDeltaPlatform(msg: Message)
      requires msg.messageType.Delta?
      modifies this`bids, this`asks
      ensures bids == Written(parse, Buy, old(bids), msg)
      ensures asks == Written(parse, Sell, old(asks), msg)
    {
      var updates := OrEmpty(msg.updates);
      for i := 0 to |updates|
        invariant bids == ApplyWrites(old(bids), DeltaWrites(parse, Buy, updates[..i]), msg.platform)
        invariant asks == ApplyWrites(old(asks), DeltaWrites(parse, Sell, updates[..i]), msg.platform)
      {
        DeltaStep(parse, Buy, old(bids), updates, i, msg.platform);
        DeltaStep(parse, Sell, old(asks), updates, i, msg.platform);
        ApplyUpdatePlatform(updates[i], msg.platform);
      }
      assert updates[..|updates|] == updates;
    }

    method ApplyUpdatePlatform(update: Update, platform: string)
      modifies this`bids, this`asks
      ensures bids == ApplyWrites(old(bids), UpdateWrite(parse, Buy, update), platform)
      ensures asks == ApplyWrites(old(asks), UpdateWrite(parse, Sell, update), platform)
      ensures var price, size := parse(update.price), parse(update.size);
        if price.None? || size.None? then bids == old(bids) && asks == old(asks)
        else if update.side.Buy? then
          OneCellSet(old(bids), bids, price.value, platform, size.value) && asks == old(asks)
        else OneCellSet(old(asks), asks, price.value, platform, size.value) && bids == old(bids)
    {
      var price := parse(update.price);
      if price.None? { return; }
      var size := parse(update.size);
      if size.None? { return; }
      SetLevel(update.side, Write(price.value, size.value), platform);
    }

    method InsertLevelPlatform(level: PriceLevel, side: Side, platform: string)
      modifies this`bids, this`asks
      ensures bids == if side.Buy? then ApplyWrites(old(bids), LevelWrite(parse, level), platform) else old(bids)
      ensures asks == if side.Sell? then ApplyWrites(old(asks), LevelWrite(parse, level), platform) else old(asks)
      ensures var price, size := parse(level.price), parse(level.size);
        if price.None? || size.None? || size.value == 0.0 then bids == old(bids) && asks == old(asks)
        else if side.Buy? then OneCellSet(old(bids), bids, price.value, platform, size.value) && asks == old(asks)
        else OneCellSet(old(asks), asks, price.value, platform, size.value) && bids == old(bids)
    {
      var price := parse(level.price);
      if price.None? { return; }
      var size := parse(level.size);
      if size.None? { return; }
      if size.value != 0.0 {
        SetLevel(side, Write(price.value, size.value), platform);
      }
    }

    /** Gets or creates the level and sets the platform's size in it. */
    method SetLevel(side: Side, w: Write, platform: string)
      modifies this`bids, this`asks
      ensures bids == if side.Buy? then ApplyWrites(old(bids), [w], platform) else old(bids)
      ensures asks == if side.Sell? then ApplyWrites(old(asks), [w], platform) else old(asks)
      ensures if side.Buy? then OneCellSet(old(bids), bids, w.price, platform, w.size)
              else OneCellSet(old(asks), asks, w.price, platform, w.size)
    {
      WriteSetsOneCell(if side.Buy? then bids else asks, w, platform);
      assert [w][..0] == [];
      match side {
        case Buy => bids := WriteCell(bids, w, platform);
        case Sell => asks := WriteCell(asks, w, platform);
      }
    }

    method CleanupEmptyLevels()
      modifies this`bids, this`asks
      ensures bids == DropEmpty(old(bids)) && asks == DropEmpty(old(asks))
    {
      bids := DropEmpty(bids);
      asks := DropEmpty(asks);
    }

    method RecalculateSystemBbo()
      modifies this`bestBid, this`bestAsk
      ensures bestBid == Ranking.BestPrice(Buy, bids)
      ensures bestAsk == Ranking.BestPrice(Sell, asks)
    {
      bestBid := Ranking.BestPrice(Buy, bids);
      bestAsk := Ranking.BestPrice(Sell, asks);
    }
  }

  // ---------------------------------------------------------------------------
  // Runs
  // ---------------------------------------------------------------------------

  ghost predicate SideConsistent(side: Side, levels: Levels, best: Option<Decimal>, platforms: set<string>) {
    && Clean(levels)
    && best == Ranking.BestPrice(side, levels)
    && Ranking.PlatformsIn(levels) <= platforms
  }

  /** What holds after every message: no empty level, no zero size, exact best prices, known platforms. */
  ghost predicate Consistent(book: BookValue) {
    && SideConsistent(Buy, book.bids, book.bestBid, SetOf(book.platforms))
    && SideConsistent(Sell, book.asks, book.bestAsk, SetOf(book.platforms))
    && NoDuplicates(book.platforms)
  }

  lemma MessageCoversPlatforms(parse: Parser, side: Side, levels: Levels, msg: Message)
    ensures Ranking.PlatformsIn(ApplySide(parse, side, levels, msg)) <= Ranking.PlatformsIn(levels) + {msg.platform}
  {
    var after := ApplySide(parse, side, levels, msg);
    forall p | p in Ranking.PlatformsIn(after)
      ensures p in Ranking.PlatformsIn(levels) + {msg.platform}
    {
      var price :| price in after && p in after[price];
      assert CellOf(after, price, p).Some?;
      CellAfterMessage(parse, side, levels, msg, price, p);
    }
  }

  lemma SideStaysConsistent(
    parse: Parser, side: Side, levels: Levels, best: Option<Decimal>, platforms: set<string>, msg: Message)
    requires SideConsistent(side, levels, best, platforms)
    ensures SideConsistent(side, ApplySide(parse, side, levels, msg),
      Ranking.BestPrice(side, Written(parse, side, levels, msg)), platforms + {msg.platform})
  {
    MessageKeepsClean(parse, side, levels, msg);
    Ranking.BestPriceBeforeCleanup(side, Written(parse, side, levels, msg));
    MessageCoversPlatforms(parse, side, levels, msg);
  }

  lemma PlatformAdded(platforms: seq<string>, platform: string)
    requires NoDuplicates(platforms)
    ensures var after := if platform in platforms then platforms else platforms + [platform];
      NoDuplicates(after) && SetOf(after) == SetOf(platforms) + {platform}
  {
    SetOfAppend(platforms, [platform]);
  }

  /** Every message keeps the book consistent, even though best prices are computed before the cleanup. */
  lemma ApplyKeepsConsistent(parse: Parser, book: BookValue, msg: Message)
    requires Consistent(book)
    ensures Consistent(ApplyMessage(parse, book, msg))
  {
    SideStaysConsistent(parse, Buy, book.bids, book.bestBid, SetOf(book.platforms), msg);
    SideStaysConsistent(parse, Sell, book.asks, book.bestAsk, SetOf(book.platforms), msg);
    PlatformAdded(book.platforms, msg.platform);
  }

  lemma {:induction false} RunBookConsistent(parse: Parser, assetId: string, marketId: string, history: seq<Message>)
    ensures Consistent(RunBook(parse, EmptyBook(assetId, marketId), history))
  {
    if history != [] {
      RunBookConsistent(parse, assetId, marketId, history[..|history| - 1]);
      ApplyKeepsConsistent(
        parse, RunBook(parse, EmptyBook(assetId, marketId), history[..|history| - 1]), history[|history| - 1]);
    } else {
      Ranking.BestPriceIsExtreme(Buy, map[]);
      Ranking.BestPriceIsExtreme(Sell, map[]);
    }
  }

  lemma ApplyFields(parse: Parser, book: BookValue, msg: Message)
    ensures var after := ApplyMessage(parse, book, msg);
      && after.bids == ApplySide(parse, Buy, book.bids, msg)
      && after.asks == ApplySide(parse, Sell, book.asks, msg)
      && SetOf(after.platforms) == SetOf(book.platforms) + {msg.platform}
  {
    SetOfAppend(book.platforms, [msg.platform]);
  }

  lemma ContributorsGrow(history: seq<Message>, msg: Message)
    ensures Contributors(history + [msg]) == Contributors(history) + {msg.platform}
  {
    assert msg in history + [msg];
    assert forall m :: m in history + [msg] <==> m in history || m == msg;
  }

  lemma {:induction false} RunBookFields(parse: Parser, assetId: string, marketId: string, history: seq<Message>)
    ensures var book := RunBook(parse, EmptyBook(assetId, marketId), history);
      && book.bids == RunSide(parse, Buy, history)
      && book.asks == RunSide(parse, Sell, history)
      && SetOf(book.platforms) == Contributors(history)
      && book.updateCount == |history|
      && book.assetId == assetId && book.marketId == marketId
  {
    if history != [] {
      var older, msg := history[..|history| - 1], history[|history| - 1];
      assert Contributors(history) == Contributors(older) + {msg.platform} by {
        assert history == older + [msg];
        ContributorsGrow(older, msg);
      }
      RunBookFields(parse, assetId, marketId, older);
      ApplyFields(parse, RunBook(parse, EmptyBook(assetId, marketId), older), msg);
    }
  }

  /** The sides of a book run are the side runs; consistency and the counters follow. */
  lemma RunBookParts(parse: Parser, assetId: string, marketId: string, history: seq<Message>, side: Side)
    ensures var book := RunBook(parse, EmptyBook(assetId, marketId), history);
      && Consistent(book)
      && book.Levels(side) == RunSide(parse, side, history)
      && book.Best(side) == Ranking.BestPrice(side, RunSide(parse, side, history))
  {
    RunBookConsistent(parse, assetId, marketId, history);
    RunBookFields(parse, assetId, marketId, history);
  }

  /** Somebody has a nonzero size at this price, by the history alone. */
  ghost predicate HasSizeAt(parse: Parser, history: seq<Message>, side: Side, price: Decimal) {
    exists p :: LastWrite(parse, history, side, price, p).Some?
  }

  lemma HasSizeIsPopulated(parse: Parser, history: seq<Message>, side: Side, price: Decimal)
    ensures HasSizeAt(parse, history, side, price) <==> price in Ranking.Populates(RunSide(parse, side, history))
  {
    var levels := RunSide(parse, side, history);
    if HasSizeAt(parse, history, side, price) {
      var p :| LastWrite(parse, history, side, price, p).Some?;
      RunRefinesLastWrite(parse, history, side, price, p);
    }
    if price in levels && levels[price] != map[] {
      var p := Member(levels[price].Keys);
      RunRefinesLastWrite(parse, history, side, price, p);
    }
  }

  lemma BestOfHistory(parse: Parser, assetId: string, marketId: string, history: seq<Message>, side: Side)
    ensures match RunBook(parse, EmptyBook(assetId, marketId), history).Best(side)
      case Some(best) =>
        && HasSizeAt(parse, history, side, best)
        && forall price :: HasSizeAt(parse, history, side, price) && price != best ==> Ranking.Better(side, best, price)
      case None => forall price :: !HasSizeAt(parse, history, side, price)
  {
    RunBookParts(parse, assetId, marketId, history, side);
    Ranking.BestPriceIsExtreme(side, RunSide(parse, side, history));
    forall price
      ensures HasSizeAt(parse, history, side, price) <==> price in Ranking.Populates(RunSide(parse, side, history))
    {
      HasSizeIsPopulated(parse, history, side, price);
    }
  }

  /**
   * After any run the system best bid is the highest price somebody bids at with a nonzero size, and the system
   * best ask is the lowest price somebody asks with one; they are absent exactly when there is none.
   */
  lemma SystemBestIsExtreme(parse: Parser, assetId: string, marketId: string, history: seq<Message>)
    ensures match RunBook(parse, EmptyBook(assetId, marketId), history).bestBid
      case Some(best) =>
        && HasSizeAt(parse, history, Buy, best)
        && forall price :: HasSizeAt(parse, history, Buy, price) ==> price <= best
      case None => forall price :: !HasSizeAt(parse, history, Buy, price)
    ensures match RunBook(parse, EmptyBook(assetId, marketId), history).bestAsk
      case Some(best) =>
        && HasSizeAt(parse, history, Sell, best)
        && forall price :: HasSizeAt(parse, history, Sell, price) ==> best <= price
      case None => forall price :: !HasSizeAt(parse, history, Sell, price)
  {
    BestOfHistory(parse, assetId, marketId, history, Buy);
    BestOfHistory(parse, assetId, marketId, history, Sell);
  }

  /** Bids, asks and both best prices depend on the per-platform streams only. */
  lemma BookIsInterleavingIndependent(
    parse: Parser, assetId: string, marketId: string, h1: seq<Message>, h2: seq<Message>, side: Side)
    requires SameStreams(h1, h2)
    ensures var empty := EmptyBook(assetId, marketId);
      && RunBook(parse, empty, h1).Levels(side) == RunBook(parse, empty, h2).Levels(side)
      && RunBook(parse, empty, h1).Best(side) == RunBook(parse, empty, h2).Best(side)
  {
    RunBookParts(parse, assetId, marketId, h1, side);
    RunBookParts(parse, assetId, marketId, h2, side);
    InterleavingIndependence(parse, side, h1, h2);
  }

  /** Messages older than a platform's newest snapshot could have been lost without a trace. */
  lemma BookForgets(
    parse: Parser, assetId: string, marketId: string, history: seq<Message>, platform: string, side: Side)
    ensures var empty := EmptyBook(assetId, marketId);
      && RunBook(parse, empty, Forget(history, platform)).Levels(side) == RunBook(parse, empty, history).Levels(side)
      && RunBook(parse, empty, Forget(history, platform)).Best(side) == RunBook(parse, empty, history).Best(side)
  {
    RunBookParts(parse, assetId, marketId, history, side);
    RunBookParts(parse, assetId, marketId, Forget(history, platform), side);
    SnapshotErasesHistory(parse, side, history, platform);
  }
}
