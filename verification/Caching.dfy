// The executor's best-price cache, fed by change messages: what it keeps, when that is still on offer, and
// when it is the best.

module Caching {
  import opened Prelude
  import opened Schema
  import opened Ranking
  import Store

  // ---------------------------------------------------------------------------
  // Change events as the executor reads them
  // ---------------------------------------------------------------------------

  datatype PlatformSize = PlatformSize(platform: string, size: string)

  datatype PriceChange = PriceChange(side: string, price: string, platforms: seq<PlatformSize>)

  datatype OrderbookChange = OrderbookChange(marketId: string, assetId: string, changes: seq<PriceChange>)

  datatype Quote = Quote(side: Side, platform: string, price: Decimal, size: Decimal)

  /** An entry under a side that is neither `buy` nor `sell` is parsed and then ignored. */
  function QuoteOf(side: string, platform: string, price: Decimal, size: Decimal): seq<Quote> {
    if side == "buy" then [Quote(Buy, platform, price, size)]
    else if side == "sell" then [Quote(Sell, platform, price, size)]
    else []
  }

  /** Reading stops at the first size that does not parse. */
  function QuotesAt(parse: Parser, side: string, price: Decimal, platforms: seq<PlatformSize>): seq<Quote> {
    if platforms == [] then []
    else
      match parse(platforms[0].size)
      case None => []
      case Some(size) =>
        QuoteOf(side, platforms[0].platform, price, size) + QuotesAt(parse, side, price, platforms[1..])
  }

  predicate SizesParse(parse: Parser, platforms: seq<PlatformSize>) {
    forall i :: 0 <= i < |platforms| ==> parse(platforms[i].size).Some?
  }

  predicate ChangeParses(parse: Parser, change: PriceChange) {
    parse(change.price).Some? && SizesParse(parse, change.platforms)
  }

  predicate AllParse(parse: Parser, changes: seq<PriceChange>) {
    forall i :: 0 <= i < |changes| ==> ChangeParses(parse, changes[i])
  }

  /** The quotes a message yields before its first parse failure, if it has one. */
  function Quotes(parse: Parser, changes: seq<PriceChange>): seq<Quote> {
    if changes == [] then []
    else
      match parse(changes[0].price)
      case None => []
      case Some(price) =>
        QuotesAt(parse, changes[0].side, price, changes[0].platforms)
          + if SizesParse(parse, changes[0].platforms) then Quotes(parse, changes[1..]) else []
  }

  /** One entry of a message: read as a bid or an ask of its platform, if both numbers can be read. */
  lemma QuotesOfOne(parse: Parser, side: string, price: string, platform: string, size: string)
    ensures Quotes(parse, [PriceChange(side, price, [PlatformSize(platform, size)])])
      == if parse(price).None? || parse(size).None? then []
         else if side == "buy" then [Quote(Buy, platform, parse(price).value, parse(size).value)]
         else if side == "sell" then [Quote(Sell, platform, parse(price).value, parse(size).value)]
         else []
  {
    var platforms := [PlatformSize(platform, size)];
    assert platforms[1..] == [] && [PriceChange(side, price, platforms)][1..] == [];
    if parse(price).Some? && parse(size).Some? {
      var quote := QuoteOf(side, platform, parse(price).value, parse(size).value);
      assert QuotesAt(parse, side, parse(price).value, platforms) == quote + [] == quote;
    }
  }

  lemma SizesParseFirst(parse: Parser, platforms: seq<PlatformSize>)
    requires platforms != []
    ensures SizesParse(parse, platforms) <==> parse(platforms[0].size).Some? && SizesParse(parse, platforms[1..])
  {
    if SizesParse(parse, platforms[1..]) {
      assert forall i :: 1 <= i < |platforms| ==> platforms[i] == platforms[1..][i - 1];
    }
  }

  lemma AllParseFirst(parse: Parser, changes: seq<PriceChange>)
    requires changes != []
    ensures AllParse(parse, changes) <==> ChangeParses(parse, changes[0]) && AllParse(parse, changes[1..])
  {
    if AllParse(parse, changes[1..]) {
      assert forall i :: 1 <= i < |changes| ==> changes[i] == changes[1..][i - 1];
    }
  }

  lemma QuotesFirst(parse: Parser, changes: seq<PriceChange>)
    requires changes != []
    ensures ChangeParses(parse, changes[0]) ==>
      Quotes(parse, changes)
        == QuotesAt(parse, changes[0].side, parse(changes[0].price).value, changes[0].platforms)
           + Quotes(parse, changes[1..])
  {
  }

  lemma ThreeParts(a: seq<Quote>, b: seq<Quote>, c: seq<Quote>)
    ensures a + (b + c) == a + b + c
  {
  }

  /** Platforms are read one after the other, up to the first size that cannot be read. */
  lemma {:induction false} QuotesAtInParts(
    parse: Parser, side: string, price: Decimal, first: seq<PlatformSize>, second: seq<PlatformSize>)
    ensures QuotesAt(parse, side, price, first + second)
      == QuotesAt(parse, side, price, first)
         + if SizesParse(parse, first) then QuotesAt(parse, side, price, second) else []
  {
    if first == [] {
      assert first + second == second;
    } else {
      assert (first + second)[1..] == first[1..] + second;
      QuotesAtInParts(parse, side, price, first[1..], second);
      SizesParseFirst(parse, first);
    }
  }

  /** Changes are read one after the other, up to the first that cannot be read. */
  lemma {:induction false} QuotesInParts(parse: Parser, first: seq<PriceChange>, second: seq<PriceChange>)
    ensures Quotes(parse, first + second)
      == Quotes(parse, first) + if AllParse(parse, first) then Quotes(parse, second) else []
  {
    if first == [] {
      assert first + second == second;
    } else {
      assert (first + second)[1..] == first[1..] + second;
      QuotesInParts(parse, first[1..], second);
      AllParseFirst(parse, first);
      QuotesFirst(parse, first);
      QuotesFirst(parse, first + second);
      if ChangeParses(parse, first[0]) {
        var at := QuotesAt(parse, first[0].side, parse(first[0].price).value, first[0].platforms);
        ThreeParts(at, Quotes(parse, first[1..]), if AllParse(parse, first) then Quotes(parse, second) else []);
      }
    }
  }

  // ---------------------------------------------------------------------------
  // The cache
  // ---------------------------------------------------------------------------

  /** Platform -> best price, for one side. */
  type BestPrices = map<string, Decimal>

  datatype CachedBbo = CachedBbo(bids: BestPrices, asks: BestPrices) {
    function Best(side: Side): BestPrices {
      if side.Buy? then bids else asks
    }
  }

  const NO_PRICES := CachedBbo(map[], map[])

  /** A zero size clears the cached price if it is that price; any other size may improve it. */
  function Improve(best: BestPrices, side: Side, platform: string, price: Decimal, size: Decimal): BestPrices {
    if size == 0.0 then
      if platform in best && best[platform] == price then best - {platform} else best
    else if platform in best && !Better(side, price, best[platform]) then best
    else best[platform := price]
  }

  function ApplyQuote(cached: CachedBbo, q: Quote): CachedBbo {
    if q.side.Buy? then cached.(bids := Improve(cached.bids, Buy, q.platform, q.price, q.size))
    else cached.(asks := Improve(cached.asks, Sell, q.platform, q.price, q.size))
  }

  function ApplyQuotes(cached: CachedBbo, quotes: seq<Quote>): CachedBbo
    decreases |quotes|
  {
    if quotes == [] then cached else ApplyQuotes(ApplyQuote(cached, quotes[0]), quotes[1..])
  }

  lemma {:induction false} ApplyQuotesInParts(cached: CachedBbo, first: seq<Quote>, second: seq<Quote>)
    ensures ApplyQuotes(cached, first + second) == ApplyQuotes(ApplyQuotes(cached, first), second)
    decreases |first|
  {
    if first == [] {
      assert first + second == second;
    } else {
      assert (first + second)[1..] == first[1..] + second;
      ApplyQuotesInParts(ApplyQuote(cached, first[0]), first[1..], second);
    }
  }

  lemma UpdateStep(cached: CachedBbo, q: Quote)
    ensures ApplyQuotes(cached, [q]) == ApplyQuote(cached, q)
  {
    assert [q][1..] == [];
  }

  function CacheAfter(quotes: seq<Quote>): CachedBbo {
    if quotes == [] then NO_PRICES
    else ApplyQuote(CacheAfter(quotes[..|quotes| - 1]), quotes[|quotes| - 1])
  }

  /** Folding from either end gives the same cache. */
  lemma {:induction false} CacheAfterIsApply(quotes: seq<Quote>)
    ensures CacheAfter(quotes) == ApplyQuotes(NO_PRICES, quotes)
  {
    if quotes != [] {
      var front, last := quotes[..|quotes| - 1], quotes[|quotes| - 1];
      CacheAfterIsApply(front);
      ApplyQuotesInParts(NO_PRICES, front, [last]);
      UpdateStep(CacheAfter(front), last);
      assert quotes == front + [last];
    }
  }

  // ---------------------------------------------------------------------------
  // Runs of change messages
  // ---------------------------------------------------------------------------

  type CacheValue = map<Store.Key, CachedBbo>

  function KeyOf(change: OrderbookChange): Store.Key {
    Store.Key(change.marketId, change.assetId)
  }

  function EntryAt(cache: CacheValue, key: Store.Key): CachedBbo {
    if key in cache then cache[key] else NO_PRICES
  }

  /** What was read before a parse failure stays applied. */
  function CacheStep(parse: Parser, cache: CacheValue, change: OrderbookChange): CacheValue {
    cache[KeyOf(change) := ApplyQuotes(EntryAt(cache, KeyOf(change)), Quotes(parse, change.changes))]
  }

  function RunCache(parse: Parser, received: seq<OrderbookChange>): CacheValue {
    if received == [] then map[]
    else CacheStep(parse, RunCache(parse, received[..|received| - 1]), received[|received| - 1])
  }

  /** Everything read for one key, message after message. */
  function QuotesFor(parse: Parser, received: seq<OrderbookChange>, key: Store.Key): seq<Quote> {
    if received == [] then []
    else
      var change := received[|received| - 1];
      QuotesFor(parse, received[..|received| - 1], key)
        + if KeyOf(change) == key then Quotes(parse, change.changes) else []
  }

  /** What is read for a key comes from the messages with its market and its asset. */
  lemma QuotesForStep(parse: Parser, received: seq<OrderbookChange>, change: OrderbookChange, key: Store.Key)
    ensures QuotesFor(parse, received + [change], key)
      == QuotesFor(parse, received, key)
         + if change.marketId == key.marketId && change.assetId == key.assetId then Quotes(parse, change.changes)
           else []
  {
    assert (received + [change])[..|received|] == received;
  }

  lemma RunCacheStep(parse: Parser, received: seq<OrderbookChange>, change: OrderbookChange)
    ensures RunCache(parse, received + [change]) == CacheStep(parse, RunCache(parse, received), change)
  {
    assert (received + [change])[..|received|] == received;
  }

  /** After any run of messages, for any keys, an entry is the cache of what was read for its key. */
  lemma {:induction false} EntryIsCacheAfter(parse: Parser, received: seq<OrderbookChange>, key: Store.Key)
    ensures EntryAt(RunCache(parse, received), key) == CacheAfter(QuotesFor(parse, received, key))
  {
    if received != [] {
      var front, last := received[..|received| - 1], received[|received| - 1];
      var before := QuotesFor(parse, front, key);
      EntryIsCacheAfter(parse, front, key);
      if KeyOf(last) == key {
        CacheAfterIsApply(before);
        CacheAfterIsApply(before + Quotes(parse, last.changes));
        ApplyQuotesInParts(NO_PRICES, before, Quotes(parse, last.changes));
      } else {
        assert before + [] == before;
      }
    }
  }

  /** Reading one more platform entry applies its quote, if it has one. */
  lemma ReadOne(parse: Parser, entry: CachedBbo, side: string, price: Decimal, platforms: seq<PlatformSize>, i: nat)
    requires i < |platforms| && parse(platforms[i].size).Some?
    ensures ApplyQuotes(entry, QuotesAt(parse, side, price, platforms[i..]))
         == ApplyQuotes(
              ApplyQuotes(entry, QuoteOf(side, platforms[i].platform, price, parse(platforms[i].size).value)),
              QuotesAt(parse, side, price, platforms[i + 1..]))
  {
    var quote := QuoteOf(side, platforms[i].platform, price, parse(platforms[i].size).value);
    assert platforms[i..][1..] == platforms[i + 1..];
    ApplyQuotesInParts(entry, quote, QuotesAt(parse, side, price, platforms[i + 1..]));
  }

  // ---------------------------------------------------------------------------
  // The in-place cache
  // ---------------------------------------------------------------------------

  datatype CacheError = DecimalParse

  class BboCache {
    const parse: Parser
    var cache: CacheValue
    ghost var received: seq<OrderbookChange>

    ghost predicate Valid()
      reads this
    {
      cache == RunCache(parse, received)
    }

    constructor (parse: Parser)
      ensures Valid() && this.parse == parse && received == []
    {
      this.parse, cache, received := parse, map[], [];
    }

    function Entry(key: Store.Key): CachedBbo
      reads this
    {
      EntryAt(cache, key)
    }

    /** Applies one message, as far as it can be read, to the entry of its key. */
    method HandleChange(change: OrderbookChange) returns (result: Result<(), CacheError>)
      requires Valid()
      modifies this
      ensures Valid() && received == old(received) + [change]
      ensures cache == CacheStep(parse, old(cache), change)
      ensures result.Ok? <==> forall i :: 0 <= i < |change.changes| ==> ChangeParses(parse, change.changes[i])
    {
      RunCacheStep(parse, received, change);
      received := received + [change];
      var key := KeyOf(change);
      var entry, ok := ReadChanges(Entry(key), change.changes);
      cache := cache[key := entry];
      return if ok then Ok(()) else Err(DecimalParse);
    }

    method ReadChanges(start: CachedBbo, changes: seq<PriceChange>) returns (entry: CachedBbo, ok: bool)
      ensures entry == ApplyQuotes(start, Quotes(parse, changes))
      ensures ok <==> forall i :: 0 <= i < |changes| ==> ChangeParses(parse, changes[i])
    {
      entry := start;
      for i := 0 to |changes|
        invariant ApplyQuotes(entry, Quotes(parse, changes[i..])) == ApplyQuotes(start, Quotes(parse, changes))
        invariant forall j :: 0 <= j < i ==> ChangeParses(parse, changes[j])
      {
        assert changes[i..][1..] == changes[i + 1..];
        var price := parse(changes[i].price);
        if price.None? {
          return entry, false;
        }
        ghost var rest := if SizesParse(parse, changes[i].platforms) then Quotes(parse, changes[i + 1..]) else [];
        ApplyQuotesInParts(entry, QuotesAt(parse, changes[i].side, price.value, changes[i].platforms), rest);
        entry, ok := ReadPlatforms(entry, changes[i].side, price.value, changes[i].platforms);
        if !ok {
          return entry, false;
        }
      }
      return entry, true;
    }

    method ReadPlatforms(start: CachedBbo, side: string, price: Decimal, platforms: seq<PlatformSize>)
      returns (entry: CachedBbo, ok: bool)
      ensures entry == ApplyQuotes(start, QuotesAt(parse, side, price, platforms))
      ensures ok <==> SizesParse(parse, platforms)
    {
      entry := start;
      for i := 0 to |platforms|
        invariant ApplyQuotes(entry, QuotesAt(parse, side, price, platforms[i..]))
               == ApplyQuotes(start, QuotesAt(parse, side, price, platforms))
        invariant forall j :: 0 <= j < i ==> parse(platforms[j].size).Some?
      {
        var size := parse(platforms[i].size);
        if size.None? {
          return entry, false;
        }
        ReadOne(parse, entry, side, price, platforms, i);
        if side == "buy" {
          UpdateStep(entry, Quote(Buy, platforms[i].platform, price, size.value));
          entry := entry.(bids := Improve(entry.bids, Buy, platforms[i].platform, price, size.value));
        } else if side == "sell" {
          UpdateStep(entry, Quote(Sell, platforms[i].platform, price, size.value));
          entry := entry.(asks := Improve(entry.asks, Sell, platforms[i].platform, price, size.value));
        }
      }
      return entry, true;
    }
  }

  // ---------------------------------------------------------------------------
  // Soundness
  // ---------------------------------------------------------------------------

  /** The newest quote of a platform at a price says it has a size there. */
  predicate Live(quotes: seq<Quote>, side: Side, platform: string, price: Decimal) {
    if quotes == [] then false
    else
      var q := quotes[|quotes| - 1];
      if q.side == side && q.platform == platform && q.price == price then q.size != 0.0
      else Live(quotes[..|quotes| - 1], side, platform, price)
  }

  /** With explicit removals in the feed, a cached price is always one its platform currently quotes. */
  lemma {:induction false} CachedIsLive(quotes: seq<Quote>, side: Side, platform: string)
    requires platform in CacheAfter(quotes).Best(side)
    ensures Live(quotes, side, platform, CacheAfter(quotes).Best(side)[platform])
  {
    var front := quotes[..|quotes| - 1];
    if platform in CacheAfter(front).Best(side) {
      CachedIsLive(front, side, platform);
    }
  }

  /** The cached prices of a platform are the best of what it quotes. */
  ghost predicate Exact(best: BestPrices, quotes: seq<Quote>, side: Side, platform: string) {
    if platform in best
    then
      && Live(quotes, side, platform, best[platform])
      && forall price :: Live(quotes, side, platform, price) && price != best[platform] ==>
           Better(side, best[platform], price)
    else forall price :: !Live(quotes, side, platform, price)
  }

  /** The removal of the cached price while the platform still quotes another one. */
  ghost predicate LosesRunnerUp(best: BestPrices, quotes: seq<Quote>, q: Quote) {
    && q.size == 0.0
    && q.platform in best && best[q.platform] == q.price
    && exists price :: price != q.price && Live(quotes, q.side, q.platform, price)
  }

  lemma LiveStep(quotes: seq<Quote>, q: Quote, side: Side, platform: string, price: Decimal)
    ensures Live(quotes + [q], side, platform, price)
         == if q.side == side && q.platform == platform && q.price == price then q.size != 0.0
            else Live(quotes, side, platform, price)
  {
    assert (quotes + [q])[..|quotes|] == quotes;
  }

  /**
   * The cache does not remember runners-up: an exact cache stays exact over a quote exactly when the quote
   * does not remove the cached price while another one is still live.
   */
  lemma ExactnessAfterQuote(best: BestPrices, quotes: seq<Quote>, q: Quote)
    requires Exact(best, quotes, q.side, q.platform)
    ensures Exact(Improve(best, q.side, q.platform, q.price, q.size), quotes + [q], q.side, q.platform)
      <==> !LosesRunnerUp(best, quotes, q)
  {
    var after := Improve(best, q.side, q.platform, q.price, q.size);
    forall price
      ensures Live(quotes + [q], q.side, q.platform, price)
           == if q.price == price then q.size != 0.0 else Live(quotes, q.side, q.platform, price)
    {
      LiveStep(quotes, q, q.side, q.platform, price);
    }
    if LosesRunnerUp(best, quotes, q) {
      var price :| price != q.price && Live(quotes, q.side, q.platform, price);
      assert Live(quotes + [q], q.side, q.platform, price);
    }
  }

  lemma CacheAfterStep(quotes: seq<Quote>, q: Quote)
    ensures CacheAfter(quotes + [q]) == ApplyQuote(CacheAfter(quotes), q)
  {
    assert (quotes + [q])[..|quotes|] == quotes;
  }

  const BID_FIVE := Quote(Buy, "p", 5.0, 1.0)

  const BID_FOUR := Quote(Buy, "p", 4.0, 1.0)

  const FIVE_WITHDRAWN := Quote(Buy, "p", 5.0, 0.0)

  lemma TwoBids(price: Decimal)
    ensures CacheAfter([BID_FIVE] + [BID_FOUR]).bids == map["p" := 5.0]
    ensures Live([BID_FIVE] + [BID_FOUR], Buy, "p", price) <==> price == 5.0 || price == 4.0
  {
    CacheAfterStep([], BID_FIVE);
    CacheAfterStep([BID_FIVE], BID_FOUR);
    LiveStep([], BID_FIVE, Buy, "p", price);
    LiveStep([BID_FIVE], BID_FOUR, Buy, "p", price);
    assert [] + [BID_FIVE] == [BID_FIVE];
  }

  /** After a bid of 5, a bid of 4 and the withdrawal of the first, the cache does not know the bid of 4. */
  lemma RunnerUpIsForgotten()
    ensures var two := [BID_FIVE] + [BID_FOUR];
      && Exact(CacheAfter(two).bids, two, Buy, "p")
      && LosesRunnerUp(CacheAfter(two).bids, two, FIVE_WITHDRAWN)
      && CacheAfter(two + [FIVE_WITHDRAWN]).bids == map[]
      && Live(two + [FIVE_WITHDRAWN], Buy, "p", 4.0)
  {
    var two := [BID_FIVE] + [BID_FOUR];
    forall price
      ensures Live(two, Buy, "p", price) <==> price == 5.0 || price == 4.0
    {
      TwoBids(price);
    }
    TwoBids(4.0);
    CacheAfterStep(two, FIVE_WITHDRAWN);
    LiveStep(two, FIVE_WITHDRAWN, Buy, "p", 4.0);
    assert Live(two, Buy, "p", 4.0);
  }

  /** A quote of one platform or side leaves the others' exactness alone. */
  lemma ExactnessIsLocal(best: BestPrices, quotes: seq<Quote>, q: Quote, side: Side, platform: string)
    requires q.side != side || q.platform != platform
    requires Exact(best, quotes, side, platform)
    ensures Exact(if q.side == side then Improve(best, side, q.platform, q.price, q.size) else best,
      quotes + [q], side, platform)
  {
    forall price
      ensures Live(quotes + [q], side, platform, price) == Live(quotes, side, platform, price)
    {
      LiveStep(quotes, q, side, platform, price);
    }
  }

  // ---------------------------------------------------------------------------
  // Feeds without explicit removals
  // ---------------------------------------------------------------------------

  predicate NoRemovals(quotes: seq<Quote>) {
    forall i :: 0 <= i < |quotes| ==> quotes[i].size != 0.0
  }

  predicate IsAbout(q: Quote, side: Side, platform: string, price: Decimal) {
    q.side == side && q.platform == platform && q.price == price
  }

  /** Some quote of the platform names this price, whatever its size. */
  predicate Mentioned(quotes: seq<Quote>, side: Side, platform: string, price: Decimal) {
    exists i :: 0 <= i < |quotes| && IsAbout(quotes[i], side, platform, price)
  }

  lemma MentionedInParts(first: seq<Quote>, second: seq<Quote>, side: Side, platform: string, price: Decimal)
    ensures Mentioned(first + second, side, platform, price)
      <==> Mentioned(first, side, platform, price) || Mentioned(second, side, platform, price)
  {
    var both := first + second;
    if i :| 0 <= i < |first| && IsAbout(first[i], side, platform, price) {
      assert both[i] == first[i];
    }
    if i :| 0 <= i < |second| && IsAbout(second[i], side, platform, price) {
      assert both[|first| + i] == second[i];
    }
  }

  /** Cached before, or mentioned since. */
  predicate Known(cached: CachedBbo, quotes: seq<Quote>, side: Side, platform: string, price: Decimal) {
    || (platform in cached.Best(side) && cached.Best(side)[platform] == price)
    || Mentioned(quotes, side, platform, price)
  }

  lemma KnownStep(cached: CachedBbo, quotes: seq<Quote>, side: Side, platform: string, price: Decimal)
    requires quotes != [] && quotes[0].size != 0.0
    ensures Known(cached, quotes, side, platform, price)
      <==> Known(cached, quotes[..1], side, platform, price) || Mentioned(quotes[1..], side, platform, price)
    ensures Known(ApplyQuote(cached, quotes[0]), [], side, platform, price) ==>
      Known(cached, quotes[..1], side, platform, price)
    ensures Known(cached, quotes[..1], side, platform, price) ==>
      var after := ApplyQuote(cached, quotes[0]).Best(side);
      platform in after && !Better(side, price, after[platform])
  {
    assert quotes == quotes[..1] + quotes[1..];
    MentionedInParts(quotes[..1], quotes[1..], side, platform, price);
    assert Mentioned(quotes[..1], side, platform, price) <==> IsAbout(quotes[0], side, platform, price) by {
      assert quotes[..1][0] == quotes[0];
    }
  }

  /** Without explicit removals the cache keeps the best of what it had and what is mentioned. */
  lemma {:induction false} CacheIsBestKnown(
    cached: CachedBbo, quotes: seq<Quote>, side: Side, platform: string, price: Decimal)
    requires NoRemovals(quotes)
    ensures var after := ApplyQuotes(cached, quotes).Best(side);
      && (platform in after ==> Known(cached, quotes, side, platform, after[platform]))
      && (Known(cached, quotes, side, platform, price) ==> platform in after && !Better(side, price, after[platform]))
    decreases |quotes|
  {
    if quotes != [] {
      var next, after := ApplyQuote(cached, quotes[0]), ApplyQuotes(cached, quotes).Best(side);
      CacheIsBestKnown(next, quotes[1..], side, platform, price);
      KnownStep(cached, quotes, side, platform, price);
      if platform in after {
        KnownStep(cached, quotes, side, platform, after[platform]);
      }
      if platform in next.Best(side) {
        CacheIsBestKnown(next, quotes[1..], side, platform, next.Best(side)[platform]);
      }
    }
  }
}
