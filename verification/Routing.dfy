// The smart router: picks a platform from the cached best prices and forwards the order.

module Routing {
  import opened Prelude
  import opened Schema
  import opened Ranking
  import opened Caching
  import Store

  datatype RouteError = UnknownPlatform(platform: string) | NoAvailablePlatform | ExecutorError(reason: string)

  datatype OrderRequest =
    OrderRequest(marketId: string, tokenId: string, side: Side, platform: Option<string>, details: string)

  datatype OrderResponse = OrderResponse(orderId: string, routedPrice: Option<Decimal>)

  /** No cached platform has a better price. */
  predicate IsExtreme(best: BestPrices, side: Side, platform: string) {
    platform in best && forall other | other in best :: !Better(side, best[other], best[platform])
  }

  /** What the platform search may answer, whichever of several equally good platforms the map yields. */
  ghost predicate MayFind(best: BestPrices, executors: set<string>, side: Side, found: Option<(string, Decimal)>) {
    match found
    case Some((platform, price)) =>
      IsExtreme(best, side, platform) && price == best[platform] && platform in executors
    case None => best == map[] || exists platform :: IsExtreme(best, side, platform) && platform !in executors
  }

  function WithExecutor(best: BestPrices, executors: set<string>): BestPrices {
    map platform | platform in best && platform in executors :: best[platform]
  }

  /** The documented behaviour: only registered platforms are considered. */
  ghost predicate BestRegistered(
    best: BestPrices, executors: set<string>, side: Side, found: Option<(string, Decimal)>)
  {
    var registered := WithExecutor(best, executors);
    match found
    case Some((platform, price)) => IsExtreme(registered, side, platform) && price == best[platform]
    case None => registered == map[]
  }

  lemma {:induction false} ExtremeExists(best: BestPrices, side: Side)
    requires best != map[]
    ensures exists platform :: IsExtreme(best, side, platform)
    decreases |best|
  {
    var p :| p in best;
    var rest := best - {p};
    assert forall k :: k in best && k != p ==> k in rest && rest[k] == best[k];
    if rest == map[] {
      assert IsExtreme(best, side, p);
    } else {
      ExtremeExists(rest, side);
      var q :| IsExtreme(rest, side, q);
      assert IsExtreme(best, side, if Better(side, best[p], best[q]) then p else q);
    }
  }

  /**
   * The search picks the extreme first and checks registration afterwards. It answers as documented exactly
   * when every platform with the extreme price is registered, or no cached platform is.
   */
  lemma SearchIsAsDocumentedIff(best: BestPrices, executors: set<string>, side: Side)
    ensures (forall found :: MayFind(best, executors, side, found) ==> BestRegistered(best, executors, side, found))
      <==> (forall platform :: IsExtreme(best, side, platform) ==> platform in executors)
           || best.Keys !! executors
  {
    var registered := WithExecutor(best, executors);
    if p :| IsExtreme(best, side, p) && p !in executors && !(best.Keys !! executors) {
      assert MayFind(best, executors, side, None);
      var q :| q in best && q in executors;
      assert q in registered;
      assert !BestRegistered(best, executors, side, None);
    } else if best.Keys !! executors {
      assert registered == map[];
    } else {
      ExtremeExists(best, side);
    }
  }

  /** Platform `b` bids 1 and has an executor, platform `a` bids 2 and has none: the search gives up. */
  lemma SearchIgnoresRegisteredRunnerUp(found: Option<(string, Decimal)>)
    ensures var best := map["a" := 2.0, "b" := 1.0];
      && (MayFind(best, {"b"}, Buy, found) <==> found == None)
      && (BestRegistered(best, {"b"}, Buy, found) <==> found == Some(("b", 1.0)))
  {
    var best := map["a" := 2.0, "b" := 1.0];
    assert "a" in best && best["a"] == 2.0 && best["b"] == 1.0;
    assert IsExtreme(best, Buy, "a") && !IsExtreme(best, Buy, "b");
    var registered := WithExecutor(best, {"b"});
    assert forall p :: p in registered <==> p == "b";
    assert registered["b"] == 1.0 && IsExtreme(registered, Buy, "b");
  }

  // ---------------------------------------------------------------------------
  // What a routed price is worth
  // ---------------------------------------------------------------------------

  /** Nothing anybody quotes is better than this price. */
  ghost predicate BoundsLive(quotes: seq<Quote>, side: Side, bound: Decimal) {
    forall platform, price :: Live(quotes, side, platform, price) ==> !Better(side, price, bound)
  }

  /**
   * The platform can take the order and quotes this price now; the price is not better than what there is,
   * and it is the best there is while the cache is exact.
   */
  ghost predicate Tradable(
    quotes: seq<Quote>, executors: set<string>, side: Side, platform: string, price: Decimal)
  {
    && platform in executors
    && Live(quotes, side, platform, price)
    && (forall bound :: BoundsLive(quotes, side, bound) ==> !Better(side, price, bound))
    && ((forall p :: Exact(CacheAfter(quotes).Best(side), quotes, side, p)) ==> BoundsLive(quotes, side, price))
  }

  lemma ExactBoundsLive(quotes: seq<Quote>, side: Side, platform: string)
    requires IsExtreme(CacheAfter(quotes).Best(side), side, platform)
    requires forall p :: Exact(CacheAfter(quotes).Best(side), quotes, side, p)
    ensures BoundsLive(quotes, side, CacheAfter(quotes).Best(side)[platform])
  {
    var best := CacheAfter(quotes).Best(side);
    forall p, price | Live(quotes, side, p, price)
      ensures !Better(side, price, best[platform])
    {
      assert Exact(best, quotes, side, p);
    }
  }

  /** Whatever the search finds after any run of change messages, explicit removals and all, is tradable. */
  lemma RoutedPriceIsLive(
    parse: Parser, received: seq<OrderbookChange>, key: Store.Key, executors: set<string>, side: Side,
    found: Option<(string, Decimal)>)
    requires MayFind(EntryAt(RunCache(parse, received), key).Best(side), executors, side, found) && found.Some?
    ensures Tradable(QuotesFor(parse, received, key), executors, side, found.value.0, found.value.1)
  {
    var quotes := QuotesFor(parse, received, key);
    EntryIsCacheAfter(parse, received, key);
    CachedIsLive(quotes, side, found.value.0);
    if forall p :: Exact(CacheAfter(quotes).Best(side), quotes, side, p) {
      ExactBoundsLive(quotes, side, found.value.0);
    }
  }

  // ---------------------------------------------------------------------------
  // The same with the sides written out: buys take asks, sells take bids
  // ---------------------------------------------------------------------------

  ghost predicate IsLowestAsk(cached: CachedBbo, platform: string) {
    platform in cached.asks && forall other :: other in cached.asks ==> cached.asks[platform] <= cached.asks[other]
  }

  ghost predicate IsHighestBid(cached: CachedBbo, platform: string) {
    platform in cached.bids && forall other :: other in cached.bids ==> cached.bids[other] <= cached.bids[platform]
  }

  /**
   * What is found for a buy order: the lowest cached ask, of a platform that has an executor and asks this price
   * now, and while the cache is exact the lowest ask anybody has; or nothing, when no ask is cached or some platform
   * with the lowest one has no executor.
   */
  ghost predicate AnswersBuy(
    cached: CachedBbo, quotes: seq<Quote>, executors: set<string>, found: Option<(string, Decimal)>)
  {
    match found
    case Some((platform, price)) =>
      && platform in executors && IsLowestAsk(cached, platform) && price == cached.asks[platform]
      && Live(quotes, Sell, platform, price)
      && ((forall p :: Exact(cached.asks, quotes, Sell, p)) ==>
           forall p, ask :: Live(quotes, Sell, p, ask) ==> price <= ask)
    case None => cached.asks == map[] || exists platform :: IsLowestAsk(cached, platform) && platform !in executors
  }

  /** The same for a sell order and the highest bid. */
  ghost predicate AnswersSell(
    cached: CachedBbo, quotes: seq<Quote>, executors: set<string>, found: Option<(string, Decimal)>)
  {
    match found
    case Some((platform, price)) =>
      && platform in executors && IsHighestBid(cached, platform) && price == cached.bids[platform]
      && Live(quotes, Buy, platform, price)
      && ((forall p :: Exact(cached.bids, quotes, Buy, p)) ==>
           forall p, bid :: Live(quotes, Buy, p, bid) ==> bid <= price)
    case None => cached.bids == map[] || exists platform :: IsHighestBid(cached, platform) && platform !in executors
  }

  lemma BuyAnswered(
    parse: Parser, received: seq<OrderbookChange>, key: Store.Key, executors: set<string>,
    found: Option<(string, Decimal)>)
    requires MayFind(EntryAt(RunCache(parse, received), key).asks, executors, Sell, found)
    ensures AnswersBuy(EntryAt(RunCache(parse, received), key), QuotesFor(parse, received, key), executors, found)
  {
    var cached := EntryAt(RunCache(parse, received), key);
    EntryIsCacheAfter(parse, received, key);
    if found.Some? {
      RoutedPriceIsLive(parse, received, key, executors, Sell, found);
      assert IsLowestAsk(cached, found.value.0);
    } else if cached.asks != map[] {
      var platform :| IsExtreme(cached.asks, Sell, platform) && platform !in executors;
      assert IsLowestAsk(cached, platform);
    }
  }

  lemma SellAnswered(
    parse: Parser, received: seq<OrderbookChange>, key: Store.Key, executors: set<string>,
    found: Option<(string, Decimal)>)
    requires MayFind(EntryAt(RunCache(parse, received), key).bids, executors, Buy, found)
    ensures AnswersSell(EntryAt(RunCache(parse, received), key), QuotesFor(parse, received, key), executors, found)
  {
    var cached := EntryAt(RunCache(parse, received), key);
    EntryIsCacheAfter(parse, received, key);
    if found.Some? {
      RoutedPriceIsLive(parse, received, key, executors, Buy, found);
      assert IsHighestBid(cached, found.value.0);
    } else if cached.bids != map[] {
      var platform :| IsExtreme(cached.bids, Buy, platform) && platform !in executors;
      assert IsHighestBid(cached, platform);
    }
  }

  // ---------------------------------------------------------------------------
  // The in-place router
  // ---------------------------------------------------------------------------

  class SmartRouter {
    var executors: set<string>
    const bboCache: BboCache

    constructor (bboCache: BboCache)
      ensures this.bboCache == bboCache && executors == {}
    {
      this.bboCache, executors := bboCache, {};
    }

    method Register(platform: string)
      modifies this
      ensures executors == old(executors) + {platform}
    {
      executors := executors + {platform};
    }

    /** Walks the cached platforms in map order, keeping the best seen. */
    static method BestCached(best: BestPrices, side: Side) returns (found: Option<(string, Decimal)>)
      ensures found.None? <==> best == map[]
      ensures found.Some? ==> IsExtreme(best, side, found.value.0) && found.value.1 == best[found.value.0]
    {
      found := None;
      var remaining := best.Keys;
      while remaining != {}
        invariant remaining <= best.Keys
        invariant found.None? ==> remaining == best.Keys
        invariant found.Some? ==> found.value.0 in best && found.value.1 == best[found.value.0]
        invariant found.Some? ==>
          forall other :: other in best && other !in remaining ==> !Better(side, best[other], found.value.1)
      {
        var platform :| platform in remaining;
        if found.None? || !Better(side, found.value.1, best[platform]) {
          found := Some((platform, best[platform]));
        }
        remaining := remaining - {platform};
      }
    }

    /** What the search may answer to an order on this side. */
    ghost predicate Answers(marketId: string, assetId: string, side: Side, found: Option<(string, Decimal)>)
      reads this, bboCache
    {
      var key := Store.Key(marketId, assetId);
      var cached, quotes := bboCache.Entry(key), QuotesFor(bboCache.parse, bboCache.received, key);
      match side
      case Buy => AnswersBuy(cached, quotes, executors, found)
      case Sell => AnswersSell(cached, quotes, executors, found)
    }

    method FindBestPlatform(marketId: string, assetId: string, side: Side) returns (found: Option<(string, Decimal)>)
      requires bboCache.Valid()
      ensures Answers(marketId, assetId, side, found)
    {
      var key := Store.Key(marketId, assetId);
      var cached := bboCache.Entry(key);
      match side {
        case Buy => found := BestCached(cached.asks, Sell);
        case Sell => found := BestCached(cached.bids, Buy);
      }
      if found.Some? && found.value.0 !in executors {
        found := None;
      }
      match side {
        case Buy => BuyAnswered(bboCache.parse, bboCache.received, key, executors, found);
        case Sell => SellAnswered(bboCache.parse, bboCache.received, key, executors, found);
      }
    }

    /** `submit` is the executors' own behaviour. A named platform bypasses the search. */
    method SubmitOrder(req: OrderRequest, submit: (string, OrderRequest) -> Result<OrderResponse, RouteError>)
      returns (result: Result<OrderResponse, RouteError>, ghost found: Option<(string, Decimal)>)
      requires bboCache.Valid()
      ensures req.platform.Some? ==>
        result == if req.platform.value in executors then submit(req.platform.value, req)
                  else Err(UnknownPlatform(req.platform.value))
      ensures req.platform.None? ==> Answers(req.marketId, req.tokenId, req.side, found)
      ensures req.platform.None? && found.None? ==> result == Err(NoAvailablePlatform)
      ensures req.platform.None? && found.Some? ==>
        match submit(found.value.0, req.(platform := Some(found.value.0)))
        case Ok(response) => result == Ok(response.(routedPrice := Some(found.value.1)))
        case Err(error) => result == Err(error)
    {
      found := None;
      if req.platform.Some? {
        if req.platform.value !in executors {
          return Err(UnknownPlatform(req.platform.value)), None;
        }
        result := submit(req.platform.value, req);
        return;
      }
      var best := FindBestPlatform(req.marketId, req.tokenId, req.side);
      found := best;
      if best.None? {
        return Err(NoAvailablePlatform), best;
      }
      // The search has already made sure that this executor is registered.
      var response := submit(best.value.0, req.(platform := Some(best.value.0)));
      if response.Err? {
        return response, best;
      }
      return Ok(response.value.(routedPrice := Some(best.value.1))), best;
    }
  }
}
