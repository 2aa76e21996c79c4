// Price-ordered reading of one side: best price, top-N levels, depth.
// Bids are read from the highest price down, asks from the lowest price up.

module Ranking {
  import opened Prelude
  import opened Sums
  import opened Schema
  import opened Levels

  /** `x` comes before `y` when the side is read best price first. */
  predicate Better(side: Side, x: Decimal, y: Decimal) {
    if side.Buy? then x > y else x < y
  }

  ghost predicate IsBest(side: Side, prices: set<Decimal>, x: Decimal) {
    x in prices && forall y :: y in prices && y != x ==> Better(side, x, y)
  }

  lemma {:induction false} BestExists(side: Side, prices: set<Decimal>)
    requires prices != {}
    ensures exists x :: IsBest(side, prices, x)
  {
    var x := Member(prices);
    var rest := prices - {x};
    assert forall y :: y in prices && y != x ==> y in rest;
    if rest == {} {
      assert IsBest(side, prices, x);
    } else {
      BestExists(side, rest);
      var y :| IsBest(side, rest, y);
      assert IsBest(side, prices, if Better(side, x, y) then x else y);
    }
  }

  function BestOf(side: Side, prices: set<Decimal>): Decimal
    requires prices != {}
  {
    BestExists(side, prices);
    var x :| x in prices && forall y | y in prices && y != x :: Better(side, x, y);
    x
  }

  predicate Sorted(side: Side, prices: seq<Decimal>) {
    forall i, j :: 0 <= i < j < |prices| ==> Better(side, prices[i], prices[j])
  }

  lemma BestOfIsBest(side: Side, prices: set<Decimal>)
    requires prices != {}
    ensures IsBest(side, prices, BestOf(side, prices))
  {
    BestExists(side, prices);
  }

  /** The order in which the sorted map of a side is walked, best price first. */
  function Ranked(side: Side, prices: set<Decimal>): seq<Decimal> {
    if prices == {} then []
    else
      var best := BestOf(side, prices);
      BestOfIsBest(side, prices);
      [best] + Ranked(side, prices - {best})
  }

  lemma {:induction false} RankedLists(side: Side, prices: set<Decimal>)
    ensures forall x :: x in Ranked(side, prices) <==> x in prices
    ensures Sorted(side, Ranked(side, prices))
  {
    if prices != {} {
      BestOfIsBest(side, prices);
      var rest := prices - {BestOf(side, prices)};
      RankedLists(side, rest);
      assert forall i :: 0 <= i < |Ranked(side, rest)| ==> Ranked(side, rest)[i] in rest;
    }
  }

  /** The populated prices among `prices`, in the same order. */
  function Populated(levels: Levels, prices: seq<Decimal>): seq<Decimal> {
    if prices == [] then []
    else
      var rest := Populated(levels, prices[1..]);
      if prices[0] in levels && levels[prices[0]] != map[] then [prices[0]] + rest else rest
  }

  lemma {:induction false} PopulatedLists(levels: Levels, prices: seq<Decimal>)
    ensures forall x :: x in Populated(levels, prices) <==> x in prices && x in levels && levels[x] != map[]
  {
    if prices != [] {
      PopulatedLists(levels, prices[1..]);
      assert prices == [prices[0]] + prices[1..];
    }
  }

  lemma {:induction false} PopulatedSorted(side: Side, levels: Levels, prices: seq<Decimal>)
    requires Sorted(side, prices)
    ensures Sorted(side, Populated(levels, prices))
  {
    if prices != [] {
      PopulatedSorted(side, levels, prices[1..]);
      PopulatedLists(levels, prices[1..]);
      var rest := Populated(levels, prices[1..]);
      assert forall i :: 0 <= i < |rest| ==> rest[i] in Populated(levels, prices[1..]);
    }
  }

  /** All populated prices of a side, best first. */
  function Book(side: Side, levels: Levels): seq<Decimal> {
    Populated(levels, Ranked(side, levels.Keys))
  }

  /** The first populated price met when the side is walked best price first. */
  function BestPrice(side: Side, levels: Levels): Option<Decimal> {
    var book := Book(side, levels);
    if book == [] then None else Some(book[0])
  }

  function Populates(levels: Levels): set<Decimal> {
    set price | price in levels && levels[price] != map[]
  }

  lemma BookLists(side: Side, levels: Levels)
    ensures Sorted(side, Book(side, levels))
    ensures SetOf(Book(side, levels)) == Populates(levels)
    ensures |Book(side, levels)| == |Populates(levels)|
  {
    RankedLists(side, levels.Keys);
    PopulatedLists(levels, Ranked(side, levels.Keys));
    PopulatedSorted(side, levels, Ranked(side, levels.Keys));
    assert NoDuplicates(Book(side, levels));
    NoDuplicatesBySize(Book(side, levels));
  }

  /** The system's best price is the extreme of the populated prices, and absent exactly when there are none. */
  lemma BestPriceIsExtreme(side: Side, levels: Levels)
    ensures BestPrice(side, levels).None? <==> Populates(levels) == {}
    ensures BestPrice(side, levels).Some? ==> IsBest(side, Populates(levels), BestPrice(side, levels).value)
    ensures forall best :: BestPrice(side, levels) == Some(best) ==>
      forall price :: price in Populates(levels) ==> if side.Buy? then price <= best else best <= price
  {
    BookLists(side, levels);
    var book := Book(side, levels);
    if book == [] {
      assert SetOf(book) == {};
    } else {
      assert book[0] in SetOf(book);
      forall y | y in Populates(levels) && y != book[0]
        ensures Better(side, book[0], y)
      {
        assert y in SetOf(book);
        var j :| 0 <= j < |book| && book[j] == y;
      }
    }
  }

  /** Recalculating the best price before the empty levels are dropped gives the same answer as after. */
  lemma BestPriceBeforeCleanup(side: Side, levels: Levels)
    ensures BestPrice(side, levels) == BestPrice(side, DropEmpty(levels))
  {
    assert Populates(levels) == Populates(DropEmpty(levels));
    BestPriceIsExtreme(side, levels);
    BestPriceIsExtreme(side, DropEmpty(levels));
  }

  // ---------------------------------------------------------------------------
  // Totals and top-N
  // ---------------------------------------------------------------------------

  function SizeIn(sizes: PlatformSizes, platform: string): Decimal {
    if platform in sizes then sizes[platform] else 0.0
  }

  /** The size a platform has at a price, zero when it has none. */
  function SizeAt(levels: Levels, price: Decimal, platform: string): Decimal {
    if price in levels then SizeIn(levels[price], platform) else 0.0
  }

  ghost function TotalSize(sizes: PlatformSizes): Decimal {
    SumOver(sizes.Keys, platform => SizeIn(sizes, platform))
  }

  ghost function LevelTotal(levels: Levels, price: Decimal): Decimal {
    if price in levels then TotalSize(levels[price]) else 0.0
  }

  ghost function WithTotals(levels: Levels, prices: seq<Decimal>): (r: seq<(Decimal, Decimal)>)
    ensures |r| == |prices|
    ensures forall i :: 0 <= i < |r| ==> r[i] == (prices[i], LevelTotal(levels, prices[i]))
  {
    if prices == [] then []
    else WithTotals(levels, prices[..|prices| - 1]) + [(prices[|prices| - 1], LevelTotal(levels, prices[|prices| - 1]))]
  }

  /** The `n` best populated prices. */
  function TopPrices(side: Side, levels: Levels, n: nat): seq<Decimal> {
    var book := Book(side, levels);
    if n < |book| then book[..n] else book
  }

  /** The `n` best populated levels with their aggregated sizes. */
  ghost function Top(side: Side, levels: Levels, n: nat): seq<(Decimal, Decimal)> {
    WithTotals(levels, TopPrices(side, levels, n))
  }

  /**
   * What a caller may rely on: length, order, content, that the best price comes first, that nothing better
   * was left out, and that asking for more only adds to the end.
   */
  lemma TopIsBestLevels(side: Side, levels: Levels, n: nat)
    ensures |TopPrices(side, levels, n)| == if n < |Populates(levels)| then n else |Populates(levels)|
    ensures forall i, j :: 0 <= i < j < |TopPrices(side, levels, n)| ==>
      if side.Buy? then TopPrices(side, levels, n)[i] > TopPrices(side, levels, n)[j]
      else TopPrices(side, levels, n)[i] < TopPrices(side, levels, n)[j]
    ensures SetOf(TopPrices(side, levels, n)) <= Populates(levels)
    ensures n > 0 && TopPrices(side, levels, n) == [] ==> BestPrice(side, levels) == None
    ensures n > 0 && TopPrices(side, levels, n) != [] ==> BestPrice(side, levels) == Some(TopPrices(side, levels, n)[0])
    ensures forall listed, omitted ::
      listed in TopPrices(side, levels, n) && omitted in Populates(levels) - SetOf(TopPrices(side, levels, n)) ==>
        if side.Buy? then listed > omitted else listed < omitted
    ensures forall m: nat :: n <= m ==> TopPrices(side, levels, n) <= TopPrices(side, levels, m)
  {
    BookLists(side, levels);
    var book, top := Book(side, levels), TopPrices(side, levels, n);
    assert forall x :: x in top ==> x in book && x in SetOf(book);
    forall listed, omitted | listed in top && omitted in Populates(levels) - SetOf(top)
      ensures Better(side, listed, omitted)
    {
      assert omitted in SetOf(book);
      var i :| 0 <= i < |top| && top[i] == listed;
      var k :| 0 <= k < |book| && book[k] == omitted;
      assert forall j :: 0 <= j < |top| ==> top[j] == book[j] && top[j] in SetOf(top);
    }
  }

  // ---------------------------------------------------------------------------
  // Depth
  // ---------------------------------------------------------------------------

  /** All sizes on a side, added level by level. */
  ghost function Depth(levels: Levels): Decimal {
    SumOver(levels.Keys, price => LevelTotal(levels, price))
  }

  /** All sizes of one platform on a side. */
  ghost function PlatformDepth(levels: Levels, platform: string): Decimal {
    SumOver(levels.Keys, price => SizeAt(levels, price, platform))
  }

  function PlatformsIn(levels: Levels): set<string> {
    set price, platform | price in levels && platform in levels[price] :: platform
  }

  /** The depth is also the sum of what each platform holds. */
  lemma DepthByPlatform(levels: Levels, platforms: set<string>)
    requires PlatformsIn(levels) <= platforms
    ensures Depth(levels) == SumOver(platforms, platform => PlatformDepth(levels, platform))
  {
    var row := (price: Decimal) => (platform: string) => SizeAt(levels, price, platform);
    var column := (platform: string) => (price: Decimal) => SizeAt(levels, price, platform);
    forall price | price in levels.Keys
      ensures LevelTotal(levels, price) == SumOver(platforms, row(price))
    {
      assert forall p :: p in levels[price] ==> p in PlatformsIn(levels);
      SumSupport(platforms, levels[price].Keys, row(price));
      SumSame(levels[price].Keys, row(price), platform => SizeIn(levels[price], platform));
    }
    forall platform | platform in platforms
      ensures PlatformDepth(levels, platform) == SumOver(levels.Keys, column(platform))
    {
      SumSame(levels.Keys, column(platform), price => SizeAt(levels, price, platform));
    }
    SumExchange(levels.Keys, platforms, row, column,
      price => LevelTotal(levels, price), platform => PlatformDepth(levels, platform));
  }

  /** Reading the levels and the platforms in any two orders gives the same depth. */
  lemma DepthInAnyOrder(levels: Levels, prices: seq<Decimal>, platforms: seq<string>)
    requires NoDuplicates(prices) && SetOf(prices) == levels.Keys
    requires NoDuplicates(platforms) && PlatformsIn(levels) <= SetOf(platforms)
    ensures SumAlong(prices, price => LevelTotal(levels, price)) == Depth(levels)
    ensures SumAlong(platforms, platform => PlatformDepth(levels, platform)) == Depth(levels)
  {
    SumAlongAnyOrder(prices, price => LevelTotal(levels, price));
    SumAlongAnyOrder(platforms, platform => PlatformDepth(levels, platform));
    DepthByPlatform(levels, SetOf(platforms));
  }

  /** Dropping empty levels does not change the depth. */
  lemma DepthAfterCleanup(levels: Levels)
    ensures Depth(DropEmpty(levels)) == Depth(levels)
  {
    var after := DropEmpty(levels);
    forall price | price in levels.Keys - after.Keys
      ensures LevelTotal(levels, price) == 0.0
    {
      assert levels[price].Keys == {};
    }
    SumSupport(levels.Keys, after.Keys, price => LevelTotal(levels, price));
    SumSame(after.Keys, price => LevelTotal(levels, price), price => LevelTotal(after, price));
  }

  lemma TotalAfterSet(sizes: PlatformSizes, platform: string, size: Decimal)
    ensures TotalSize(SetSize(sizes, platform, size)) == TotalSize(sizes) + size - SizeIn(sizes, platform)
  {
    var after := SetSize(sizes, platform, size);
    var all := sizes.Keys + {platform};
    SumSupport(all, sizes.Keys, p => SizeIn(sizes, p));
    SumSupport(all, after.Keys, p => SizeIn(after, p));
    SumChange(all, platform, p => SizeIn(sizes, p), p => SizeIn(after, p));
  }

  lemma DepthAfterWrite(levels: Levels, w: Write, platform: string)
    ensures Depth(WriteCell(levels, w, platform))
         == Depth(levels) + w.size - SizeAt(levels, w.price, platform)
  {
    var after := WriteCell(levels, w, platform);
    SumSupport(after.Keys, levels.Keys, price => LevelTotal(levels, price));
    SumChange(after.Keys, w.price, price => LevelTotal(levels, price), price => LevelTotal(after, price));
    TotalAfterSet(if w.price in levels then levels[w.price] else map[], platform, w.size);
  }

  /** New size minus the size found, added up over a run of writes. */
  function Telescope(levels: Levels, ws: seq<Write>, platform: string): Decimal {
    if ws == [] then 0.0
    else
      var w := ws[|ws| - 1];
      Telescope(levels, ws[..|ws| - 1], platform)
        + w.size - SizeAt(ApplyWrites(levels, ws[..|ws| - 1], platform), w.price, platform)
  }

  lemma {:induction false} DepthAfterWrites(levels: Levels, ws: seq<Write>, platform: string)
    ensures Depth(ApplyWrites(levels, ws, platform)) == Depth(levels) + Telescope(levels, ws, platform)
  {
    if ws != [] {
      DepthAfterWrites(levels, ws[..|ws| - 1], platform);
      DepthAfterWrite(ApplyWrites(levels, ws[..|ws| - 1], platform), ws[|ws| - 1], platform);
    }
  }

  /** A delta moves the depth by exactly what its writes replace. */
  lemma DeltaMovesDepth(parse: Parser, side: Side, levels: Levels, msg: Message)
    requires msg.messageType.Delta?
    ensures Depth(ApplySide(parse, side, levels, msg))
         == Depth(levels) + Telescope(levels, Writes(parse, side, msg), msg.platform)
  {
    DepthAfterWrites(levels, Writes(parse, side, msg), msg.platform);
    DepthAfterCleanup(Written(parse, side, levels, msg));
  }

  lemma ClearedLevelTotal(levels: Levels, platform: string, price: Decimal)
    ensures LevelTotal(levels, price)
         == LevelTotal(ClearPlatform(levels, platform), price) + SizeAt(levels, price, platform)
  {
    if price in levels {
      TotalAfterSet(levels[price], platform, 0.0);
    }
  }

  lemma ClearedPlatformDepth(levels: Levels, platform: string)
    ensures Depth(levels) == Depth(ClearPlatform(levels, platform)) + PlatformDepth(levels, platform)
  {
    var after := ClearPlatform(levels, platform);
    var whole, kept, gone :=
      price => LevelTotal(levels, price), price => LevelTotal(after, price), price => SizeAt(levels, price, platform);
    forall price | price in levels.Keys
      ensures whole(price) == kept(price) + gone(price)
    {
      ClearedLevelTotal(levels, platform, price);
    }
    SumSplits(levels.Keys, whole, kept, gone);
    assert after.Keys == levels.Keys;
  }

  lemma {:induction false} TelescopeFromNothing(levels: Levels, ws: seq<Write>, platform: string)
    requires forall price :: CellOf(levels, price, platform) == None
    ensures Telescope(levels, ws, platform) == Telescope(map[], ws, platform)
  {
    if ws != [] {
      var front, w := ws[..|ws| - 1], ws[|ws| - 1];
      TelescopeFromNothing(levels, front, platform);
      CellAfterWrites(levels, front, platform, w.price, platform);
      CellAfterWrites(map[], front, platform, w.price, platform);
    }
  }

  /** A snapshot takes the platform's own depth out and puts the listed sizes in. */
  lemma SnapshotMovesDepth(parse: Parser, side: Side, levels: Levels, msg: Message)
    requires msg.messageType.Snapshot?
    ensures Depth(ApplySide(parse, side, levels, msg))
         == Depth(levels) - PlatformDepth(levels, msg.platform)
          + Telescope(map[], Writes(parse, side, msg), msg.platform)
  {
    var start := ClearPlatform(levels, msg.platform);
    var ws := Writes(parse, side, msg);
    ClearedPlatformDepth(levels, msg.platform);
    DepthAfterWrites(start, ws, msg.platform);
    DepthAfterCleanup(Written(parse, side, levels, msg));
    TelescopeFromNothing(start, ws, msg.platform);
  }

  lemma SizeOfCell(levels: Levels, price: Decimal, platform: string)
    ensures SizeAt(levels, price, platform)
         == match CellOf(levels, price, platform) case Some(size) => size case None => 0.0
  {
  }

  /** A message leaves what every other platform holds on the side alone, cell by cell and in total. */
  lemma OthersKeepDepth(parse: Parser, side: Side, levels: Levels, msg: Message, other: string)
    requires other != msg.platform
    ensures PlatformDepth(ApplySide(parse, side, levels, msg), other) == PlatformDepth(levels, other)
  {
    var after := ApplySide(parse, side, levels, msg);
    var all := levels.Keys + after.Keys;
    var before, now := price => SizeAt(levels, price, other), price => SizeAt(after, price, other);
    forall price | price in all
      ensures before(price) == now(price)
    {
      CellAfterMessage(parse, side, levels, msg, price, other);
      SizeOfCell(levels, price, other);
      SizeOfCell(after, price, other);
    }
    SumSupport(all, levels.Keys, before);
    SumSupport(all, after.Keys, now);
    SumSame(all, before, now);
  }

  lemma {:induction false} SumOfTotals(levels: Levels, prices: seq<Decimal>)
    ensures SumAlong(WithTotals(levels, prices), (level: (Decimal, Decimal)) => level.1)
         == SumAlong(prices, price => LevelTotal(levels, price))
  {
    if prices != [] {
      SumOfTotals(levels, prices[..|prices| - 1]);
    }
  }

  /** Asking for at least as many levels as there are returns sizes that add up to the depth. */
  lemma TopSumsToDepth(side: Side, levels: Levels, n: nat)
    requires n >= |Populates(levels)|
    ensures SumAlong(Top(side, levels, n), (level: (Decimal, Decimal)) => level.1) == Depth(levels)
  {
    BookLists(side, levels);
    var book := Book(side, levels);
    SumOfTotals(levels, book);
    SumAlongAnyOrder(book, price => LevelTotal(levels, price));
    forall price | price in levels.Keys - Populates(levels)
      ensures LevelTotal(levels, price) == 0.0
    {
      assert levels[price].Keys == {};
    }
    SumSupport(levels.Keys, Populates(levels), price => LevelTotal(levels, price));
  }
}
