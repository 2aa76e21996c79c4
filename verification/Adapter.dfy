// The exchange adapter: one raw price-change message becomes one delta per asset, in the order
// a hash map yields the assets. Grouping must not change what the books end up holding.

module Adapter {
  import opened Prelude
  import opened Schema
  import opened Levels
  import opened Books
  import opened Store
  import Ranking

  const PLATFORM := "polymarket"

  datatype RawPriceChange = RawPriceChange(assetId: string, price: string, size: string, side: string)

  datatype RawPriceChangeMessage = RawPriceChangeMessage(market: string, priceChanges: seq<RawPriceChange>)

  function UpdateOf(change: RawPriceChange): Update {
    Update(if change.side == "BUY" then Buy else Sell, change.price, change.size)
  }

  function UpdatesOf(changes: seq<RawPriceChange>): seq<Update> {
    if changes == [] then []
    else UpdatesOf(changes[..|changes| - 1]) + [UpdateOf(changes[|changes| - 1])]
  }

  function DeltaFor(raw: RawPriceChangeMessage, assetId: string, changes: seq<RawPriceChange>): Message {
    Message(PLATFORM, assetId, raw.market, Delta, None, None, Some(UpdatesOf(changes)))
  }

  /** The changes of one asset, in their original order. */
  function ChangesOf(changes: seq<RawPriceChange>, assetId: string): seq<RawPriceChange> {
    if changes == [] then []
    else
      var front := ChangesOf(changes[..|changes| - 1], assetId);
      if changes[|changes| - 1].assetId == assetId then front + [changes[|changes| - 1]] else front
  }

  function Assets(changes: seq<RawPriceChange>): set<string> {
    set change | change in changes :: change.assetId
  }

  /** One delta per listed asset, holding that asset's changes. */
  function Grouped(raw: RawPriceChangeMessage, order: seq<string>): seq<Message> {
    if order == [] then []
    else
      Grouped(raw, order[..|order| - 1])
        + [DeltaFor(raw, order[|order| - 1], ChangesOf(raw.priceChanges, order[|order| - 1]))]
  }

  /** Some visiting order of the assets of the message. */
  ghost predicate IsOrder(raw: RawPriceChangeMessage, order: seq<string>) {
    NoDuplicates(order) && SetOf(order) == Assets(raw.priceChanges)
  }

  lemma AssetsGrow(changes: seq<RawPriceChange>, change: RawPriceChange)
    ensures Assets(changes + [change]) == Assets(changes) + {change.assetId}
  {
    assert change in changes + [change];
    assert forall c :: c in changes + [change] <==> c in changes || c == change;
  }

  lemma {:induction false} NoChangesOfOthers(changes: seq<RawPriceChange>, assetId: string)
    requires assetId !in Assets(changes)
    ensures ChangesOf(changes, assetId) == []
  {
    if changes != [] {
      assert changes[|changes| - 1] in changes;
      assert forall c :: c in changes[..|changes| - 1] ==> c in changes;
      NoChangesOfOthers(changes[..|changes| - 1], assetId);
    }
  }

  method GroupByAsset(changes: seq<RawPriceChange>) returns (grouped: map<string, seq<RawPriceChange>>)
    ensures grouped.Keys == Assets(changes)
    ensures forall assetId :: assetId in grouped ==> grouped[assetId] == ChangesOf(changes, assetId)
  {
    grouped := map[];
    for i := 0 to |changes|
      invariant grouped.Keys == Assets(changes[..i])
      invariant forall assetId :: assetId in grouped ==> grouped[assetId] == ChangesOf(changes[..i], assetId)
    {
      var change := changes[i];
      assert changes[..i + 1][..i] == changes[..i] && changes[..i + 1] == changes[..i] + [change];
      AssetsGrow(changes[..i], change);
      if change.assetId !in grouped {
        NoChangesOfOthers(changes[..i], change.assetId);
      }
      grouped := grouped[change.assetId :=
        (if change.assetId in grouped then grouped[change.assetId] else []) + [change]];
    }
    assert changes[..|changes|] == changes;
  }

  /** Groups the changes by asset, then emits the groups in map order. */
  method TransformPriceChange(raw: RawPriceChangeMessage) returns (messages: seq<Message>)
    ensures exists order :: IsOrder(raw, order) && messages == Grouped(raw, order)
  {
    var grouped := GroupByAsset(raw.priceChanges);
    messages := [];
    var remaining := grouped.Keys;
    ghost var order := [];
    while remaining != {}
      invariant NoDuplicates(order) && SetOf(order) + remaining == grouped.Keys && SetOf(order) !! remaining
      invariant messages == Grouped(raw, order)
    {
      var assetId :| assetId in remaining;
      messages := messages + [DeltaFor(raw, assetId, grouped[assetId])];
      assert assetId !in SetOf(order);
      assert (order + [assetId])[..|order|] == order;
      SetOfAppend(order, [assetId]);
      order := order + [assetId];
      remaining := remaining - {assetId};
    }
    assert IsOrder(raw, order);
  }

  // ---------------------------------------------------------------------------
  // Grouping preserves meaning
  // ---------------------------------------------------------------------------

  /** The reference: every change is its own delta, in the original order. */
  function Singles(raw: RawPriceChangeMessage, changes: seq<RawPriceChange>): seq<Message> {
    if changes == [] then []
    else
      var change := changes[|changes| - 1];
      Singles(raw, changes[..|changes| - 1]) + [DeltaFor(raw, change.assetId, [change])]
  }

  /** The singles of one asset's changes, as that asset's book receives them. */
  lemma {:induction false} SinglesFor(raw: RawPriceChangeMessage, changes: seq<RawPriceChange>, key: Key)
    ensures For(Singles(raw, changes), key)
         == if key.marketId == raw.market then Singles(raw, ChangesOf(changes, key.assetId)) else []
  {
    if changes != [] {
      var front, change := changes[..|changes| - 1], changes[|changes| - 1];
      SinglesFor(raw, front, key);
      ForStep(Singles(raw, front), DeltaFor(raw, change.assetId, [change]), key);
      if change.assetId == key.assetId {
        var own := ChangesOf(changes, key.assetId);
        assert own[..|own| - 1] == ChangesOf(front, key.assetId);
      }
    }
  }

  lemma {:induction false} GroupedFor(raw: RawPriceChangeMessage, order: seq<string>, key: Key)
    requires NoDuplicates(order)
    ensures For(Grouped(raw, order), key)
         == if key.marketId == raw.market && key.assetId in order
            then [DeltaFor(raw, key.assetId, ChangesOf(raw.priceChanges, key.assetId))] else []
  {
    if order != [] {
      var front, last := order[..|order| - 1], order[|order| - 1];
      GroupedFor(raw, front, key);
      ForStep(Grouped(raw, front), DeltaFor(raw, last, ChangesOf(raw.priceChanges, last)), key);
      assert order == front + [last];
    }
  }

  /** Two books that differ at most in how many messages they have counted. */
  ghost predicate SameBook(a: BookValue, b: BookValue) {
    a == b.(updateCount := a.updateCount)
  }

  lemma SplitWrites(parse: Parser, side: Side, front: seq<RawPriceChange>, change: RawPriceChange)
    ensures DeltaWrites(parse, side, UpdatesOf(front + [change]))
         == DeltaWrites(parse, side, UpdatesOf(front)) + UpdateWrite(parse, side, UpdateOf(change))
    ensures DeltaWrites(parse, side, UpdatesOf([change])) == [] + UpdateWrite(parse, side, UpdateOf(change))
  {
    var updates := UpdatesOf(front) + [UpdateOf(change)];
    assert (front + [change])[..|front|] == front;
    assert updates[..|updates| - 1] == UpdatesOf(front);
    assert [change][..0] == [];
    assert UpdatesOf([change]) == [UpdateOf(change)];
    assert [UpdateOf(change)][..0] == [];
  }

  /** One delta with all the changes leaves the cells that the changes leave one by one. */
  lemma GroupOnceMore(
    parse: Parser, side: Side, levels: Levels, grouped: Levels,
    raw: RawPriceChangeMessage, assetId: string, front: seq<RawPriceChange>, change: RawPriceChange)
    requires Clean(levels) && front != []
    requires grouped == ApplySide(parse, side, levels, DeltaFor(raw, assetId, front))
    ensures ApplySide(parse, side, grouped, DeltaFor(raw, assetId, [change]))
         == ApplySide(parse, side, levels, DeltaFor(raw, assetId, front + [change]))
  {
    var step, whole := DeltaFor(raw, assetId, [change]), DeltaFor(raw, assetId, front + [change]);
    MessageKeepsClean(parse, side, levels, DeltaFor(raw, assetId, front));
    MessageKeepsClean(parse, side, grouped, step);
    MessageKeepsClean(parse, side, levels, whole);
    SplitWrites(parse, side, front, change);
    forall price, p
      ensures CellOf(ApplySide(parse, side, grouped, step), price, p)
           == CellOf(ApplySide(parse, side, levels, whole), price, p)
    {
      CellAfterMessage(parse, side, grouped, step, price, p);
      CellAfterMessage(parse, side, levels, DeltaFor(raw, assetId, front), price, p);
      CellAfterMessage(parse, side, levels, whole, price, p);
      LastAtAppend(
        DeltaWrites(parse, side, UpdatesOf(front)), UpdateWrite(parse, side, UpdateOf(change)), price);
      LastAtAppend([], UpdateWrite(parse, side, UpdateOf(change)), price);
    }
    CellsDetermine(ApplySide(parse, side, grouped, step), ApplySide(parse, side, levels, whole));
  }

  lemma SinglesStep(
    parse: Parser, book: BookValue, raw: RawPriceChangeMessage, front: seq<RawPriceChange>, change: RawPriceChange)
    ensures RunBook(parse, book, Singles(raw, front + [change]))
         == ApplyMessage(parse, RunBook(parse, book, Singles(raw, front)), DeltaFor(raw, change.assetId, [change]))
  {
    var singles := Singles(raw, front + [change]);
    assert (front + [change])[..|front|] == front;
    assert singles[..|singles| - 1] == Singles(raw, front);
  }

  lemma SameBookTrans(a: BookValue, b: BookValue, c: BookValue)
    requires SameBook(a, b) && SameBook(b, c)
    ensures SameBook(a, c)
  {
  }

  lemma CountDoesNotMatter(parse: Parser, a: BookValue, b: BookValue, msg: Message)
    requires SameBook(a, b)
    ensures SameBook(ApplyMessage(parse, a, msg), ApplyMessage(parse, b, msg))
  {
  }

  lemma GroupBookOnceMore(
    parse: Parser, book: BookValue, raw: RawPriceChangeMessage, assetId: string,
    front: seq<RawPriceChange>, change: RawPriceChange)
    requires Consistent(book) && front != []
    ensures SameBook(
      ApplyMessage(parse, book, DeltaFor(raw, assetId, front + [change])),
      ApplyMessage(parse, ApplyMessage(parse, book, DeltaFor(raw, assetId, front)), DeltaFor(raw, assetId, [change])))
  {
    var group, step, whole :=
      DeltaFor(raw, assetId, front), DeltaFor(raw, assetId, [change]), DeltaFor(raw, assetId, front + [change]);
    var grouped := ApplyMessage(parse, book, group);
    GroupOnceMore(parse, Buy, book.bids, grouped.bids, raw, assetId, front, change);
    GroupOnceMore(parse, Sell, book.asks, grouped.asks, raw, assetId, front, change);
    Ranking.BestPriceBeforeCleanup(Buy, Written(parse, Buy, grouped.bids, step));
    Ranking.BestPriceBeforeCleanup(Sell, Written(parse, Sell, grouped.asks, step));
    Ranking.BestPriceBeforeCleanup(Buy, Written(parse, Buy, book.bids, whole));
    Ranking.BestPriceBeforeCleanup(Sell, Written(parse, Sell, book.asks, whole));
  }

  /** If the group so far is its changes one by one, so is the group with one more change. */
  lemma GroupIsSinglesStep(
    parse: Parser, book: BookValue, raw: RawPriceChangeMessage, front: seq<RawPriceChange>, change: RawPriceChange)
    requires Consistent(book) && front != []
    requires SameBook(
      ApplyMessage(parse, book, DeltaFor(raw, change.assetId, front)), RunBook(parse, book, Singles(raw, front)))
    ensures SameBook(
      ApplyMessage(parse, book, DeltaFor(raw, change.assetId, front + [change])),
      RunBook(parse, book, Singles(raw, front + [change])))
  {
    var step := DeltaFor(raw, change.assetId, [change]);
    var grouped := ApplyMessage(parse, book, DeltaFor(raw, change.assetId, front));
    var oneByOne := RunBook(parse, book, Singles(raw, front));
    SinglesStep(parse, book, raw, front, change);
    CountDoesNotMatter(parse, grouped, oneByOne, step);
    GroupBookOnceMore(parse, book, raw, change.assetId, front, change);
    SameBookTrans(ApplyMessage(parse, book, DeltaFor(raw, change.assetId, front + [change])),
      ApplyMessage(parse, grouped, step), ApplyMessage(parse, oneByOne, step));
  }

  lemma SingleIsGroup(parse: Parser, book: BookValue, raw: RawPriceChangeMessage, change: RawPriceChange)
    ensures RunBook(parse, book, Singles(raw, [] + [change]))
         == ApplyMessage(parse, book, DeltaFor(raw, change.assetId, [change]))
  {
    SinglesStep(parse, book, raw, [], change);
  }

  /** A book that receives the group is the book that receives the changes one by one. */
  lemma {:induction false} GroupIsSingles(
    parse: Parser, book: BookValue, raw: RawPriceChangeMessage, assetId: string, changes: seq<RawPriceChange>)
    requires Consistent(book) && changes != []
    requires forall i :: 0 <= i < |changes| ==> changes[i].assetId == assetId
    ensures SameBook(
      ApplyMessage(parse, book, DeltaFor(raw, assetId, changes)), RunBook(parse, book, Singles(raw, changes)))
  {
    var front, change := changes[..|changes| - 1], changes[|changes| - 1];
    assert changes == front + [change];
    if front == [] {
      assert changes == [change];
      SingleIsGroup(parse, book, raw, change);
    } else {
      GroupIsSingles(parse, book, raw, assetId, front);
      GroupIsSinglesStep(parse, book, raw, front, change);
    }
  }

  lemma {:induction false} ChangesOfAsset(changes: seq<RawPriceChange>, assetId: string)
    ensures forall i :: 0 <= i < |ChangesOf(changes, assetId)| ==> ChangesOf(changes, assetId)[i].assetId == assetId
    ensures ChangesOf(changes, assetId) == [] <==> assetId !in Assets(changes)
  {
    if changes != [] {
      ChangesOfAsset(changes[..|changes| - 1], assetId);
      assert changes == changes[..|changes| - 1] + [changes[|changes| - 1]];
      AssetsGrow(changes[..|changes| - 1], changes[|changes| - 1]);
    }
  }

  /**
   * Whatever order the groups are emitted in, every book ends up with the levels, best prices and
   * platforms it would have had if the changes had been applied one by one in their original order.
   */
  lemma GroupingPreservesBooks(
    parse: Parser, store: StoreValue, raw: RawPriceChangeMessage, order: seq<string>, key: Key)
    requires Consistent(BookAt(store, key))
    requires IsOrder(raw, order)
    ensures SameBook(
      BookAt(RunFrom(parse, store, Grouped(raw, order)), key),
      BookAt(RunFrom(parse, store, Singles(raw, raw.priceChanges)), key))
  {
    var mine := ChangesOf(raw.priceChanges, key.assetId);
    RunFromDecomposes(parse, store, Grouped(raw, order), key);
    RunFromDecomposes(parse, store, Singles(raw, raw.priceChanges), key);
    SinglesFor(raw, raw.priceChanges, key);
    GroupedFor(raw, order, key);
    ChangesOfAsset(raw.priceChanges, key.assetId);
    assert key.assetId in order <==> key.assetId in SetOf(order);
    if key.marketId == raw.market && mine != [] {
      var group := DeltaFor(raw, key.assetId, mine);
      assert [group][..0] == [];
      GroupIsSingles(parse, BookAt(store, key), raw, key.assetId, mine);
    }
  }

  // ---------------------------------------------------------------------------
  // What the transformed message does to the books, told from the raw message
  // ---------------------------------------------------------------------------

  /** The change can be read and is about this asset, side and price. */
  predicate ChangesCell(parse: Parser, change: RawPriceChange, assetId: string, side: Side, price: Decimal) {
    && change.assetId == assetId
    && (if side.Buy? then change.side == "BUY" else change.side != "BUY")
    && parse(change.price) == Some(price) && parse(change.size).Some?
  }

  /** The size in the last such change. */
  function SaidByChanges(
    parse: Parser, changes: seq<RawPriceChange>, assetId: string, side: Side, price: Decimal): Option<Decimal>
  {
    if changes == [] then None
    else if ChangesCell(parse, changes[|changes| - 1], assetId, side, price) then parse(changes[|changes| - 1].size)
    else SaidByChanges(parse, changes[..|changes| - 1], assetId, side, price)
  }

  /** Change `i` gives this cell this size, and no later change that can be read is about it. */
  predicate ChangeDecides(
    parse: Parser, changes: seq<RawPriceChange>, assetId: string, side: Side, price: Decimal, size: Decimal, i: nat)
  {
    && i < |changes|
    && changes[i].assetId == assetId
    && (if side.Buy? then changes[i].side == "BUY" else changes[i].side != "BUY")
    && parse(changes[i].price) == Some(price) && parse(changes[i].size) == Some(size)
    && forall j :: i < j < |changes| ==> !ChangesCell(parse, changes[j], assetId, side, price)
  }

  lemma {:induction false} SaidByChangesIff(
    parse: Parser, changes: seq<RawPriceChange>, assetId: string, side: Side, price: Decimal, size: Decimal)
    ensures SaidByChanges(parse, changes, assetId, side, price) == Some(size)
      <==> exists i :: ChangeDecides(parse, changes, assetId, side, price, size, i)
  {
    if changes != [] {
      var front, last := changes[..|changes| - 1], changes[|changes| - 1];
      SaidByChangesIff(parse, front, assetId, side, price, size);
      if ChangesCell(parse, last, assetId, side, price) {
        assert parse(last.size) == Some(size) ==>
          ChangeDecides(parse, changes, assetId, side, price, size, |changes| - 1);
      } else {
        if i: nat :| ChangeDecides(parse, front, assetId, side, price, size, i) {
          assert ChangeDecides(parse, changes, assetId, side, price, size, i);
        }
        if i: nat :| ChangeDecides(parse, changes, assetId, side, price, size, i) {
          assert ChangeDecides(parse, front, assetId, side, price, size, i);
        }
      }
    }
  }

  lemma UpdatesStep(changes: seq<RawPriceChange>, change: RawPriceChange)
    ensures UpdatesOf(changes + [change]) == UpdatesOf(changes) + [UpdateOf(change)]
  {
    assert (changes + [change])[..|changes|] == changes;
  }

  lemma SaidStep(parse: Parser, updates: seq<Update>, update: Update, side: Side, price: Decimal)
    ensures SaidByDelta(parse, updates + [update], side, price)
         == if UpdatesCell(parse, update, side, price) then parse(update.size)
            else SaidByDelta(parse, updates, side, price)
  {
    assert (updates + [update])[..|updates|] == updates;
  }

  /** The delta of an asset says what the raw changes of that asset say. */
  lemma {:induction false} DeltaSaysChanges(
    parse: Parser, changes: seq<RawPriceChange>, assetId: string, side: Side, price: Decimal)
    ensures SaidByDelta(parse, UpdatesOf(ChangesOf(changes, assetId)), side, price)
         == SaidByChanges(parse, changes, assetId, side, price)
  {
    if changes != [] {
      var front, last := changes[..|changes| - 1], changes[|changes| - 1];
      DeltaSaysChanges(parse, front, assetId, side, price);
      if last.assetId == assetId {
        UpdatesStep(ChangesOf(front, assetId), last);
        SaidStep(parse, UpdatesOf(ChangesOf(front, assetId)), UpdateOf(last), side, price);
      }
    }
  }

  lemma BookAfterGroups(
    parse: Parser, store: StoreValue, raw: RawPriceChangeMessage, order: seq<string>, key: Key, side: Side,
    price: Decimal, reader: string)
    requires IsOrder(raw, order)
    ensures var before := CellOf(BookAt(store, key).Levels(side), price, reader);
      var said := SaidByChanges(parse, raw.priceChanges, key.assetId, side, price);
      CellOf(BookAt(RunFrom(parse, store, Grouped(raw, order)), key).Levels(side), price, reader)
        == if reader != "polymarket" || key.marketId != raw.market || said.None? then before
           else if said.value == 0.0 then None else said
  {
    var book, mine := BookAt(store, key), ChangesOf(raw.priceChanges, key.assetId);
    RunFromDecomposes(parse, store, Grouped(raw, order), key);
    GroupedFor(raw, order, key);
    ChangesOfAsset(raw.priceChanges, key.assetId);
    DeltaSaysChanges(parse, raw.priceChanges, key.assetId, side, price);
    assert key.assetId in order <==> key.assetId in SetOf(order);
    if key.marketId == raw.market && key.assetId in order {
      var group := DeltaFor(raw, key.assetId, mine);
      assert [group][..0] == [];
      WrittenIsTold(parse, side, book.Levels(side), group);
    }
  }

  /**
   * From the raw message alone: in the book of its market and an asset, the exchange's cell at a price is decided by
   * the last change of the asset that can be read and is about this price, bids being those whose side is `BUY`.
   * A zero size removes, and without such a change the cell stays; so do all other cells and books.
   */
  lemma TransformedCell(
    parse: Parser, store: StoreValue, raw: RawPriceChangeMessage, messages: seq<Message>, key: Key, side: Side,
    price: Decimal, reader: string)
    requires exists order :: IsOrder(raw, order) && messages == Grouped(raw, order)
    ensures var before := CellOf(BookAt(store, key).Levels(side), price, reader);
      var after := CellOf(BookAt(RunFrom(parse, store, messages), key).Levels(side), price, reader);
      if reader != "polymarket" || key.marketId != raw.market then after == before
      else
        && (forall i, size :: ChangeDecides(parse, raw.priceChanges, key.assetId, side, price, size, i) ==>
             after == if size == 0.0 then None else Some(size))
        && ((forall i, size :: !ChangeDecides(parse, raw.priceChanges, key.assetId, side, price, size, i)) ==>
             after == before)
  {
    var order :| IsOrder(raw, order) && messages == Grouped(raw, order);
    BookAfterGroups(parse, store, raw, order, key, side, price, reader);
    forall size
      ensures SaidByChanges(parse, raw.priceChanges, key.assetId, side, price) == Some(size)
        <==> exists i :: ChangeDecides(parse, raw.priceChanges, key.assetId, side, price, size, i)
    {
      SaidByChangesIff(parse, raw.priceChanges, key.assetId, side, price, size);
    }
  }
}
