// One side of a book: price -> platform -> size, and the writes that change it.

module Levels {
  import opened Prelude
  import opened Schema

  type PlatformSizes = map<string, Decimal>

  type Levels = map<Decimal, PlatformSizes>

  function SetSize(sizes: PlatformSizes, platform: string, size: Decimal): PlatformSizes {
    if size == 0.0 then sizes - {platform} else sizes[platform := size]
  }

  function CellOf(levels: Levels, price: Decimal, platform: string): Option<Decimal> {
    if price in levels && platform in levels[price] then Some(levels[price][platform]) else None
  }

  /** The size a cell holds once `size` has been written to it. */
  function Stored(size: Decimal): Option<Decimal> {
    if size == 0.0 then None else Some(size)
  }

  /** No empty price level and no zero size: what every message leaves behind. */
  ghost predicate Clean(levels: Levels) {
    forall price :: price in levels ==>
      levels[price] != map[] && forall platform :: platform in levels[price] ==> levels[price][platform] != 0.0
  }

  // ---------------------------------------------------------------------------
  // Writes: the parsed content of a message on one side
  // ---------------------------------------------------------------------------

  datatype Write = Write(price: Decimal, size: Decimal)

  function ParseWrite(parse: Parser, price: string, size: string): Option<Write> {
    match parse(price)
    case None => None
    case Some(p) =>
      match parse(size)
      case None => None
      case Some(z) => Some(Write(p, z))
  }

  /** A snapshot entry with an unparsable field or a zero size writes nothing. */
  function LevelWrite(parse: Parser, level: PriceLevel): seq<Write> {
    match ParseWrite(parse, level.price, level.size)
    case None => []
    case Some(w) => if w.size == 0.0 then [] else [w]
  }

  /** A delta entry of the other side or with an unparsable field writes nothing; a zero size is a removal. */
  function UpdateWrite(parse: Parser, side: Side, update: Update): seq<Write> {
    if update.side != side then []
    else
      match ParseWrite(parse, update.price, update.size)
      case None => []
      case Some(w) => [w]
  }

  function SnapshotWrites(parse: Parser, listed: seq<PriceLevel>): seq<Write> {
    if listed == [] then []
    else SnapshotWrites(parse, listed[..|listed| - 1]) + LevelWrite(parse, listed[|listed| - 1])
  }

  function DeltaWrites(parse: Parser, side: Side, updates: seq<Update>): seq<Write> {
    if updates == [] then []
    else DeltaWrites(parse, side, updates[..|updates| - 1]) + UpdateWrite(parse, side, updates[|updates| - 1])
  }

  function Writes(parse: Parser, side: Side, msg: Message): seq<Write> {
    match msg.messageType
    case Snapshot => SnapshotWrites(parse, msg.Listed(side))
    case Delta => DeltaWrites(parse, side, OrEmpty(msg.updates))
  }

  // ---------------------------------------------------------------------------
  // The effect of one message on one side
  // ---------------------------------------------------------------------------

  function WriteCell(levels: Levels, w: Write, platform: string): Levels {
    levels[w.price := SetSize(if w.price in levels then levels[w.price] else map[], platform, w.size)]
  }

  function ApplyWrites(levels: Levels, ws: seq<Write>, platform: string): Levels {
    if ws == [] then levels
    else WriteCell(ApplyWrites(levels, ws[..|ws| - 1], platform), ws[|ws| - 1], platform)
  }

  function ClearPlatform(levels: Levels, platform: string): Levels {
    map price | price in levels :: levels[price] - {platform}
  }

  /** The side just after a message's writes, empty levels still present. */
  function Written(parse: Parser, side: Side, levels: Levels, msg: Message): Levels {
    ApplyWrites(
      if msg.messageType.Snapshot? then ClearPlatform(levels, msg.platform) else levels,
      Writes(parse, side, msg), msg.platform)
  }

  function DropEmpty(levels: Levels): Levels {
    map price | price in levels && levels[price] != map[] :: levels[price]
  }

  function ApplySide(parse: Parser, side: Side, levels: Levels, msg: Message): Levels {
    DropEmpty(Written(parse, side, levels, msg))
  }

  function RunSide(parse: Parser, side: Side, history: seq<Message>): Levels {
    if history == [] then map[]
    else ApplySide(parse, side, RunSide(parse, side, history[..|history| - 1]), history[|history| - 1])
  }

  // ---------------------------------------------------------------------------
  // Reading one cell after a run of writes
  // ---------------------------------------------------------------------------

  /** The newest size written at a price, if any. */
  function LastAt(ws: seq<Write>, price: Decimal): Option<Decimal> {
    if ws == [] then None
    else if ws[|ws| - 1].price == price then Some(ws[|ws| - 1].size)
    else LastAt(ws[..|ws| - 1], price)
  }

  lemma {:induction false} CellAfterWrites(
    levels: Levels, ws: seq<Write>, platform: string, price: Decimal, reader: string)
    ensures CellOf(ApplyWrites(levels, ws, platform), price, reader)
         == if reader == platform && LastAt(ws, price).Some? then Stored(LastAt(ws, price).value)
            else CellOf(levels, price, reader)
  {
    if ws != [] {
      CellAfterWrites(levels, ws[..|ws| - 1], platform, price, reader);
    }
  }

  lemma {:induction false} WritesInSteps(levels: Levels, first: seq<Write>, second: seq<Write>, platform: string)
    ensures ApplyWrites(levels, first + second, platform)
         == ApplyWrites(ApplyWrites(levels, first, platform), second, platform)
  {
    if second == [] {
      assert first + second == first;
    } else {
      assert (first + second)[..|first + second| - 1] == first + second[..|second| - 1];
      WritesInSteps(levels, first, second[..|second| - 1], platform);
    }
  }

  /** Processing one more snapshot entry, or one more delta entry, appends its writes. */
  lemma SnapshotStep(parse: Parser, levels: Levels, listed: seq<PriceLevel>, i: nat, platform: string)
    requires i < |listed|
    ensures ApplyWrites(levels, SnapshotWrites(parse, listed[..i + 1]), platform)
         == ApplyWrites(ApplyWrites(levels, SnapshotWrites(parse, listed[..i]), platform),
              LevelWrite(parse, listed[i]), platform)
  {
    assert listed[..i + 1][..i] == listed[..i];
    WritesInSteps(levels, SnapshotWrites(parse, listed[..i]), LevelWrite(parse, listed[i]), platform);
  }

  lemma DeltaStep(parse: Parser, side: Side, levels: Levels, updates: seq<Update>, i: nat, platform: string)
    requires i < |updates|
    ensures ApplyWrites(levels, DeltaWrites(parse, side, updates[..i + 1]), platform)
         == ApplyWrites(ApplyWrites(levels, DeltaWrites(parse, side, updates[..i]), platform),
              UpdateWrite(parse, side, updates[i]), platform)
  {
    assert updates[..i + 1][..i] == updates[..i];
    WritesInSteps(levels, DeltaWrites(parse, side, updates[..i]), UpdateWrite(parse, side, updates[i]), platform);
  }

  /** One message, read cell by cell: the newest write wins, a snapshot forgets what it does not list. */
  lemma CellAfterMessage(parse: Parser, side: Side, levels: Levels, msg: Message, price: Decimal, reader: string)
    ensures CellOf(ApplySide(parse, side, levels, msg), price, reader)
         == if reader != msg.platform then CellOf(levels, price, reader)
            else
              match LastAt(Writes(parse, side, msg), price)
              case Some(size) => Stored(size)
              case None => if msg.messageType.Snapshot? then None else CellOf(levels, price, reader)
  {
    var start := if msg.messageType.Snapshot? then ClearPlatform(levels, msg.platform) else levels;
    CellAfterWrites(start, Writes(parse, side, msg), msg.platform, price, reader);
  }

  // ---------------------------------------------------------------------------
  // The same, read off the entries of the message
  // ---------------------------------------------------------------------------

  /** The entry can be read and gives this price a nonzero size. */
  predicate GivesSize(parse: Parser, entry: PriceLevel, price: Decimal) {
    parse(entry.price) == Some(price) && parse(entry.size).Some? && parse(entry.size).value != 0.0
  }

  /** This size has been set for the platform at this price, zero meaning none; all other cells are as before. */
  ghost predicate OneCellSet(before: Levels, after: Levels, price: Decimal, platform: string, size: Decimal) {
    forall at, reader ::
      CellOf(after, at, reader)
        == if at == price && reader == platform then (if size == 0.0 then None else Some(size))
           else CellOf(before, at, reader)
  }

  lemma WriteSetsOneCell(levels: Levels, w: Write, platform: string)
    ensures OneCellSet(levels, ApplyWrites(levels, [w], platform), w.price, platform, w.size)
  {
    assert [w][..0] == [];
  }

  /** The update can be read and is about this side and price. */
  predicate UpdatesCell(parse: Parser, update: Update, side: Side, price: Decimal) {
    update.side == side && parse(update.price) == Some(price) && parse(update.size).Some?
  }

  /** The size in the last entry that gives this price a nonzero size. */
  function SaidBySnapshot(parse: Parser, listed: seq<PriceLevel>, price: Decimal): Option<Decimal> {
    if listed == [] then None
    else
      var entry, older := listed[|listed| - 1], listed[..|listed| - 1];
      var size := parse(entry.size);
      if parse(entry.price) == Some(price) && size.Some? && size.value != 0.0 then size
      else SaidBySnapshot(parse, older, price)
  }

  /** The size in the last update of the side that can be read and is about this price. */
  function SaidByDelta(parse: Parser, updates: seq<Update>, side: Side, price: Decimal): Option<Decimal> {
    if updates == [] then None
    else
      var update, older := updates[|updates| - 1], updates[..|updates| - 1];
      var size := parse(update.size);
      if update.side == side && parse(update.price) == Some(price) && size.Some? then size
      else SaidByDelta(parse, older, side, price)
  }

  /** The size that a message gives its platform at a price, if it says anything about it. */
  function Said(parse: Parser, side: Side, msg: Message, price: Decimal): Option<Decimal> {
    match msg.messageType
    case Snapshot => SaidBySnapshot(parse, OrEmpty(if side.Buy? then msg.bids else msg.asks), price)
    case Delta => SaidByDelta(parse, OrEmpty(msg.updates), side, price)
  }

  lemma LastAtAppend(first: seq<Write>, second: seq<Write>, price: Decimal)
    requires |second| <= 1
    ensures LastAt(first + second, price)
         == if second != [] && second[0].price == price then Some(second[0].size) else LastAt(first, price)
  {
    if second == [] {
      assert first + second == first;
    } else {
      assert (first + second)[..|first|] == first;
    }
  }

  lemma LevelSays(parse: Parser, ws: seq<Write>, entry: PriceLevel, price: Decimal)
    ensures LastAt(ws + LevelWrite(parse, entry), price)
         == if GivesSize(parse, entry, price) then parse(entry.size) else LastAt(ws, price)
  {
    LastAtAppend(ws, LevelWrite(parse, entry), price);
  }

  lemma UpdateSays(parse: Parser, side: Side, ws: seq<Write>, update: Update, price: Decimal)
    ensures LastAt(ws + UpdateWrite(parse, side, update), price)
         == if UpdatesCell(parse, update, side, price) then parse(update.size) else LastAt(ws, price)
  {
    LastAtAppend(ws, UpdateWrite(parse, side, update), price);
  }

  lemma {:induction false} SnapshotWritesSay(parse: Parser, listed: seq<PriceLevel>, price: Decimal)
    ensures LastAt(SnapshotWrites(parse, listed), price) == SaidBySnapshot(parse, listed, price)
  {
    if listed != [] {
      var front, last := listed[..|listed| - 1], listed[|listed| - 1];
      SnapshotWritesSay(parse, front, price);
      LevelSays(parse, SnapshotWrites(parse, front), last, price);
    }
  }

  lemma {:induction false} DeltaWritesSay(parse: Parser, side: Side, updates: seq<Update>, price: Decimal)
    ensures LastAt(DeltaWrites(parse, side, updates), price) == SaidByDelta(parse, updates, side, price)
  {
    if updates != [] {
      var front, last := updates[..|updates| - 1], updates[|updates| - 1];
      DeltaWritesSay(parse, side, front, price);
      UpdateSays(parse, side, DeltaWrites(parse, side, front), last, price);
    }
  }

  lemma WritesSay(parse: Parser, side: Side, msg: Message, price: Decimal)
    ensures LastAt(Writes(parse, side, msg), price) == Said(parse, side, msg, price)
  {
    match msg.messageType {
      case Snapshot => SnapshotWritesSay(parse, msg.Listed(side), price);
      case Delta => DeltaWritesSay(parse, side, OrEmpty(msg.updates), price);
    }
  }

  /** What a cell holds after a message that arrives when it holds `before`. */
  function CellTold(
    parse: Parser, side: Side, before: Option<Decimal>, msg: Message, price: Decimal, reader: string): Option<Decimal>
  {
    if reader != msg.platform then before
    else
      match Said(parse, side, msg, price)
      case Some(size) => if size == 0.0 then None else Some(size)
      case None => if msg.messageType.Snapshot? then None else before
  }

  /** Every cell of the side holds what the entries of the message say. */
  ghost predicate Told(parse: Parser, side: Side, before: Levels, msg: Message, after: Levels) {
    forall price, reader ::
      CellOf(after, price, reader) == CellTold(parse, side, CellOf(before, price, reader), msg, price, reader)
  }

  lemma WrittenIsTold(parse: Parser, side: Side, levels: Levels, msg: Message)
    ensures Told(parse, side, levels, msg, Written(parse, side, levels, msg))
    ensures Told(parse, side, levels, msg, ApplySide(parse, side, levels, msg))
  {
    forall price, reader
      ensures CellOf(ApplySide(parse, side, levels, msg), price, reader)
           == CellTold(parse, side, CellOf(levels, price, reader), msg, price, reader)
      ensures CellOf(Written(parse, side, levels, msg), price, reader)
           == CellTold(parse, side, CellOf(levels, price, reader), msg, price, reader)
    {
      CellAfterMessage(parse, side, levels, msg, price, reader);
      WritesSay(parse, side, msg, price);
    }
  }

  /** Entry `i` gives this price this nonzero size, and no later entry gives it a nonzero size. */
  predicate EntryDecides(parse: Parser, listed: seq<PriceLevel>, price: Decimal, size: Decimal, i: nat) {
    && i < |listed|
    && parse(listed[i].price) == Some(price) && parse(listed[i].size) == Some(size) && size != 0.0
    && forall j :: i < j < |listed| ==> !GivesSize(parse, listed[j], price)
  }

  lemma {:induction false} SaidBySnapshotIff(parse: Parser, listed: seq<PriceLevel>, price: Decimal, size: Decimal)
    ensures SaidBySnapshot(parse, listed, price) == Some(size)
      <==> exists i :: EntryDecides(parse, listed, price, size, i)
  {
    if listed != [] {
      var front, last := listed[..|listed| - 1], listed[|listed| - 1];
      SaidBySnapshotIff(parse, front, price, size);
      if GivesSize(parse, last, price) {
        assert parse(last.size) == Some(size) ==> EntryDecides(parse, listed, price, size, |listed| - 1);
      } else {
        if i :| EntryDecides(parse, front, price, size, i) {
          assert EntryDecides(parse, listed, price, size, i);
        }
        if i :| EntryDecides(parse, listed, price, size, i) {
          assert EntryDecides(parse, front, price, size, i);
        }
      }
    }
  }

  lemma {:induction false} SaidIsNonZero(parse: Parser, listed: seq<PriceLevel>, price: Decimal)
    ensures SaidBySnapshot(parse, listed, price) != Some(0.0)
  {
    if listed != [] {
      SaidIsNonZero(parse, listed[..|listed| - 1], price);
    }
  }

  /**
   * After a snapshot its platform holds exactly the sizes listed: at each price the last nonzero one that can be
   * read, and nothing where there is none.
   */
  lemma SnapshotCell(parse: Parser, side: Side, levels: Levels, msg: Message, price: Decimal, size: Decimal)
    requires msg.messageType.Snapshot?
    ensures side.Buy? ==>
      (CellOf(ApplySide(parse, side, levels, msg), price, msg.platform) == Some(size)
       <==> exists i :: EntryDecides(parse, OrEmpty(msg.bids), price, size, i))
    ensures side.Sell? ==>
      (CellOf(ApplySide(parse, side, levels, msg), price, msg.platform) == Some(size)
       <==> exists i :: EntryDecides(parse, OrEmpty(msg.asks), price, size, i))
  {
    var listed := OrEmpty(if side.Buy? then msg.bids else msg.asks);
    WrittenIsTold(parse, side, levels, msg);
    SaidBySnapshotIff(parse, listed, price, size);
    SaidIsNonZero(parse, listed, price);
  }

  /** Update `i` is of this side, gives this price this size, and no later readable update is about them. */
  predicate UpdateDecides(parse: Parser, updates: seq<Update>, side: Side, price: Decimal, size: Decimal, i: nat) {
    && i < |updates|
    && updates[i].side == side && parse(updates[i].price) == Some(price) && parse(updates[i].size) == Some(size)
    && forall j :: i < j < |updates| ==> !UpdatesCell(parse, updates[j], side, price)
  }

  lemma {:induction false} SaidByDeltaIff(
    parse: Parser, updates: seq<Update>, side: Side, price: Decimal, size: Decimal)
    ensures SaidByDelta(parse, updates, side, price) == Some(size)
      <==> exists i :: UpdateDecides(parse, updates, side, price, size, i)
  {
    if updates != [] {
      var front, last := updates[..|updates| - 1], updates[|updates| - 1];
      SaidByDeltaIff(parse, front, side, price, size);
      if UpdatesCell(parse, last, side, price) {
        assert parse(last.size) == Some(size) ==> UpdateDecides(parse, updates, side, price, size, |updates| - 1);
      } else {
        if i :| UpdateDecides(parse, front, side, price, size, i) {
          assert UpdateDecides(parse, updates, side, price, size, i);
        }
        if i :| UpdateDecides(parse, updates, side, price, size, i) {
          assert UpdateDecides(parse, front, side, price, size, i);
        }
      }
    }
  }

  /** After a delta the last readable update decides; zero removes; a cell no update is about stays. */
  lemma DeltaCell(parse: Parser, side: Side, levels: Levels, msg: Message, price: Decimal)
    requires msg.messageType.Delta?
    ensures var cell, updates :=
        CellOf(ApplySide(parse, side, levels, msg), price, msg.platform), OrEmpty(msg.updates);
      && (forall i, size :: UpdateDecides(parse, updates, side, price, size, i) ==>
           cell == if size == 0.0 then None else Some(size))
      && ((forall i, size :: !UpdateDecides(parse, updates, side, price, size, i)) ==>
           cell == CellOf(levels, price, msg.platform))
  {
    var updates := OrEmpty(msg.updates);
    WrittenIsTold(parse, side, levels, msg);
    forall size
      ensures SaidByDelta(parse, updates, side, price) == Some(size)
        <==> exists i :: UpdateDecides(parse, updates, side, price, size, i)
    {
      SaidByDeltaIff(parse, updates, side, price, size);
    }
  }

  /** A message leaves every other platform's cells alone. */
  lemma OthersKeepCells(parse: Parser, side: Side, levels: Levels, msg: Message, price: Decimal, reader: string)
    requires reader != msg.platform
    ensures CellOf(ApplySide(parse, side, levels, msg), price, reader) == CellOf(levels, price, reader)
  {
    CellAfterMessage(parse, side, levels, msg, price, reader);
  }

  // ---------------------------------------------------------------------------
  // Cleanliness
  // ---------------------------------------------------------------------------

  lemma {:induction false} WritesKeepNonZero(levels: Levels, ws: seq<Write>, platform: string)
    requires forall price, p :: CellOf(levels, price, p) != Some(0.0)
    ensures forall price, p :: CellOf(ApplyWrites(levels, ws, platform), price, p) != Some(0.0)
  {
    forall price, p
      ensures CellOf(ApplyWrites(levels, ws, platform), price, p) != Some(0.0)
    {
      CellAfterWrites(levels, ws, platform, price, p);
    }
  }

  /** No message leaves an empty level or a zero size behind. */
  lemma MessageKeepsClean(parse: Parser, side: Side, levels: Levels, msg: Message)
    requires Clean(levels)
    ensures Clean(ApplySide(parse, side, levels, msg))
  {
    var start := if msg.messageType.Snapshot? then ClearPlatform(levels, msg.platform) else levels;
    assert forall price, p :: CellOf(start, price, p) != Some(0.0);
    WritesKeepNonZero(start, Writes(parse, side, msg), msg.platform);
    var after := Written(parse, side, levels, msg);
    forall price, p | price in after && p in after[price]
      ensures after[price][p] != 0.0
    {
      assert CellOf(after, price, p) != Some(0.0);
    }
  }

  lemma {:induction false} RunIsClean(parse: Parser, side: Side, history: seq<Message>)
    ensures Clean(RunSide(parse, side, history))
  {
    if history != [] {
      RunIsClean(parse, side, history[..|history| - 1]);
      MessageKeepsClean(parse, side, RunSide(parse, side, history[..|history| - 1]), history[|history| - 1]);
    }
  }

  // ---------------------------------------------------------------------------
  // Where sizes come from
  // ---------------------------------------------------------------------------

  lemma {:induction false} SnapshotWritesReadable(parse: Parser, listed: seq<PriceLevel>)
    ensures forall i :: 0 <= i < |SnapshotWrites(parse, listed)| ==>
      Readable(parse, SnapshotWrites(parse, listed)[i].size)
  {
    if listed != [] {
      SnapshotWritesReadable(parse, listed[..|listed| - 1]);
    }
  }

  lemma {:induction false} DeltaWritesReadable(parse: Parser, side: Side, updates: seq<Update>)
    ensures forall i :: 0 <= i < |DeltaWrites(parse, side, updates)| ==>
      Readable(parse, DeltaWrites(parse, side, updates)[i].size)
  {
    if updates != [] {
      DeltaWritesReadable(parse, side, updates[..|updates| - 1]);
    }
  }

  lemma {:induction false} LastAtIsWritten(ws: seq<Write>, price: Decimal)
    requires LastAt(ws, price).Some?
    ensures exists i :: 0 <= i < |ws| && ws[i] == Write(price, LastAt(ws, price).value)
  {
    var front, last := ws[..|ws| - 1], ws[|ws| - 1];
    if last.price != price {
      LastAtIsWritten(front, price);
      var i :| 0 <= i < |front| && front[i] == Write(price, LastAt(front, price).value);
      assert ws[i] == front[i];
    }
  }

  /** Every size on a side was read from the text of some message. */
  lemma {:induction false} SizesAreReadable(
    parse: Parser, side: Side, history: seq<Message>, price: Decimal, platform: string)
    requires CellOf(RunSide(parse, side, history), price, platform).Some?
    ensures Readable(parse, CellOf(RunSide(parse, side, history), price, platform).value)
  {
    var older, msg := history[..|history| - 1], history[|history| - 1];
    var ws := Writes(parse, side, msg);
    CellAfterMessage(parse, side, RunSide(parse, side, older), msg, price, platform);
    if msg.platform == platform && LastAt(ws, price).Some? {
      LastAtIsWritten(ws, price);
      SnapshotWritesReadable(parse, msg.Listed(side));
      DeltaWritesReadable(parse, side, OrEmpty(msg.updates));
    } else {
      SizesAreReadable(parse, side, older, price, platform);
    }
  }

  // ---------------------------------------------------------------------------
  // Cells determine a side
  // ---------------------------------------------------------------------------

  lemma LevelsAgree(a: Levels, b: Levels, price: Decimal)
    requires Clean(a) && Clean(b) && price in a
    requires forall p :: CellOf(a, price, p) == CellOf(b, price, p)
    ensures price in b && a[price] == b[price]
  {
    var witnessPlatform :| witnessPlatform in a[price];
    assert CellOf(a, price, witnessPlatform) == CellOf(b, price, witnessPlatform);
    forall p
      ensures p in a[price] <==> p in b[price]
      ensures p in a[price] ==> a[price][p] == b[price][p]
    {
      assert CellOf(a, price, p) == CellOf(b, price, p);
    }
  }

  /** A clean side is determined by its cells. */
  lemma CellsDetermine(a: Levels, b: Levels)
    requires Clean(a) && Clean(b)
    requires forall price, p :: CellOf(a, price, p) == CellOf(b, price, p)
    ensures a == b
  {
    forall price | price in a
      ensures price in b && a[price] == b[price]
    {
      LevelsAgree(a, b, price);
    }
    forall price | price in b
      ensures price in a
    {
      LevelsAgree(b, a, price);
    }
  }
}
