// What a book holds, told from the message history alone: last writes,
// independence of platform interleaving, and erasure of history by snapshots.

module History {
  import opened Prelude
  import opened Schema
  import opened Levels

  /**
   * Reads a cell off the history, newest message first: only the cell's own platform matters,
   * the newest write wins, and a snapshot hides everything older than itself.
   */
  function LastWrite(
    parse: Parser, history: seq<Message>, side: Side, price: Decimal, platform: string): Option<Decimal>
  {
    if history == [] then None
    else
      var msg := history[|history| - 1];
      var older := history[..|history| - 1];
      if msg.platform != platform then LastWrite(parse, older, side, price, platform)
      else
        match Said(parse, side, msg, price)
        case Some(size) => if size == 0.0 then None else Some(size)
        case None => if msg.messageType.Snapshot? then None else LastWrite(parse, older, side, price, platform)
  }

  lemma LastWriteStep(
    parse: Parser, older: seq<Message>, msg: Message, side: Side, price: Decimal, platform: string)
    ensures LastWrite(parse, older + [msg], side, price, platform)
         == if msg.platform != platform then LastWrite(parse, older, side, price, platform)
            else
              match Said(parse, side, msg, price)
              case Some(size) => if size == 0.0 then None else Some(size)
              case None =>
                if msg.messageType.Snapshot? then None else LastWrite(parse, older, side, price, platform)
  {
    assert (older + [msg])[..|older + [msg]| - 1] == older;
  }

  lemma {:induction false} RunRefinesLastWrite(
    parse: Parser, history: seq<Message>, side: Side, price: Decimal, platform: string)
    ensures CellOf(RunSide(parse, side, history), price, platform) == LastWrite(parse, history, side, price, platform)
  {
    if history != [] {
      var older := history[..|history| - 1];
      RunRefinesLastWrite(parse, older, side, price, platform);
      WrittenIsTold(parse, side, RunSide(parse, side, older), history[|history| - 1]);
    }
  }

  // ---------------------------------------------------------------------------
  // Interleaving
  // ---------------------------------------------------------------------------

  /** The stream of one platform, in order. */
  function Stream(history: seq<Message>, platform: string): seq<Message> {
    if history == [] then []
    else
      var older := Stream(history[..|history| - 1], platform);
      if history[|history| - 1].platform == platform then older + [history[|history| - 1]] else older
  }

  lemma {:induction false} LastWriteOfStream(
    parse: Parser, history: seq<Message>, side: Side, price: Decimal, platform: string)
    ensures LastWrite(parse, history, side, price, platform)
         == LastWrite(parse, Stream(history, platform), side, price, platform)
  {
    if history != [] {
      var older := history[..|history| - 1];
      LastWriteOfStream(parse, older, side, price, platform);
      LastWriteStep(parse, Stream(older, platform), history[|history| - 1], side, price, platform);
    }
  }

  ghost predicate SameStreams(h1: seq<Message>, h2: seq<Message>) {
    forall platform :: Stream(h1, platform) == Stream(h2, platform)
  }

  /** Two interleavings of the same platform streams build the same side. */
  lemma InterleavingIndependence(parse: Parser, side: Side, h1: seq<Message>, h2: seq<Message>)
    requires SameStreams(h1, h2)
    ensures RunSide(parse, side, h1) == RunSide(parse, side, h2)
  {
    forall price, platform
      ensures CellOf(RunSide(parse, side, h1), price, platform) == CellOf(RunSide(parse, side, h2), price, platform)
    {
      RunRefinesLastWrite(parse, h1, side, price, platform);
      RunRefinesLastWrite(parse, h2, side, price, platform);
      LastWriteOfStream(parse, h1, side, price, platform);
      LastWriteOfStream(parse, h2, side, price, platform);
    }
    RunIsClean(parse, side, h1);
    RunIsClean(parse, side, h2);
    CellsDetermine(RunSide(parse, side, h1), RunSide(parse, side, h2));
  }

  function Contributors(history: seq<Message>): set<string> {
    set msg | msg in history :: msg.platform
  }

  /** The prices at which some book of a family has a level. */
  function Prices(family: map<string, Levels>): set<Decimal> {
    set platform, price | platform in family && price in family[platform] :: price
  }

  function MergedSizes(family: map<string, Levels>, price: Decimal): PlatformSizes {
    map platform | platform in family && CellOf(family[platform], price, platform).Some? ::
      CellOf(family[platform], price, platform).value
  }

  /** The pointwise merge of single-platform books: each platform's cells come from its own book. */
  function Merge(family: map<string, Levels>): Levels {
    DropEmpty(map price | price in Prices(family) :: MergedSizes(family, price))
  }

  function SoloBooks(parse: Parser, side: Side, history: seq<Message>): map<string, Levels> {
    map platform | platform in Contributors(history) :: RunSide(parse, side, Stream(history, platform))
  }

  lemma CellOfMerge(family: map<string, Levels>, price: Decimal, platform: string)
    ensures CellOf(Merge(family), price, platform)
         == if platform in family then CellOf(family[platform], price, platform) else None
  {
    if platform in family && CellOf(family[platform], price, platform).Some? {
      assert price in Prices(family);
      assert platform in MergedSizes(family, price);
      assert price in Merge(family);
    }
  }

  lemma {:induction false} SilentPlatform(
    parse: Parser, history: seq<Message>, side: Side, price: Decimal, platform: string)
    requires platform !in Contributors(history)
    ensures LastWrite(parse, history, side, price, platform) == None
  {
    if history != [] {
      assert history[|history| - 1] in history;
      SilentPlatform(parse, history[..|history| - 1], side, price, platform);
    }
  }

  /** The aggregated side is the merge of the sides each platform would build on its own. */
  lemma BookIsMergeOfSoloBooks(parse: Parser, side: Side, history: seq<Message>)
    ensures RunSide(parse, side, history) == Merge(SoloBooks(parse, side, history))
  {
    var book, solo := RunSide(parse, side, history), SoloBooks(parse, side, history);
    forall price, platform
      ensures CellOf(book, price, platform) == CellOf(Merge(solo), price, platform)
    {
      CellOfMerge(solo, price, platform);
      RunRefinesLastWrite(parse, history, side, price, platform);
      if platform in solo {
        LastWriteOfStream(parse, history, side, price, platform);
        RunRefinesLastWrite(parse, Stream(history, platform), side, price, platform);
      } else {
        SilentPlatform(parse, history, side, price, platform);
      }
    }
    RunIsClean(parse, side, history);
    forall price, platform | price in Merge(solo) && platform in Merge(solo)[price]
      ensures Merge(solo)[price][platform] != 0.0
    {
      RunIsClean(parse, side, Stream(history, platform));
    }
    CellsDetermine(book, Merge(solo));
  }

  // ---------------------------------------------------------------------------
  // Erasure
  // ---------------------------------------------------------------------------

  function Without(history: seq<Message>, platform: string): seq<Message> {
    if history == [] then []
    else
      var older := Without(history[..|history| - 1], platform);
      if history[|history| - 1].platform == platform then older else older + [history[|history| - 1]]
  }

  /** Drops every message of a platform that is older than its newest snapshot. */
  function Forget(history: seq<Message>, platform: string): seq<Message> {
    if history == [] then []
    else
      var msg := history[|history| - 1];
      var older := history[..|history| - 1];
      if msg.platform == platform && msg.messageType.Snapshot? then Without(older, platform) + [msg]
      else Forget(older, platform) + [msg]
  }

  lemma {:induction false} WithoutOthers(
    parse: Parser, history: seq<Message>, gone: string, side: Side, price: Decimal, platform: string)
    requires platform != gone
    ensures LastWrite(parse, Without(history, gone), side, price, platform)
         == LastWrite(parse, history, side, price, platform)
  {
    if history != [] {
      var older := history[..|history| - 1];
      WithoutOthers(parse, older, gone, side, price, platform);
      LastWriteStep(parse, Without(older, gone), history[|history| - 1], side, price, platform);
    }
  }

  lemma {:induction false} ForgetKeepsLastWrite(
    parse: Parser, history: seq<Message>, forgotten: string, side: Side, price: Decimal, platform: string)
    ensures LastWrite(parse, Forget(history, forgotten), side, price, platform)
         == LastWrite(parse, history, side, price, platform)
  {
    if history != [] {
      var msg, older := history[|history| - 1], history[..|history| - 1];
      if msg.platform == forgotten && msg.messageType.Snapshot? {
        LastWriteStep(parse, Without(older, forgotten), msg, side, price, platform);
        if platform != forgotten {
          WithoutOthers(parse, older, forgotten, side, price, platform);
        }
      } else {
        LastWriteStep(parse, Forget(older, forgotten), msg, side, price, platform);
        ForgetKeepsLastWrite(parse, older, forgotten, side, price, platform);
      }
    }
  }

  /** A snapshot makes everything its platform sent before it irrelevant. */
  lemma SnapshotErasesHistory(parse: Parser, side: Side, history: seq<Message>, platform: string)
    ensures RunSide(parse, side, Forget(history, platform)) == RunSide(parse, side, history)
  {
    var kept := Forget(history, platform);
    forall price, p
      ensures CellOf(RunSide(parse, side, kept), price, p) == CellOf(RunSide(parse, side, history), price, p)
    {
      RunRefinesLastWrite(parse, kept, side, price, p);
      RunRefinesLastWrite(parse, history, side, price, p);
      ForgetKeepsLastWrite(parse, history, platform, side, price, p);
    }
    RunIsClean(parse, side, kept);
    RunIsClean(parse, side, history);
    CellsDetermine(RunSide(parse, side, kept), RunSide(parse, side, history));
  }

  lemma {:induction false} WithoutHasNone(history: seq<Message>, platform: string)
    ensures Stream(Without(history, platform), platform) == []
  {
    if history != [] {
      var older := history[..|history| - 1];
      WithoutHasNone(older, platform);
      if history[|history| - 1].platform != platform {
        var kept := Without(history, platform);
        assert kept[..|kept| - 1] == Without(older, platform);
      }
    }
  }

  /** Forgetting leaves of that platform only its newest snapshot and what followed it. */
  lemma {:induction false} ForgetLeavesOneEpoch(history: seq<Message>, platform: string)
    ensures forall i :: 1 <= i < |Stream(Forget(history, platform), platform)| ==>
      Stream(Forget(history, platform), platform)[i].messageType.Delta?
  {
    if history != [] {
      var msg, older := history[|history| - 1], history[..|history| - 1];
      var kept := Forget(history, platform);
      if msg.platform == platform && msg.messageType.Snapshot? {
        assert kept[..|kept| - 1] == Without(older, platform);
        WithoutHasNone(older, platform);
      } else {
        assert kept[..|kept| - 1] == Forget(older, platform);
        ForgetLeavesOneEpoch(older, platform);
      }
    }
  }
}
