// From the order book service through the gateway to a client: which change events reach a subscriber while
// clients come, go and change their subscriptions, and what the subscriber's replica is worth.

module Delivery {
  import opened Prelude
  import opened Schema
  import opened Subjects
  import opened Registry
  import Feed
  import Gateway
  import Levels
  import Store

  // ---------------------------------------------------------------------------
  // Subjects of books
  // ---------------------------------------------------------------------------

  /** The subject under which the gateway routes the events of a book. */
  function SubjectOf(key: Store.Key): string {
    key.marketId + "." + key.assetId
  }

  predicate DotFree(key: Store.Key) {
    '.' !in key.marketId && '.' !in key.assetId
  }

  lemma SubjectSegments(key: Store.Key)
    ensures Split(SubjectOf(key)) == Split(key.marketId) + Split(key.assetId)
    ensures |Split(SubjectOf(key))| == 2 <==> DotFree(key)
    ensures DotFree(key) ==> Split(SubjectOf(key)) == [key.marketId, key.assetId]
  {
    SplitAtDot(key.marketId, key.assetId);
    SingleSegment(key.marketId);
    SingleSegment(key.assetId);
  }

  /** A dot in the text can be taken for the dot between market and asset. */
  lemma DottedTwin(key: Store.Key) returns (twin: Store.Key)
    requires !DotFree(key)
    ensures twin != key && SubjectOf(twin) == SubjectOf(key)
  {
    var market, asset := key.marketId, key.assetId;
    if i :| 0 <= i < |market| && market[i] == '.' {
      twin := Store.Key(market[..i], market[i + 1..] + "." + asset);
      assert market == market[..i] + "." + market[i + 1..];
    } else {
      var i :| 0 <= i < |asset| && asset[i] == '.';
      twin := Store.Key(market + "." + asset[..i], asset[i + 1..]);
      assert asset == asset[..i] + "." + asset[i + 1..];
      assert |twin.marketId| > |market|;
    }
  }

  /** A book shares its subject with another book exactly when one of its ids contains a dot. */
  lemma SubjectIsSharedIff(key: Store.Key)
    ensures (exists other :: other != key && SubjectOf(other) == SubjectOf(key)) <==> !DotFree(key)
  {
    if !DotFree(key) {
      var twin := DottedTwin(key);
    } else {
      forall other | SubjectOf(other) == SubjectOf(key)
        ensures other == key
      {
        SubjectSegments(key);
        SubjectSegments(other);
        assert [key.marketId, key.assetId][0] == other.marketId && [key.marketId, key.assetId][1] == other.assetId;
      }
    }
  }

  lemma PlainSegments(text: string)
    requires !IsWildcardPattern(text)
    ensures forall i :: 0 <= i < |Split(text)| ==> Split(text)[i] != "*" && Split(text)[i] != ">"
  {
    AbsentCharacter(text, '*');
    AbsentCharacter(text, '>');
    assert '*' in "*" && '>' in ">";
  }

  lemma MatchesBelow(segments: seq<string>, subject: seq<string>)
    requires forall i :: 0 <= i < |segments| ==> segments[i] != "*" && segments[i] != ">"
    ensures Matches(segments + [">"], subject) <==> segments < subject
    ensures Matches(segments + ["*"], subject) <==> segments < subject && |subject| == |segments| + 1
  {
    FirstGreedyUnique(segments + [">"], |segments|);
    FirstGreedyUnique(segments + ["*"], |segments| + 1);
    var greedy, star := segments + [">"], segments + ["*"];
    assert forall i :: 0 <= i < |segments| ==> greedy[i] == segments[i] && star[i] == segments[i];
  }

  lemma WildcardSegments(marketId: string)
    ensures Split(marketId + ".>") == Split(marketId) + [">"]
    ensures Split(marketId + ".*") == Split(marketId) + ["*"]
  {
    assert marketId + ".>" == marketId + "." + ">" && marketId + ".*" == marketId + "." + "*";
    SplitAtDot(marketId, ">");
    SplitAtDot(marketId, "*");
    SingleSegment(">");
    SingleSegment("*");
  }

  lemma RestIsOneSegment(prefix: string, text: string)
    requires prefix + "." <= text
    ensures |Split(text)| == |Split(prefix)| + 1 <==> '.' !in text[|prefix| + 1..]
  {
    var rest := text[|prefix| + 1..];
    assert text == prefix + "." + rest;
    SplitAtDot(prefix, rest);
    SingleSegment(rest);
  }

  /**
   * A market wildcard, whatever dots the market id has: the greedy one matches the subjects that begin with the
   * market id and a dot, the star those of them in which no further dot follows.
   */
  lemma MarketWildcard(marketId: string, key: Store.Key)
    requires !IsWildcardPattern(marketId)
    ensures Matches(Split(marketId + ".>"), Split(SubjectOf(key))) <==> marketId + "." <= SubjectOf(key)
    ensures Matches(Split(marketId + ".*"), Split(SubjectOf(key)))
      <==> marketId + "." <= SubjectOf(key) && '.' !in SubjectOf(key)[|marketId| + 1..]
  {
    var subject := SubjectOf(key);
    WildcardSegments(marketId);
    PlainSegments(marketId);
    MatchesBelow(Split(marketId), Split(subject));
    PrefixBySegments(marketId, subject);
    if marketId + "." <= subject {
      RestIsOneSegment(marketId, subject);
    }
  }

  lemma MatchesTwo(first: string, subject: seq<string>)
    requires first != ">"
    ensures Matches([first] + ["*"], subject) <==> |subject| == 2 && SegmentMatches(first, subject[0])
    ensures Matches([first] + [">"], subject) <==> |subject| >= 2 && SegmentMatches(first, subject[0])
  {
    FirstGreedyUnique([first] + ["*"], 2);
    FirstGreedyUnique([first] + [">"], 1);
    assert ([first] + ["*"])[1] == "*";
  }

  /**
   * For a market id without dots: the star matches the books of that market whose ids have no dot, and no others;
   * the greedy wildcard also matches the market's other books, and those of markets whose id goes on with a dot.
   */
  lemma PlainMarketWildcard(marketId: string, key: Store.Key)
    requires '.' !in marketId && marketId != ">"
    ensures Matches(Split(marketId + ".*"), Split(SubjectOf(key)))
      <==> (marketId == "*" || key.marketId == marketId) && DotFree(key)
    ensures Matches(Split(marketId + ".>"), Split(SubjectOf(key)))
      <==> marketId == "*" || Split(key.marketId)[0] == marketId
  {
    WildcardSegments(marketId);
    SingleSegment(marketId);
    SubjectSegments(key);
    MatchesTwo(marketId, Split(SubjectOf(key)));
    SingleSegment(key.marketId);
  }

  /** A client that holds the subject of one book is sent the events of that book and of no other. */
  lemma ReachedIff(r: RegistryValue, id: ClientId, key: Store.Key, other: Store.Key)
    requires Indexed(r) && id in r.held && r.held[id] == {SubjectOf(key)}
    requires DotFree(key) && !IsWildcardPattern(SubjectOf(key))
    ensures id in FastMatching(r, SubjectOf(other)) <==> other == key
  {
    FastLookupIsNaiveScan(r, SubjectOf(other));
    ExactPatternMatchesItself(SubjectOf(key), SubjectOf(other));
    SubjectIsSharedIff(key);
    assert SubjectOf(key) in r.held[id];
  }

  // ---------------------------------------------------------------------------
  // Requests and events in any order
  // ---------------------------------------------------------------------------

  datatype TraceStep = Serve(request: Gateway.Request) | Publish(event: Feed.Event)

  function Requests(trace: seq<TraceStep>): seq<Gateway.Request> {
    if trace == [] then []
    else
      Requests(trace[..|trace| - 1])
        + if trace[|trace| - 1].Serve? then [trace[|trace| - 1].request] else []
  }

  /** The events published after the first `from` steps. */
  function Published(trace: seq<TraceStep>, from: nat): seq<Feed.Event> {
    if |trace| <= from then []
    else
      Published(trace[..|trace| - 1], from)
        + if trace[|trace| - 1].Publish? then [trace[|trace| - 1].event] else []
  }

  lemma TraceMore(trace: seq<TraceStep>, step: TraceStep, from: nat)
    requires from <= |trace|
    ensures Requests(trace + [step]) == Requests(trace) + match step case Serve(r) => [r] case Publish(_) => []
    ensures Published(trace + [step], from)
         == Published(trace, from) + match step case Serve(_) => [] case Publish(event) => [event]
  {
    assert (trace + [step])[..|trace|] == trace;
  }

  function RegistryAfter(trace: seq<TraceStep>): RegistryValue {
    Gateway.RunRequests(Requests(trace))
  }

  /** The events that reach a client after the first `from` steps: each is looked up when it is published. */
  function Delivered(id: ClientId, trace: seq<TraceStep>, from: nat): seq<Feed.Event> {
    if |trace| <= from then []
    else
      var front, last := trace[..|trace| - 1], trace[|trace| - 1];
      Delivered(id, front, from)
        + if last.Publish? && id in FastMatching(RegistryAfter(front), SubjectOf(last.event.key)) then [last.event]
          else []
  }

  /** By its requests so far, the client wants the events of a book. */
  ghost predicate Wants(id: ClientId, key: Store.Key, trace: seq<TraceStep>) {
    exists pattern :: Gateway.AsksFor(Requests(trace), id, pattern, SubjectOf(key))
  }

  /** From that step on, whenever an event of the book is published, the client wants it. */
  ghost predicate ListensTo(id: ClientId, key: Store.Key, trace: seq<TraceStep>, from: nat) {
    if |trace| <= from then true
    else
      var front, last := trace[..|trace| - 1], trace[|trace| - 1];
      ListensTo(id, key, front, from) && (last.Publish? && last.event.key == key ==> Wants(id, key, front))
  }

  /** An event is delivered exactly to those who want it. */
  lemma DeliveredStep(id: ClientId, trace: seq<TraceStep>, from: nat)
    requires from < |trace|
    ensures var front, last := trace[..|trace| - 1], trace[|trace| - 1];
      Delivered(id, trace, from)
        == if last.Publish? && Wants(id, last.event.key, front) then Delivered(id, front, from) + [last.event]
           else Delivered(id, front, from)
  {
    var front, last := trace[..|trace| - 1], trace[|trace| - 1];
    if last.Publish? {
      Gateway.LookupByRequests(Requests(front), id, SubjectOf(last.event.key));
    }
    assert Delivered(id, front, from) + [] == Delivered(id, front, from);
  }

  /**
   * Whatever else the client is sent, whatever other clients do, and whatever happened before: by following the
   * book's events it gets the replica that following the whole feed from that step on would give.
   */
  lemma {:induction false} DeliveredIsOwnFeed(
    parse: Parser, side: Side, id: ClientId, key: Store.Key, start: Levels.Levels, trace: seq<TraceStep>, from: nat)
    requires ListensTo(id, key, trace, from)
    ensures Feed.Follow(parse, side, key, start, Delivered(id, trace, from))
         == Feed.Follow(parse, side, key, start, Published(trace, from))
  {
    if from < |trace| {
      var front, last := trace[..|trace| - 1], trace[|trace| - 1];
      DeliveredIsOwnFeed(parse, side, id, key, start, front, from);
      DeliveredStep(id, trace, from);
      if last.Publish? {
        Feed.FollowStep(parse, side, key, start, Published(front, from), last.event);
        Feed.FollowStep(parse, side, key, start, Delivered(id, front, from), last.event);
      } else {
        assert Published(front, from) + [] == Published(front, from);
      }
    }
  }

  /** From that step on, whenever an event of the book is published, the client does not want it. */
  ghost predicate Ignores(id: ClientId, key: Store.Key, trace: seq<TraceStep>, from: nat) {
    if |trace| <= from then true
    else
      var front, last := trace[..|trace| - 1], trace[|trace| - 1];
      Ignores(id, key, front, from) && (last.Publish? && last.event.key == key ==> !Wants(id, key, front))
  }

  lemma {:induction false} NothingIsDelivered(id: ClientId, key: Store.Key, trace: seq<TraceStep>, from: nat)
    requires Ignores(id, key, trace, from)
    ensures forall i :: 0 <= i < |Delivered(id, trace, from)| ==> Delivered(id, trace, from)[i].key != key
  {
    if from < |trace| {
      var front, last := trace[..|trace| - 1], trace[|trace| - 1];
      NothingIsDelivered(id, key, front, from);
      DeliveredStep(id, trace, from);
    }
  }

  /**
   * End to end: a client joins after the first `joined` messages with the book as it is then, and from that step on
   * listens to it, exactly or by wildcard, among any other subscriptions. The levels it builds contain the book's
   * levels at every price, and are the book's levels exactly where no snapshot has silently dropped one since.
   */
  lemma SubscriberLag(
    codec: Codec, side: Side, id: ClientId, key: Store.Key, trace: seq<TraceStep>, from: nat, history: seq<Message>,
    joined: nat, price: Decimal)
    requires codec.Faithful() && joined <= |history|
    requires ListensTo(id, key, trace, from) && Published(trace, from) == Feed.RunFeed(codec, history, joined)
    ensures var start := Levels.RunSide(codec.parse, side, Store.For(history[..joined], key));
      var mine := Store.For(history, key);
      Feed.Lags(Feed.Follow(codec.parse, side, key, start, Delivered(id, trace, from)),
        Levels.RunSide(codec.parse, side, mine), price,
        Feed.Stale(codec.parse, side, mine, Feed.OwnJoined(history, joined, key), price))
  {
    var start := Levels.RunSide(codec.parse, side, Store.For(history[..joined], key));
    DeliveredIsOwnFeed(codec.parse, side, id, key, start, trace, from);
    Feed.FollowOwnBook(codec, side, key, history, joined, start);
    Feed.ReplicaLag(
      codec, side, key, Store.For(history, key), Feed.OwnJoined(history, joined, key), price);
  }
}
