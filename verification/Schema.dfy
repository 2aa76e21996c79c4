// The normalized message schema shared by the adapter, the order book and the feed.

module Schema {
  import opened Prelude
  import opened Decimals

  datatype Side = Buy | Sell

  /** Prices and sizes travel as text. */
  datatype PriceLevel = PriceLevel(price: string, size: string)

  datatype Update = Update(side: Side, price: string, size: string)

  datatype MessageType = Snapshot | Delta

  datatype Message = Message(
    platform: string,
    assetId: string,
    marketId: string,
    messageType: MessageType,
    bids: Option<seq<PriceLevel>>,
    asks: Option<seq<PriceLevel>>,
    updates: Option<seq<Update>>)
  {
    function Listed(side: Side): seq<PriceLevel> {
      OrEmpty(if side.Buy? then bids else asks)
    }
  }

  /** The decimal library's text conversions, which are not part of this model. */
  type Parser = string -> Option<Decimal>

  /** Some text stands for this decimal. */
  ghost predicate Readable(parse: Parser, d: Decimal) {
    exists text :: parse(text) == Some(d)
  }

  datatype Codec = Codec(parse: Parser, show: Decimal -> string) {
    /** Printing a decimal that was read from text and reading it back gives the same decimal. */
    ghost predicate Faithful() {
      forall d :: Readable(parse, d) ==> parse(show(d)) == Some(d)
    }
  }

  /** Text conversions for whole numbers. */
  const NATURALS := Codec(
    text => if AllDigits(text) then Some(ValueOf(text) as Decimal) else None,
    d => if d < 0.0 then "" else Digits(d.Floor))

  /** The assumption on text conversions can be met. */
  lemma NaturalsAreFaithful()
    ensures NATURALS.Faithful()
    ensures forall n: nat :: NATURALS.parse(Digits(n)) == Some(n as Decimal)
  {
    forall n: nat
      ensures NATURALS.parse(Digits(n)) == Some(n as Decimal)
    {
      ValueOfDigits(n);
    }
    forall d | Readable(NATURALS.parse, d)
      ensures NATURALS.parse(NATURALS.show(d)) == Some(d)
    {
      var text :| NATURALS.parse(text) == Some(d);
      ValueOfDigits(ValueOf(text));
    }
  }
}
