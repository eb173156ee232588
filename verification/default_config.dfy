/** The built-in configuration: lifetime and year-to-date giving rolled up from gifts to people. */
module DefaultConfig {
  import opened Wrappers
  import opened JsonValue
  import opened RollupConfig

  /** Gifts dated on or after the first instant of the current UTC year. */
  const YearToDateFilter := FilterConfig("giftDate", Gte, Undef, Some(StartOfYear))

  /** Only gifts with a positive amount count. */
  const PositiveAmountFilter := FilterConfig("amount.amountMicros", Gt, Num(0.0), None)

  const GiftAggregations: seq<AggregationConfig> := [
    AggregationConfig(Sum, "lifetimeGiftAmount", "amount.amountMicros", Some("amount.currencyCode"), []),
    AggregationConfig(Count, "lifetimeGiftCount", "", None, []),
    AggregationConfig(Max, "lastGiftDate", "giftDate", None, []),
    AggregationConfig(Min, "firstGiftDate", "giftDate", None, []),
    AggregationConfig(Sum, "yearToDateGiftAmount", "amount.amountMicros", Some("amount.currencyCode"), [YearToDateFilter]),
    AggregationConfig(Count, "yearToDateGiftCount", "", None, [YearToDateFilter])]

  /** People, rolled up from the gifts whose `donorId` names them. */
  const GiftDefinition :=
    RollupDefinition("person", "gift", "donorId", [PositiveAmountFilter], GiftAggregations)

  const DefaultRollupConfig: Config := [GiftDefinition]

  /** The default configuration as the JSON value it is written as. */
  const DefaultRollupConfigJson: Value := EncodeConfig(DefaultRollupConfig)

  lemma NamesNotBlank()
    ensures !IsBlank("person") && !IsBlank("gift") && !IsBlank("donorId") && !IsBlank("giftDate")
    ensures !IsBlank("amount.amountMicros") && !IsBlank("lifetimeGiftAmount") && !IsBlank("lifetimeGiftCount")
    ensures !IsBlank("lastGiftDate") && !IsBlank("firstGiftDate")
    ensures !IsBlank("yearToDateGiftAmount") && !IsBlank("yearToDateGiftCount")
  {
    assert !IsWhiteSpace("person"[0]) && !IsWhiteSpace("gift"[0]) && !IsWhiteSpace("donorId"[0]);
    assert !IsWhiteSpace("giftDate"[0]) && !IsWhiteSpace("amount.amountMicros"[0]);
    assert !IsWhiteSpace("lifetimeGiftAmount"[0]) && !IsWhiteSpace("lifetimeGiftCount"[0]);
    assert !IsWhiteSpace("lastGiftDate"[0]) && !IsWhiteSpace("firstGiftDate"[0]);
    assert !IsWhiteSpace("yearToDateGiftAmount"[0]) && !IsWhiteSpace("yearToDateGiftCount"[0]);
  }

  /**
   * The default configuration passes `validateRollupConfig`, reads back as the single
   * person-from-gift definition with its six aggregations, and is what runs when no
   * override is set.
   */
  lemma DefaultConfigAccepted(parse: string -> Option<Value>)
    ensures ValidateRollupConfig(DefaultRollupConfigJson) == Accept
    ensures DecodeConfig(DefaultRollupConfigJson) == Some(DefaultRollupConfig)
    ensures ResolveRollupConfig(Environment(None, None, None), parse, DefaultRollupConfigJson)
         == Success(DefaultRollupConfig)
  {
    NamesNotBlank();
    assert ValidAggregation(GiftAggregations[4]);
    assert ValidAggregation(GiftAggregations[5]);
    assert ValidDefinition(GiftDefinition);
    EncodeConfigRoundTrip(DefaultRollupConfig);
  }
}
