/**
 The consumer price of one hour, in DKK/kWh: the spot price converted from
 DKK/MWh, plus the state electricity tax, the supplier fee and the grid
 tariff of the hour, all with 25% VAT on top. Exact rational arithmetic.
 */
module Pricing {
  import opened Tariffs

  /** The state electricity tax ("elafgift"), DKK/kWh. */
  const StateTariff: real := 0.7610
  /** The supplier's fixed fee, DKK/kWh. */
  const SupplierFee: real := 0.0975
  /** 25% VAT as a factor. */
  const VatFactor: real := 1.25

  /**
   The handler's running total for a spot price (DKK/MWh) at a UTC month and
   hour, step by step as the source accumulates it.
   */
  function ConsumerPrice(spotDKK: real, month: int, hour: int): (p: real)
    ensures 0 <= hour < 24 ==>
      p == (spotDKK / 1000.0 + 0.7610 + 0.0975 + Rate(TariffsFor(month), BracketOf(hour))) * 1.25
    ensures hour == 24 ==> p == (spotDKK / 1000.0 + 0.7610 + 0.0975 + TariffsFor(month).high) * 1.25
    ensures hour < 0 || hour > 24 ==> p == (spotDKK / 1000.0 + 0.7610 + 0.0975) * 1.25
  {
    var perKwh := spotDKK / 1000.0;
    var withTax := perKwh + StateTariff;
    var withFee := withTax + SupplierFee;
    var tariffs := TariffsFor(month);
    var withLow := withFee + ArmRate(Night, hour, tariffs);
    var withHigh := withLow + ArmRate(Day, hour, tariffs);
    var withPeak := withHigh + ArmRate(Evening, hour, tariffs);
    var withLate := withPeak + ArmRate(Late, hour, tariffs);
    withLate * VatFactor
  }

  /** For a fixed month and hour the price strictly increases with the spot price. */
  lemma PriceStrictlyIncreasing(spot1: real, spot2: real, month: int, hour: int)
    requires spot1 < spot2
    ensures ConsumerPrice(spot1, month, hour) < ConsumerPrice(spot2, month, hour)
  {
  }

  /** Each extra DKK/MWh of spot price costs the consumer 1.25/1000 DKK/kWh. */
  lemma PriceSlope(spot1: real, spot2: real, month: int, hour: int)
    ensures ConsumerPrice(spot2, month, hour) - ConsumerPrice(spot1, month, hour)
      == (spot2 - spot1) * 1.25 / 1000.0
  {
  }

  /**
   At the same spot price and hour of the day, a winter month is never cheaper
   than a summer month, and they cost the same exactly in the low-rate hours.
   */
  lemma WinterPriceNotBelowSummer(spotDKK: real, summerMonth: int, winterMonth: int, hour: int)
    requires 4 <= summerMonth <= 9
    requires !(4 <= winterMonth <= 9)
    requires 0 <= hour < 24
    ensures ConsumerPrice(spotDKK, winterMonth, hour) >= ConsumerPrice(spotDKK, summerMonth, hour)
    ensures ConsumerPrice(spotDKK, winterMonth, hour) == ConsumerPrice(spotDKK, summerMonth, hour)
      <==> hour < 6
  {
    WinterNotCheaperThanSummer(BracketOf(hour));
  }
}
