/**
 The `/` handler's computation: every upstream record becomes one frontend
 entry, in input order, and the list is then reversed. The entries come out
 newest first only when the upstream records arrive oldest first.

 A record whose `HourUTC` does not parse stops the whole request; nothing is
 produced for it or for any other record.
 */
module Handler {
  import opened Wrappers
  import opened Timestamp
  import opened Tariffs
  import opened Pricing
  import opened Batch

  /** One upstream record; `spotPriceDKK` is in DKK/MWh. */
  datatype HourlyPrice = HourlyPrice(
    hourUTC: string,
    hourDK: string,
    priceArea: string,
    spotPriceDKK: real,
    spotPriceEUR: real)

  /** One entry of the response: the start of the hour (UTC) and the consumer price in DKK/kWh. */
  datatype FrontendHourlyPrice = FrontendHourlyPrice(startTime: DateTime, price: real)

  /** Why a request fails: the `HourUTC` text of the record that did not parse. */
  datatype TransformError = BadTimestamp(hourUTC: string)

  /** The entry for one record, or `None` when its timestamp does not parse. */
  function PriceRecord(record: HourlyPrice): (r: Option<FrontendHourlyPrice>)
    ensures r.Some? <==> Parse(record.hourUTC).Some?
    ensures r.Some? ==> r.value.startTime == Parse(record.hourUTC).value
    ensures r.Some? ==> var t := r.value.startTime;
      r.value.price == (record.spotPriceDKK / 1000.0 + StateTariff + SupplierFee
                        + Rate(TariffsFor(t.month), BracketOf(t.hour))) * VatFactor
  {
    var startTime :- Parse(record.hourUTC);
    var price := ConsumerPrice(record.spotPriceDKK, startTime.month, startTime.hour);
    Some(FrontendHourlyPrice(startTime, price))
  }

  /** The error the handler reports for a failed request. */
  function FailureOf(records: seq<HourlyPrice>, k: nat): TransformError
    requires k < |records|
  {
    BadTimestamp(records[k].hourUTC)
  }

  /** The handler's result: the entries of all records in reverse input order, or the first failure. */
  function Respond(records: seq<HourlyPrice>): (r: Result<seq<FrontendHourlyPrice>, TransformError>)
    ensures r.Success? <==> forall i :: 0 <= i < |records| ==> Parse(records[i].hourUTC).Some?
    ensures r.Success? ==> |r.value| == |records|
    ensures r.Success? ==> forall i :: 0 <= i < |records| ==>
      PriceRecord(records[|records| - 1 - i]) == Some(r.value[i])
    ensures r.Failure? ==> exists k ::
      && 0 <= k < |records|
      && Parse(records[k].hourUTC).None?
      && (forall j :: 0 <= j < k ==> Parse(records[j].hourUTC).Some?)
      && r.error == BadTimestamp(records[k].hourUTC)
  {
    match MapAllReversed(PriceRecord, records)
    case Success(entries) => Success(entries)
    case Failure(k) => Failure(FailureOf(records, k))
  }

  /**
   The loop of the handler: parse and price each record in turn, failing on the
   first unparsable timestamp; then reverse.
   */
  method Transform(records: seq<HourlyPrice>)
    returns (r: Result<seq<FrontendHourlyPrice>, TransformError>)
    ensures r == Respond(records)
  {
    var collected := MapThenReverse(PriceRecord, records);
    match collected
    case Success(entries) =>
      r := Success(entries);
    case Failure(k) =>
      r := Failure(FailureOf(records, k));
  }

  /**
   For any parsed record the source's last hour test (`<= 24`) adds its rate
   exactly for 21:00 to 23:59 UTC, and exactly one of the four tests fires.
   */
  lemma ParsedHourArms(record: HourlyPrice)
    requires Parse(record.hourUTC).Some?
    ensures var hour := Parse(record.hourUTC).value.hour;
      && (ArmFires(Late, hour) <==> 21 <= hour <= 23)
      && (forall arm :: ArmFires(arm, hour) <==> arm == FiringArm(hour))
  {
    LastArmLateEvening(Parse(record.hourUTC).value.hour);
  }

  /** A single record with a bad timestamp anywhere makes the whole request fail. */
  lemma OneBadRecordFailsAll(records: seq<HourlyPrice>, k: int)
    requires 0 <= k < |records|
    requires Parse(records[k].hourUTC).None?
    ensures Respond(records).Failure?
  {
  }

  /** The last input record becomes the first entry of the response, and the first the last. */
  lemma ReversedInputOrder(records: seq<HourlyPrice>)
    requires |records| > 0
    requires Respond(records).Success?
    ensures Some(Respond(records).value[0]) == PriceRecord(records[|records| - 1])
    ensures Some(Respond(records).value[|records| - 1]) == PriceRecord(records[0])
  {
  }

  /**
   The i-th entry of a successful response starts at the time parsed from the
   i-th record counted from the end.
   */
  lemma EntryTime(records: seq<HourlyPrice>, i: int)
    requires Respond(records).Success?
    requires 0 <= i < |records|
    ensures |Respond(records).value| == |records|
    ensures Respond(records).value[i].startTime == Parse(records[|records| - 1 - i].hourUTC).value
  {
    assert PriceRecord(records[|records| - 1 - i]) == Some(Respond(records).value[i]);
  }

  /**
   When the upstream records arrive in strictly increasing time order, the
   response lists them in strictly decreasing time order: newest first.
   */
  lemma NewestFirst(records: seq<HourlyPrice>)
    requires Respond(records).Success?
    requires forall i, j :: 0 <= i < j < |records| ==>
      Before(Parse(records[i].hourUTC).value, Parse(records[j].hourUTC).value)
    ensures forall i, j :: 0 <= i < j < |Respond(records).value| ==>
      Before(Respond(records).value[j].startTime, Respond(records).value[i].startTime)
  {
    var entries := Respond(records).value;
    var n := |records|;
    forall i, j | 0 <= i < j < |entries|
      ensures Before(entries[j].startTime, entries[i].startTime)
    {
      EntryTime(records, i);
      EntryTime(records, j);
      assert 0 <= n - 1 - j < n - 1 - i < n;
    }
  }
}
