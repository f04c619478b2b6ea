/** Hours worked through the model. */
module Scenarios {
  import opened Wrappers
  import opened Timestamp
  import opened Handler

  /** A record at 03:00 UTC in July: summer table, low bracket. */
  lemma JulyNight(record: HourlyPrice, t: DateTime)
    requires Parse(record.hourUTC) == Some(t)
    requires t.month == 7 && t.hour == 3
    ensures PriceRecord(record) == Some(FrontendHourlyPrice(
      t, (record.spotPriceDKK / 1000.0 + 0.7610 + 0.0975 + 0.1126) * 1.25))
  {
  }

  /** A record at 18:00 UTC in December: winter table, peak bracket. */
  lemma DecemberPeak(record: HourlyPrice, t: DateTime)
    requires Parse(record.hourUTC) == Some(t)
    requires t.month == 12 && t.hour == 18
    ensures PriceRecord(record) == Some(FrontendHourlyPrice(
      t, (record.spotPriceDKK / 1000.0 + 0.7610 + 0.0975 + 1.0133) * 1.25))
  {
  }

  /** A timestamp with a zone designator is rejected. */
  lemma ZoneSuffixRejected()
    ensures Parse("2024-06-15T12:00:00Z") == None
  {
    var s := "2024-06-15T12:00:00Z";
    if Parse(s).Some? {
      ParseEndsInDigit(s);
    }
  }

  /** One such record anywhere fails the request; no entries are produced. */
  lemma ZoneSuffixFailsRequest(records: seq<HourlyPrice>, k: int)
    requires 0 <= k < |records|
    requires records[k].hourUTC == "2024-06-15T12:00:00Z"
    ensures Respond(records).Failure?
  {
    ZoneSuffixRejected();
    OneBadRecordFailsAll(records, k);
  }
}
