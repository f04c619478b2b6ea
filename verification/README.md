# Danish spot-price handler, modelled in Dafny

The service answers `GET /` with the consumer electricity price of every hour
of the last week. For each upstream record it parses the UTC start of the hour
(`HourUTC`, layout `2006-01-02T15:04:05`), converts the spot price from
DKK/MWh to DKK/kWh, adds the state electricity tax (0.7610) and the supplier
fee (0.0975), adds the grid tariff of the hour (summer table for April to
September, winter table otherwise; low, high or peak by UTC hour), applies 25%
VAT, and finally reverses the list. The entries come out newest first when the
upstream records arrive oldest first; the handler itself sorts nothing. One record
whose timestamp does not parse makes the handler panic, so the request yields
no prices at all.

The model:

- `Wrappers`: `Option` and `Result`.
- `Timestamp`: the layout parser as Go's `time.Parse` applies it. The year is
  exactly four digits. Month, day, minute and second are exactly two digits.
  The hour (`15`) is one or two digits. The literal `-`, `-`, `T`, `:`, `:`
  must appear. After the seconds, `time.Parse` also accepts a fraction
  (`.` or `,` then digits), even though the layout has no fraction element.
  Any other trailing text is rejected. The range checks are month 1..12,
  hour 0..23, minute and second 0..59, and day 1 to the length of the month,
  with Gregorian leap years. The parser is paired with a renderer
  (`FormatWith`), and the lemmas prove that the parser accepts exactly the
  renderings of valid times.
- `Tariffs`: the two seasonal tables, season by month, and the reference
  bracket schedule. It also keeps the source's four independent hour tests,
  as written, including the last one's `<= 24`.
- `Pricing`: the per-hour price, computed step by step as the source
  accumulates it. Its contract gives the closed form
  `(spot/1000 + 0.7610 + 0.0975 + tariff) * 1.25`.
- `Batch`: the loop shape — map each element through a step that may fail,
  stop at the first failure, then reverse. It has a recursive reference
  definition (`MapAll`) and the imperative loop (`MapThenReverse`).
- `Handler`: the record types, the price of one record, and the whole
  response.
- `Scenarios`: July night and December peak hours, and a timestamp with a
  zone suffix that makes the request fail.

Prices are exact rationals (`real`). The panic is modelled as a `Failure`
that carries the `HourUTC` text of the first record that did not parse. The
start time of an entry is kept as the parsed UTC tuple.

The hour test `currentHour <= 24` (main.go:77) cannot be reached with 24,
because the parser never yields an hour above 23. `Tariffs.LastArmLateEvening`
and `Handler.ParsedHourArms` prove that this arm fires exactly for hours
21..23. This is the same behaviour a `< 24` bound would give, so the model
keeps the code as written.

The panic of main.go:35 does not end the process: the recoverer middleware
(main.go:22) turns it into an error response. Either way no partial price list
is produced, and that is what the model keeps.

## Model

| member | source | states |
|---|---|---|
| `Timestamp.DaysIn` | main.go:33 | a month has 28 to 31 days; 29 exactly for February of a leap year, 30 exactly for April, June, September and November, 31 exactly for the seven long months (so 28 exactly for February of a common year) |
| `Timestamp.Parse` | main.go:33 | every accepted timestamp is a valid calendar date with month 1..12, hour 0..23, minute and second 0..59, year at most 9999 |
| `Timestamp.ParseFormatWith` | main.go:33 | every valid time, written in the layout (one- or two-digit hour, optional fraction of a second), parses back to that time |
| `Timestamp.ParseFormat` | main.go:33 | the canonical `YYYY-MM-DDTHH:MM:SS` text of a valid time parses back to it |
| `Timestamp.ParseOnlyRenderings` | main.go:33 | the parser accepts nothing except such renderings: an accepted text equals the rendering of the time it yields |
| `Timestamp.ParseCanonicalLength` | main.go:33 | for 19-character text, acceptance holds exactly when the text is the canonical rendering of a valid time (both directions) |
| `Timestamp.ParseEndsInDigit` | main.go:33 | accepted text ends in a digit, so no zone letter such as `Z` can follow the seconds |
| `Timestamp.ParseNoZoneOrOffset` | main.go:33 | accepted text holds only digits and the separators `-`, `T`, `:`, `.`, `,`, with `-` only at positions 4 and 7 and `T` only at 10, so no zone letter and no numeric offset (`+02:00`, `-07:00`, `+0200`) can follow the seconds |
| `Timestamp.FormatInjective` | main.go:33 | distinct valid times have distinct canonical texts |
| `Tariffs.SeasonOf` | main.go:56-63 | the summer season is chosen exactly for months 4 to 9 |
| `Tariffs.TariffsFor` | main.go:52-63 | months 4..9 get `[0.1126, 0.1689, 0.4391]`, every other month `[0.1126, 0.3378, 1.0133]` |
| `Tariffs.BracketOf` | main.go:67-79 | hours 0–5 are low, 17–20 peak, 6–16 and 21–23 high, each as an if-and-only-if |
| `Tariffs.FiringArm` | main.go:67-79 | for every hour 0..23 exactly one of the four tests fires (pairwise disjoint and covering), and it adds the rate of the hour's bracket |
| `Tariffs.LastArmLateEvening` | main.go:77-79 | for hours 0..23 the last test fires exactly for 21..23; its `<= 24` bound and a `< 24` bound agree |
| `Tariffs.WinterNotCheaperThanSummer` | main.go:52-53 | every winter rate is at least the summer rate of its bracket, and the two are equal only for the low rate |
| `Pricing.ConsumerPrice` | main.go:39-82 | for hours 0..23 the price is `(spot/1000 + 0.7610 + 0.0975 + rate of season and bracket) * 1.25`; hour 24 would add the high rate; any other hour adds no tariff |
| `Pricing.PriceStrictlyIncreasing` | main.go:39-82 | for a fixed month and hour a higher spot price gives a strictly higher consumer price |
| `Pricing.PriceSlope` | main.go:39-82 | a spot-price difference reaches the consumer price multiplied by 1.25/1000 |
| `Pricing.WinterPriceNotBelowSummer` | main.go:52-82 | at equal spot price and hour, a winter month costs at least as much as a summer month, and exactly the same only in the low-rate hours 0–5 |
| `Batch.MapAll` | main.go:32-36 | succeeds exactly when every element has a result; then the results sit position by position; otherwise it reports the first element without one |
| `Batch.MapAllReversed` | main.go:30-86 | on success one result per element, the i-th result belonging to the i-th element from the end; on failure the first failing element |
| `Batch.MapThenReverse` | main.go:30-86 | the append loop followed by the reversal yields the same result as the reference definition |
| `Batch.Reverse` | main.go:86 | same length, and element i is the input's element counted from the end |
| `Batch.ReverseReverse` | main.go:86 | reversing twice gives back the input |
| `Handler.PriceRecord` | main.go:33-84 | a record gets an entry exactly when its timestamp parses; the entry carries the parsed time and the closed-form price for its month and hour |
| `Handler.Respond` | main.go:30-86 | the request succeeds exactly when every timestamp parses; then it holds one entry per record, in reverse input order; otherwise the error names the first record that does not parse, and no entries exist |
| `Handler.Transform` | main.go:30-86 | the handler's loop, with the reversal after it, computes the same result as `Respond` |
| `Handler.ParsedHourArms` | main.go:67-79 | for a parsed timestamp the `<= 24` test fires exactly for hours 21..23, and exactly one of the four tests fires |
| `Handler.OneBadRecordFailsAll` | main.go:32-36 | one unparsable timestamp anywhere makes the whole request fail |
| `Handler.ReversedInputOrder` | main.go:86 | the last input record gives the first entry, and the first input record the last |
| `Handler.EntryTime` | main.go:33-86 | entry i of a successful response starts at the time parsed from record i counted from the end |
| `Handler.NewestFirst` | main.go:86 | if the records' parsed start times strictly increase, the entries' start times strictly decrease: newest first |
| `Scenarios.JulyNight` | main.go:52-82 | a record at 03:00 UTC in July is priced `(spot/1000 + 0.7610 + 0.0975 + 0.1126) * 1.25` |
| `Scenarios.DecemberPeak` | main.go:52-82 | a record at 18:00 UTC in December is priced `(spot/1000 + 0.7610 + 0.0975 + 1.0133) * 1.25` |
| `Scenarios.ZoneSuffixRejected` | main.go:33 | `2024-06-15T12:00:00Z` is rejected by the layout |
| `Scenarios.ZoneSuffixFailsRequest` | main.go:32-36 | any request with a record whose timestamp is `2024-06-15T12:00:00Z`, at any position, fails as a whole |

## Left out

- Fetching the upstream data (main.go:119-136): an HTTP GET and a JSON decode. This is network I/O and the `encoding/json` library. The records are the model's input. The ignored decode error at main.go:133 is not modelled either.
- The router, the middleware, the response writing and `ListenAndServe` (main.go:17-26, 88-94): HTTP plumbing.
- The conversion of the start time to Europe/Copenhagen and its RFC 3339 text (main.go:28, 84). These need the time-zone database behind `time.LoadLocation`, which is not part of this model. Entries carry the parsed UTC time instead.
- `fmt.Sprintf("%f", …)` (main.go:84): the six-decimal text of the price. Entries carry the exact price.
- Pricing.ConsumerPrice: does not model float64 rounding. The source's constants and operations are binary floating point. The model uses exact rationals, so its prices can differ from the source's in the last bits.
- Timestamp.Parse: the fraction of a second that `time.Parse` accepts is checked and then dropped. Nothing in the price or in the RFC 3339 output depends on it. Go's `time` package is not part of this model; its parsing rules for this layout are restated in the `Timestamp` module.
- The order of the upstream records (main.go:120 requests no sort order): the handler only reverses it. `Handler.NewestFirst` states the newest-first result under the assumption that the records arrive oldest first.
- The fields `HourDK`, `PriceArea` and `SpotPriceEUR` of `HourlyPrice` are carried but never used, as in the source.
