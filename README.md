# Forecast card summariser

A Dafny model of the daily forecast summariser of the Weather Genie web client
(`src/components/ForecastCard.tsx`). The card receives a forecast payload
holding a list of samples, typically one every three hours over five days, and
shows one sample per local calendar day, at most five days:

1. **Null guard**: nothing is rendered when the payload or its list is absent.
   An empty list is not absent: it gives a card with no days.
2. **Grouping pass**: the samples are walked in order. Each one is appended to
   the bucket of its local calendar date, and the bucket is created the first
   time that date is seen. The accumulator is a JavaScript object. Its key
   order is insertion order, because date strings are not integer-like keys.
   The model keeps that order as a `seq` of keys beside a `map` from date to
   bucket (`DayGrouping.GroupByDay`, a method with a loop).
3. **Selection pass**: for each bucket, in key order, a left fold with no seed
   keeps the sample whose local hour is closest to 12. The running best is
   replaced only on a strict improvement (`NoonSelection.ClosestToNoon`).
4. **Cut**: the result is cut to five days (`ForecastCard.Take`).
5. **Icon URL**: an icon code becomes
   `https://openweathermap.org/img/wn/<code>.png` (`ForecastCard.IconUrl`).

The host's calendar functions are parameters of the model.
`new Date(dt * 1000).toLocaleDateString()` and `.getHours()` depend on the
viewer's time zone and locale. They are the two fields of a `LocalTime` value:
`dateOf(dt)` is a date string and `hourOf(dt)` is an hour in `0..23`. Every
property below holds for every such pair of functions. Where a property also
needs calendar dates to be intervals of time, it says so.

Files:
- `forecast_types.dfy` (module `Forecast`): samples, the payload, `LocalTime`,
  and the predicates `Distinct`, `Chronological`, `DatesAreIntervals`.
- `grouping.dfy` (module `DayGrouping`): the grouping pass and its reference
  definitions. `SamplesOn` is the input filtered by date, in input order.
  `DayKeys` is the distinct dates in order of first appearance.
- `selection.dfy` (module `NoonSelection`): distance to noon, the fold over
  one bucket, and the selection over all buckets.
- `card.dfy` (module `ForecastCard`): the guard, the cut, the whole
  summariser, the icon URL, and the properties of the summaries.

## Model

| member | source | states |
|---|---|---|
| `DayGrouping.GroupByDay` | src/components/ForecastCard.tsx:12-19 | The loop builds the date keys in order of first appearance, and for each key the bucket of exactly the input's samples of that date, in input order |
| `DayGrouping.SamplesOnMembers` | src/components/ForecastCard.tsx:13-17 | A bucket holds a sample if and only if that sample is in the input and falls on the bucket's date |
| `DayGrouping.SamplesOn` | src/components/ForecastCard.tsx:17 | A bucket is never longer than the input |
| `DayGrouping.DayKeys` | src/components/ForecastCard.tsx:14-16 | There are never more keys than samples |
| `DayGrouping.DayKeysMembers` | src/components/ForecastCard.tsx:13-16 | A date is a bucket key if and only if some input sample falls on it |
| `DayGrouping.DayKeysDistinct` | src/components/ForecastCard.tsx:14-16 | No date gets two buckets |
| `DayGrouping.DayKeysFirstSeen` | src/components/ForecastCard.tsx:12-22 | Keys are in order of first appearance: each sample of a later key's date comes after some sample of every earlier key's date |
| `DayGrouping.Buckets` | src/components/ForecastCard.tsx:14-17 | The buckets are keyed by exactly the input's dates, and none is empty |
| `DayGrouping.BucketsNonEmpty` | src/components/ForecastCard.tsx:14-17 | Every bucket holds at least one sample, so the seedless fold never runs on an empty bucket |
| `DayGrouping.SamplesOnAbsent` | src/components/ForecastCard.tsx:14-15 | A date with no bucket yet has no samples so far, so a newly created bucket starts out empty |
| `DayGrouping.GroupingIsPermutation` | src/components/ForecastCard.tsx:12-19 | The buckets, concatenated in key order, are a permutation of the input: nothing is lost or duplicated |
| `DayGrouping.DayKeysCount` | src/components/ForecastCard.tsx:12-19 | There are as many buckets as distinct dates in the input |
| `NoonSelection.NoonDistance` | src/components/ForecastCard.tsx:26-28 | The distance of a local hour to noon is at most 12, and it is 0 exactly at noon |
| `NoonSelection.ClosestToNoon` | src/components/ForecastCard.tsx:25-29 | The fold returns a sample of the bucket that is no farther from noon than any other sample of the bucket. Every sample before it in the bucket is strictly farther, so a tie goes to the earliest sample |
| `NoonSelection.PickPerDay` | src/components/ForecastCard.tsx:22-30 | One selected sample per key, in key order, each taken from its own bucket |
| `ForecastCard.Take` | src/components/ForecastCard.tsx:31 | `slice(0, n)` keeps the first `min(n, length)` elements unchanged |
| `ForecastCard.DailyForecasts` | src/components/ForecastCard.tsx:12-31 | The card never shows more than five days |
| `ForecastCard.Summarise` | src/components/ForecastCard.tsx:9-31 | Nothing is produced exactly when the payload or its list is absent. Otherwise the grouping, selection and cut produce the daily summaries |
| `ForecastCard.IconUrl` | src/components/ForecastCard.tsx:42-44 | The URL is the image host's prefix, then the icon code unchanged, then `.png` |
| `ForecastCard.IconUrlInjective` | src/components/ForecastCard.tsx:42-44 | Different icon codes give different URLs |
| `ForecastCard.NoonChoiceUnique` | src/components/ForecastCard.tsx:28 | Closest to noon with earliest-wins tie-breaking picks one sample position per date |
| `ForecastCard.ClosestIsNoonChoice` | src/components/ForecastCard.tsx:25-29 | The fold over a date's bucket returns the input sample of that date that is closest to noon and comes first among the closest, measured over the whole input |
| `ForecastCard.EmptyForecast` | src/components/ForecastCard.tsx:12-31 | An empty list yields no summaries |
| `ForecastCard.DailyCount` | src/components/ForecastCard.tsx:12-31 | The number of summaries is the smaller of 5 and the number of distinct dates in the input, with no padding |
| `ForecastCard.DailyIsNoonChoice` | src/components/ForecastCard.tsx:22-31 | The i-th summary is an input sample, unchanged, and is the noon choice of the i-th date in order of first appearance |
| `ForecastCard.DailyDates` | src/components/ForecastCard.tsx:13-31 | The summaries carry pairwise distinct dates: the first dates of the input, in order of first appearance |
| `ForecastCard.DailyChronological` | src/components/ForecastCard.tsx:12-31 | If the input is in timestamp order and every date is an interval of time, the summaries are in timestamp order |
| `ForecastCard.ChronologicalNeedsIntervals` | src/components/ForecastCard.tsx:12-31 | In a time zone where a date holds instants 0 and 2 but not 1, three samples in timestamp order give two summaries out of timestamp order |
| `ForecastCard.TieKeepsEarlier` | src/components/ForecastCard.tsx:25-29 | Two samples of one date at 09:00 and 15:00 are equally far from noon, and the earlier one is kept |
| `ForecastCard.NoonSampleWins` | src/components/ForecastCard.tsx:25-29 | A date that has a sample at local noon is summarised by a sample at local noon |

## Left out

- Rendering: the JSX of the card (`ForecastCard.tsx:46-64`) is not modelled. Neither is the weekday label (`formatDay`, lines 33-35), nor the rounding of temperatures (`Math.round`, line 58), which is floating-point work. The `weather[0]` lookups at lines 54-59 belong to rendering too.
- Time zones and locales: `toLocaleDateString` and `getHours` are host calls. They are the parameters `LocalTime.dateOf` and `LocalTime.hourOf`. The seconds-to-milliseconds conversion `dt * 1000` is part of those parameters.
- Samples keep only `dt`, `temp`, the `weather` array and `dt_txt`. The other temperature and humidity fields of `main` are never read by the summariser.
- Key order: the model assumes that `Object.keys` returns keys in insertion order. JavaScript lists integer-like keys first, in numeric order. Local date strings are never integer-like, so this does not arise.
- `ForecastCard.DailyChronological`: input in timestamp order does not by itself give summaries in timestamp order. The lemma proves it when every local date covers one interval of time (`DatesAreIntervals`). `ForecastCard.ChronologicalNeedsIntervals` shows a time zone without that property in which ordered input gives unordered summaries.
- Invalid dates: `Hour` is always in `0..23`. For a timestamp outside the host's date range, `getHours` gives NaN and `toLocaleDateString` gives "Invalid Date"; every comparison at `ForecastCard.tsx:28` is then false, so such a sample never replaces the running best and is never replaced. The model treats such a `dt` as malformed input and does not cover it.
- Everything else in the repository is not part of this model: the HTTP client (`src/api/weatherApi.tsx`), the aggregation of the two fetches and the error messages (`WeatherGenie.tsx`), the map widget, the API-key and geolocation checks, and the search bar's empty-input guard.
