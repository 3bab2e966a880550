/**
 * The values the forecast card works on: one forecast sample per instant,
 * the forecast payload that carries the list of samples, and the two
 * host-environment calendar functions (local date and local hour) that the
 * card applies to a sample's timestamp.
 */
module Forecast {

  datatype Option<+T> = None | Some(value: T)

  /** A local wall-clock hour, as the host's `getHours` returns it. */
  type Hour = h: int | 0 <= h < 24

  /** One entry of a sample's `weather` array. */
  datatype Condition = Condition(id: int, main: string, description: string, icon: string)

  /**
   * One forecast sample: `dt` is a Unix timestamp in seconds. Of the sample's
   * `main` block only the temperature is kept; the summariser never looks
   * inside a sample, it only groups and selects whole samples.
   */
  datatype Sample = Sample(dt: int, temp: real, weather: seq<Condition>, dtTxt: string)

  datatype City = City(name: string, country: string)

  /** The forecast payload; `list` may be absent. */
  datatype ForecastData = ForecastData(list: Option<seq<Sample>>, city: City)

  /**
   * The viewer's time zone, as seen through the host's date functions:
   * `dateOf(dt)` is the local calendar date string of the instant `dt`
   * (seconds), `hourOf(dt)` its local hour. Both are supplied by the host and
   * are parameters of the model.
   */
  datatype LocalTime = LocalTime(dateOf: int -> string, hourOf: int -> Hour)

  /** The bucket key of a sample: its local calendar date. */
  function DayKey(lt: LocalTime, x: Sample): string
  {
    lt.dateOf(x.dt)
  }

  /** The local hour of a sample. */
  function LocalHour(lt: LocalTime, x: Sample): Hour
  {
    lt.hourOf(x.dt)
  }

  /** No key occurs twice in `ks`. */
  predicate Distinct(ks: seq<string>)
  {
    forall i, j :: 0 <= i < j < |ks| ==> ks[i] != ks[j]
  }

  /** Timestamps never decrease along `s`. */
  predicate Chronological(s: seq<Sample>)
  {
    forall i, j :: 0 <= i < j < |s| ==> s[i].dt <= s[j].dt
  }

  /**
   * Every local calendar date covers an interval of time: an instant between
   * two instants of the same date falls on that date too.
   */
  ghost predicate DatesAreIntervals(lt: LocalTime)
  {
    forall t1, t2, t3 :: t1 <= t2 <= t3 && lt.dateOf(t1) == lt.dateOf(t3) ==> lt.dateOf(t2) == lt.dateOf(t1)
  }
}
