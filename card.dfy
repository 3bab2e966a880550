/**
 * The forecast card's summariser: the null guard, the grouping pass, the
 * selection pass and the cut to five days, plus the icon URL builder.
 */
module ForecastCard {
  import opened Forecast
  import opened DayGrouping
  import opened NoonSelection

  /** The card shows at most this many days. */
  const MaxDays := 5

  /** The image host's prefix for weather icons. */
  const IconBase := "https://openweathermap.org/img/wn/"

  /** `slice(0, n)`: the first `n` elements, or all of them if there are fewer. */
  function Take(s: seq<Sample>, n: nat): (r: seq<Sample>)
    ensures |r| == if |s| <= n then |s| else n
    ensures forall i :: 0 <= i < |r| ==> r[i] == s[i]
  {
    if |s| <= n then s else s[..n]
  }

  /**
   * The daily summaries of a forecast list: the sample closest to noon of
   * each date's bucket, in bucket order, cut to `MaxDays`.
   */
  function DailyForecasts(lt: LocalTime, s: seq<Sample>): (r: seq<Sample>)
    ensures |r| <= MaxDays
  {
    Take(PickPerDay(lt, DayKeys(lt, s), Buckets(lt, s)), MaxDays)
  }

  /**
   * The card's computation: nothing when the payload or its list is absent,
   * otherwise the grouping pass, the selection pass and the cut.
   */
  method Summarise(lt: LocalTime, data: Option<ForecastData>) returns (r: Option<seq<Sample>>)
    ensures r.None? <==> data.None? || data.value.list.None?
    ensures r.Some? ==> r.value == DailyForecasts(lt, data.value.list.value)
  {
    if data.None? || data.value.list.None? {
      return None;
    }
    var list := data.value.list.value;
    var keys, buckets := GroupByDay(lt, list);
    var daily := PickPerDay(lt, keys, buckets);
    return Some(Take(daily, MaxDays));
  }

  /** The icon image URL for an icon code. */
  function IconUrl(iconCode: string): (url: string)
    ensures |url| == |IconBase| + |iconCode| + 4
    ensures url[..|IconBase|] == IconBase
    ensures url[|IconBase|..|url| - 4] == iconCode
    ensures url[|url| - 4..] == ".png"
  {
    IconBase + iconCode + ".png"
  }

  /** Different icon codes give different URLs. */
  lemma IconUrlInjective(a: string, b: string)
    requires IconUrl(a) == IconUrl(b)
    ensures a == b
  {
    var ua, ub := IconUrl(a), IconUrl(b);
    assert a == ua[|IconBase|..|ua| - 4];
  }

  /**
   * Sample `s[p]` is the noon choice for date `key`: it has that date, no
   * sample of that date is closer to noon, and every earlier sample of that
   * date is strictly farther from noon.
   */
  predicate NoonChoice(lt: LocalTime, s: seq<Sample>, key: string, p: int)
  {
    && 0 <= p < |s|
    && DayKey(lt, s[p]) == key
    && (forall q :: 0 <= q < |s| && DayKey(lt, s[q]) == key ==> NoonDistance(lt, s[p]) <= NoonDistance(lt, s[q]))
    && (forall q :: 0 <= q < p && DayKey(lt, s[q]) == key ==> NoonDistance(lt, s[q]) > NoonDistance(lt, s[p]))
  }

  /** One more sample, of another date, leaves the noon choice where it was. */
  lemma NoonChoiceOtherDate(lt: LocalTime, prefix: seq<Sample>, x: Sample, key: string, p: int)
    requires NoonChoice(lt, prefix, key, p) && DayKey(lt, x) != key
    ensures NoonChoice(lt, prefix + [x], key, p)
  {
  }

  /** The first sample of a date is its noon choice so far. */
  lemma NoonChoiceFirst(lt: LocalTime, prefix: seq<Sample>, x: Sample, key: string)
    requires forall q :: 0 <= q < |prefix| ==> DayKey(lt, prefix[q]) != key
    requires DayKey(lt, x) == key
    ensures NoonChoice(lt, prefix + [x], key, |prefix|)
  {
  }

  /** A sample strictly closer to noon than the choice so far replaces it. */
  lemma NoonChoiceCloser(lt: LocalTime, prefix: seq<Sample>, x: Sample, key: string, p: int)
    requires NoonChoice(lt, prefix, key, p) && DayKey(lt, x) == key
    requires NoonDistance(lt, x) < NoonDistance(lt, prefix[p])
    ensures NoonChoice(lt, prefix + [x], key, |prefix|)
  {
  }

  /** A sample no closer to noon than the choice so far leaves it in place. */
  lemma NoonChoiceKeep(lt: LocalTime, prefix: seq<Sample>, x: Sample, key: string, p: int)
    requires NoonChoice(lt, prefix, key, p) && DayKey(lt, x) == key
    requires NoonDistance(lt, x) >= NoonDistance(lt, prefix[p])
    ensures NoonChoice(lt, prefix + [x], key, p)
  {
  }

  /** The tie-break leaves no choice: a date has one noon choice. */
  lemma NoonChoiceUnique(lt: LocalTime, s: seq<Sample>, key: string, p: int, p': int)
    requires NoonChoice(lt, s, key, p) && NoonChoice(lt, s, key, p')
    ensures p == p'
  {
  }

  /** The fold over a date's bucket picks that date's noon choice in the whole input. */
  lemma {:induction false} ClosestIsNoonChoice(lt: LocalTime, s: seq<Sample>, key: string)
    requires SamplesOn(lt, s, key) != []
    ensures exists p :: NoonChoice(lt, s, key, p) && s[p] == ClosestToNoon(lt, SamplesOn(lt, s, key))
  {
    var prefix, x := s[..|s| - 1], s[|s| - 1];
    assert s == prefix + [x];
    SamplesOnSnoc(lt, prefix, x, key);
    var b := SamplesOn(lt, prefix, key);
    if DayKey(lt, x) != key {
      assert SamplesOn(lt, s, key) == b;
      ClosestIsNoonChoice(lt, prefix, key);
      var p :| NoonChoice(lt, prefix, key, p) && prefix[p] == ClosestToNoon(lt, b);
      NoonChoiceOtherDate(lt, prefix, x, key, p);
      assert s[p] == prefix[p];
      assert NoonChoice(lt, s, key, p) && s[p] == ClosestToNoon(lt, SamplesOn(lt, s, key));
    } else if b == [] {
      assert SamplesOn(lt, s, key) == [x];
      SamplesOnMembers(lt, prefix, key);
      forall q | 0 <= q < |prefix|
        ensures DayKey(lt, prefix[q]) != key
      {
        assert prefix[q] in prefix && prefix[q] !in b;
      }
      NoonChoiceFirst(lt, prefix, x, key);
      assert NoonChoice(lt, s, key, |prefix|) && s[|prefix|] == ClosestToNoon(lt, SamplesOn(lt, s, key));
    } else {
      assert SamplesOn(lt, s, key) == b + [x];
      ClosestIsNoonChoice(lt, prefix, key);
      var p :| NoonChoice(lt, prefix, key, p) && prefix[p] == ClosestToNoon(lt, b);
      assert (b + [x])[..|b|] == b;
      assert s[p] == prefix[p];
      if NoonDistance(lt, x) < NoonDistance(lt, prefix[p]) {
        NoonChoiceCloser(lt, prefix, x, key, p);
        assert NoonChoice(lt, s, key, |prefix|) && s[|prefix|] == ClosestToNoon(lt, SamplesOn(lt, s, key));
      } else {
        NoonChoiceKeep(lt, prefix, x, key, p);
        assert NoonChoice(lt, s, key, p) && s[p] == ClosestToNoon(lt, SamplesOn(lt, s, key));
      }
    }
  }

  /** An empty list yields no summaries. */
  lemma EmptyForecast(lt: LocalTime)
    ensures DailyForecasts(lt, []) == []
  {
  }

  /**
   * There are as many summaries as distinct dates in the input, but no more
   * than `MaxDays`; nothing is padded.
   */
  lemma DailyCount(lt: LocalTime, s: seq<Sample>)
    ensures |DailyForecasts(lt, s)| == if |Dates(lt, s)| <= MaxDays then |Dates(lt, s)| else MaxDays
  {
    DayKeysCount(lt, s);
    BucketsNonEmpty(lt, s);
  }

  /**
   * The i-th summary is the noon choice of the i-th date in order of first
   * appearance: the summaries have pairwise distinct dates, each is an input
   * sample itself, and no earlier date is skipped.
   */
  lemma DailyIsNoonChoice(lt: LocalTime, s: seq<Sample>)
    ensures var r := DailyForecasts(lt, s);
      forall i :: 0 <= i < |r| ==> i < |DayKeys(lt, s)| && exists p :: NoonChoice(lt, s, DayKeys(lt, s)[i], p) && s[p] == r[i]
  {
    var r, ks := DailyForecasts(lt, s), DayKeys(lt, s);
    BucketsNonEmpty(lt, s);
    forall i | 0 <= i < |r|
      ensures i < |ks| && exists p :: NoonChoice(lt, s, ks[i], p) && s[p] == r[i]
    {
      ClosestIsNoonChoice(lt, s, ks[i]);
    }
  }

  /** The summaries carry pairwise distinct dates, in order of first appearance. */
  lemma DailyDates(lt: LocalTime, s: seq<Sample>)
    ensures var r := DailyForecasts(lt, s);
      && (forall i :: 0 <= i < |r| ==> i < |DayKeys(lt, s)| && DayKey(lt, r[i]) == DayKeys(lt, s)[i])
      && (forall i, j :: 0 <= i < j < |r| ==> DayKey(lt, r[i]) != DayKey(lt, r[j]))
  {
    var r, ks := DailyForecasts(lt, s), DayKeys(lt, s);
    DailyIsNoonChoice(lt, s);
    DayKeysDistinct(lt, s);
    forall i | 0 <= i < |r|
      ensures i < |ks| && DayKey(lt, r[i]) == ks[i]
    {
      var p :| NoonChoice(lt, s, ks[i], p) && s[p] == r[i];
    }
  }

  /**
   * For chronological input, when every date covers an interval of time,
   * the summaries are chronological too.
   */
  lemma DailyChronological(lt: LocalTime, s: seq<Sample>)
    requires Chronological(s)
    requires DatesAreIntervals(lt)
    ensures Chronological(DailyForecasts(lt, s))
  {
    var r, ks := DailyForecasts(lt, s), DayKeys(lt, s);
    DailyIsNoonChoice(lt, s);
    DayKeysDistinct(lt, s);
    DayKeysFirstSeen(lt, s);
    forall i, j | 0 <= i < j < |r|
      ensures r[i].dt <= r[j].dt
    {
      var p :| NoonChoice(lt, s, ks[i], p) && s[p] == r[i];
      var q :| NoonChoice(lt, s, ks[j], q) && s[q] == r[j];
    }
  }

  /**
   * Two samples of one date, at hours 9 and 15, are equally far from noon;
   * the earlier one is kept.
   */
  lemma TieKeepsEarlier(lt: LocalTime, a: Sample, b: Sample)
    requires DayKey(lt, a) == DayKey(lt, b)
    requires LocalHour(lt, a) == 9 && LocalHour(lt, b) == 15
    ensures DailyForecasts(lt, [a, b]) == [a]
  {
    var k := DayKey(lt, a);
    DayKeysSnoc(lt, [a], b);
    SamplesOnSnoc(lt, [a], b, k);
    assert [a] + [b] == [a, b];
    assert DayKeys(lt, [a, b]) == [k];
    assert SamplesOn(lt, [a, b], k) == [a, b];
    assert [a, b][..1] == [a];
    assert ClosestToNoon(lt, [a, b]) == a;
  }

  /** A date that has a sample at local noon is summarised by a sample at local noon. */
  lemma NoonSampleWins(lt: LocalTime, s: seq<Sample>, i: nat, q: nat)
    requires i < |DailyForecasts(lt, s)| && q < |s|
    requires DayKey(lt, s[q]) == DayKey(lt, DailyForecasts(lt, s)[i])
    requires LocalHour(lt, s[q]) == 12
    ensures LocalHour(lt, DailyForecasts(lt, s)[i]) == 12
  {
    var r, ks := DailyForecasts(lt, s), DayKeys(lt, s);
    DailyIsNoonChoice(lt, s);
    var p :| NoonChoice(lt, s, ks[i], p) && s[p] == r[i];
    assert NoonDistance(lt, s[p]) <= NoonDistance(lt, s[q]);
  }

  /**
   * A time zone in which date "A" holds the instants 0 and 2 but not 1, so
   * that date is not an interval of time; only instant 2 is at local noon.
   */
  function SplitDateZone(): LocalTime
  {
    LocalTime(t => if t == 1 then "B" else "A", t => if t == 2 then 12 else 0)
  }

  /** Three samples at instants 0, 1 and 2. */
  function SplitDateSamples(): seq<Sample>
  {
    [Sample(0, 0.0, [], ""), Sample(1, 0.0, [], ""), Sample(2, 0.0, [], "")]
  }

  /** In that zone, the dates of the three samples first appear as "A", then "B". */
  lemma SplitDateKeys()
    ensures DayKeys(SplitDateZone(), SplitDateSamples()) == ["A", "B"]
  {
    var lt, s := SplitDateZone(), SplitDateSamples();
    assert s[..1] == [s[0]] && s[..2] == [s[0], s[1]];
    assert DayKeys(lt, s[..1]) == ["A"];
    assert DayKeys(lt, s[..2]) == ["A", "B"];
  }

  /** Date "A" gets the samples at instants 0 and 2; date "B" the one at instant 1. */
  lemma SplitDateBuckets()
    ensures SamplesOn(SplitDateZone(), SplitDateSamples(), "A") == [SplitDateSamples()[0], SplitDateSamples()[2]]
    ensures SamplesOn(SplitDateZone(), SplitDateSamples(), "B") == [SplitDateSamples()[1]]
  {
    var lt, s := SplitDateZone(), SplitDateSamples();
    var s0, s1, s2 := s[0], s[1], s[2];
    assert s == [s0] + [s1] + [s2];
    SamplesOnSnoc(lt, [], s0, "A");
    SamplesOnSnoc(lt, [s0], s1, "A");
    SamplesOnSnoc(lt, [s0] + [s1], s2, "A");
    SamplesOnSnoc(lt, [], s0, "B");
    SamplesOnSnoc(lt, [s0], s1, "B");
    SamplesOnSnoc(lt, [s0] + [s1], s2, "B");
    assert [] + [s0] == [s0];
  }

  /** Date "A" holds instants 0 and 2 but not 1. */
  lemma SplitDateNotInterval()
    ensures !DatesAreIntervals(SplitDateZone())
  {
    var lt := SplitDateZone();
    assert lt.dateOf(0) == "A" && lt.dateOf(1) == "B" && lt.dateOf(2) == "A";
  }

  /** The fold keeps the noon sample of date "A" and the only sample of date "B". */
  lemma SplitDatePicks()
    ensures ClosestToNoon(SplitDateZone(), [SplitDateSamples()[0], SplitDateSamples()[2]]) == SplitDateSamples()[2]
    ensures ClosestToNoon(SplitDateZone(), [SplitDateSamples()[1]]) == SplitDateSamples()[1]
  {
    var lt, s := SplitDateZone(), SplitDateSamples();
    var a := [s[0], s[2]];
    assert a[..1] == [s[0]];
    assert NoonDistance(lt, s[2]) < NoonDistance(lt, s[0]);
  }

  /** The summaries are the sample at instant 2, then the one at instant 1. */
  lemma SplitDateSummaries()
    ensures DailyForecasts(SplitDateZone(), SplitDateSamples()) == [SplitDateSamples()[2], SplitDateSamples()[1]]
  {
    SplitDateKeys();
    SplitDateBuckets();
    SplitDatePicks();
  }

  /** The three samples are in timestamp order. */
  lemma SplitDateSamplesInOrder()
    ensures Chronological(SplitDateSamples())
  {
  }

  /** The two summaries are not in timestamp order. */
  lemma SplitDateSummariesOutOfOrder()
    ensures !Chronological(DailyForecasts(SplitDateZone(), SplitDateSamples()))
  {
    SplitDateSummaries();
    var s := SplitDateSamples();
    assert [s[2], s[1]][0].dt > [s[2], s[1]][1].dt;
  }

  /**
   * Input in timestamp order does not by itself give summaries in timestamp
   * order: when a date is not an interval of time, its noon sample can come
   * after the sample of a date that was first seen later.
   */
  lemma ChronologicalNeedsIntervals()
    ensures !DatesAreIntervals(SplitDateZone())
    ensures Chronological(SplitDateSamples())
    ensures !Chronological(DailyForecasts(SplitDateZone(), SplitDateSamples()))
  {
    SplitDateNotInterval();
    SplitDateSamplesInOrder();
    SplitDateSummariesOutOfOrder();
  }
}
