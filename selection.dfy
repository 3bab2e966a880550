/**
 * The selection pass of the forecast card: for each day's bucket, the sample
 * whose local hour is closest to 12, found by a seedless left fold that
 * replaces the running best only on a strict improvement.
 */
module NoonSelection {
  import opened Forecast

  /** `Math.abs(hour - 12)` for the sample's local hour. */
  function NoonDistance(lt: LocalTime, x: Sample): (d: nat)
    ensures d <= 12
    ensures d == 0 <==> LocalHour(lt, x) == 12
  {
    var h := LocalHour(lt, x);
    if h < 12 then 12 - h else h - 12
  }

  /**
   * The fold over one day's bucket: it starts from the first sample (the fold
   * has no seed) and keeps the running best unless the next sample is
   * strictly closer to noon. The result is the first sample of the bucket
   * with the least distance to noon.
   */
  function ClosestToNoon(lt: LocalTime, day: seq<Sample>): (r: Sample)
    requires day != []
    ensures forall y :: y in day ==> NoonDistance(lt, r) <= NoonDistance(lt, y)
    ensures exists i :: 0 <= i < |day| && day[i] == r
                     && forall j :: 0 <= j < i ==> NoonDistance(lt, day[j]) > NoonDistance(lt, r)
  {
    if |day| == 1 then day[0]
    else
      var prev := ClosestToNoon(lt, day[..|day| - 1]);
      var curr := day[|day| - 1];
      assert day == day[..|day| - 1] + [curr];
      if NoonDistance(lt, curr) < NoonDistance(lt, prev) then curr else prev
  }

  /** The selection pass over all buckets, in key order. */
  function PickPerDay(lt: LocalTime, keys: seq<string>, buckets: map<string, seq<Sample>>): (r: seq<Sample>)
    requires forall k :: k in keys ==> k in buckets && buckets[k] != []
    ensures |r| == |keys|
    ensures forall i :: 0 <= i < |keys| ==> r[i] in buckets[keys[i]]
  {
    seq(|keys|, i requires 0 <= i < |keys| => ClosestToNoon(lt, buckets[keys[i]]))
  }
}
