/**
 * The grouping pass of the forecast card: the samples are walked in order and
 * each one is appended to the bucket of its local calendar date, the bucket
 * being created the first time its date is seen. The JavaScript accumulator
 * object is a map from date to bucket together with the sequence of its keys
 * in insertion order, which is the order `Object.keys` reports for keys that
 * are not integer-like (date strings such as "3/14/2025" are not).
 */
module DayGrouping {
  import opened Forecast

  /** The samples of `s` whose local date is `key`, in input order. */
  function SamplesOn(lt: LocalTime, s: seq<Sample>, key: string): (b: seq<Sample>)
    ensures |b| <= |s|
  {
    if s == [] then []
    else
      var last := s[|s| - 1];
      assert s == s[..|s| - 1] + [last];
      SamplesOn(lt, s[..|s| - 1], key) + (if DayKey(lt, last) == key then [last] else [])
  }

  /** The distinct local dates of `s`, each once, in order of first appearance. */
  function DayKeys(lt: LocalTime, s: seq<Sample>): (ks: seq<string>)
    ensures |ks| <= |s|
  {
    if s == [] then []
    else
      var prefix := s[..|s| - 1];
      var ks := DayKeys(lt, prefix);
      var k := DayKey(lt, s[|s| - 1]);
      if k in ks then ks else ks + [k]
  }

  /** The buckets the grouping pass builds, as a map from date to samples. */
  function Buckets(lt: LocalTime, s: seq<Sample>): (m: map<string, seq<Sample>>)
    ensures forall k :: k in m <==> k in DayKeys(lt, s)
    ensures forall k :: k in m ==> m[k] != []
  {
    BucketsNonEmpty(lt, s);
    map k | k in DayKeys(lt, s) :: SamplesOn(lt, s, k)
  }

  /**
   * The grouping pass: one step per sample, creating the sample's bucket on
   * first sight of its date and then appending the sample to it.
   */
  method GroupByDay(lt: LocalTime, list: seq<Sample>) returns (keys: seq<string>, buckets: map<string, seq<Sample>>)
    ensures keys == DayKeys(lt, list)
    ensures buckets == Buckets(lt, list)
  {
    keys, buckets := [], map[];
    for i := 0 to |list|
      invariant keys == DayKeys(lt, list[..i])
      invariant forall k :: k in buckets <==> k in keys
      invariant forall k :: k in buckets ==> buckets[k] == SamplesOn(lt, list[..i], k)
    {
      var item := list[i];
      var date := DayKey(lt, item);
      ghost var done := list[..i + 1];
      assert done == list[..i] + [item];
      DayKeysSnoc(lt, list[..i], item);
      if date !in keys {
        SamplesOnAbsent(lt, list[..i], date);
      }
      if date !in buckets {
        buckets := buckets[date := []];
        keys := keys + [date];
      }
      buckets := buckets[date := buckets[date] + [item]];
      forall k | k in buckets
        ensures buckets[k] == SamplesOn(lt, done, k)
      {
        SamplesOnSnoc(lt, list[..i], item, k);
      }
    }
    assert list[..|list|] == list;
    forall k | k in buckets
      ensures buckets[k] == Buckets(lt, list)[k]
    {
    }
  }

  /** Appending one sample extends its own date's bucket and no other. */
  lemma SamplesOnSnoc(lt: LocalTime, s: seq<Sample>, x: Sample, key: string)
    ensures SamplesOn(lt, s + [x], key) == SamplesOn(lt, s, key) + (if DayKey(lt, x) == key then [x] else [])
  {
    assert (s + [x])[..|s|] == s;
  }

  /** Appending one sample adds its date at the end, unless already seen. */
  lemma DayKeysSnoc(lt: LocalTime, s: seq<Sample>, x: Sample)
    ensures DayKeys(lt, s + [x]) == if DayKey(lt, x) in DayKeys(lt, s) then DayKeys(lt, s) else DayKeys(lt, s) + [DayKey(lt, x)]
  {
    assert (s + [x])[..|s|] == s;
  }

  /** The buckets concatenated in key order. */
  function Regroup(lt: LocalTime, s: seq<Sample>, ks: seq<string>): seq<Sample>
  {
    if ks == [] then [] else SamplesOn(lt, s, ks[0]) + Regroup(lt, s, ks[1..])
  }

  /** A bucket holds exactly the input samples of its date. */
  lemma {:induction false} SamplesOnMembers(lt: LocalTime, s: seq<Sample>, key: string)
    ensures forall x :: x in SamplesOn(lt, s, key) <==> x in s && DayKey(lt, x) == key
  {
    if s != [] {
      var prefix, last := s[..|s| - 1], s[|s| - 1];
      assert s == prefix + [last];
      SamplesOnMembers(lt, prefix, key);
    }
  }

  /** The bucket keys are exactly the dates that occur in the input. */
  lemma {:induction false} DayKeysMembers(lt: LocalTime, s: seq<Sample>)
    ensures forall k :: k in DayKeys(lt, s) <==> exists i :: 0 <= i < |s| && DayKey(lt, s[i]) == k
  {
    if s != [] {
      var prefix := s[..|s| - 1];
      DayKeysMembers(lt, prefix);
      assert forall i :: 0 <= i < |prefix| ==> prefix[i] == s[i];
    }
  }

  /** No date gets two buckets. */
  lemma {:induction false} DayKeysDistinct(lt: LocalTime, s: seq<Sample>)
    ensures Distinct(DayKeys(lt, s))
  {
    if s != [] {
      DayKeysDistinct(lt, s[..|s| - 1]);
    }
  }

  /** Every bucket holds at least one sample: it is created just before its first push. */
  lemma BucketsNonEmpty(lt: LocalTime, s: seq<Sample>)
    ensures forall k :: k in DayKeys(lt, s) ==> SamplesOn(lt, s, k) != []
  {
    DayKeysMembers(lt, s);
    forall k | k in DayKeys(lt, s)
      ensures SamplesOn(lt, s, k) != []
    {
      var i :| 0 <= i < |s| && DayKey(lt, s[i]) == k;
      SamplesOnMembers(lt, s, k);
      assert s[i] in SamplesOn(lt, s, k);
    }
  }

  /** A date that has no bucket yet has no samples so far. */
  lemma {:induction false} SamplesOnAbsent(lt: LocalTime, s: seq<Sample>, key: string)
    requires key !in DayKeys(lt, s)
    ensures SamplesOn(lt, s, key) == []
  {
    if s != [] {
      SamplesOnAbsent(lt, s[..|s| - 1], key);
    }
  }

  /** Some sample before position `q` of `s` has local date `key`. */
  predicate SeenBefore(lt: LocalTime, s: seq<Sample>, key: string, q: int)
  {
    exists p :: 0 <= p < q && p < |s| && DayKey(lt, s[p]) == key
  }

  /**
   * The buckets are in order of each date's first occurrence: any sample of a
   * later bucket's date is preceded by a sample of every earlier bucket's date.
   */
  lemma {:induction false} DayKeysFirstSeen(lt: LocalTime, s: seq<Sample>)
    ensures forall i, j, q :: 0 <= i < j < |DayKeys(lt, s)| && 0 <= q < |s| && DayKey(lt, s[q]) == DayKeys(lt, s)[j]
                           ==> SeenBefore(lt, s, DayKeys(lt, s)[i], q)
  {
    if s != [] {
      var prefix, x := s[..|s| - 1], s[|s| - 1];
      assert s == prefix + [x];
      var ks0 := DayKeys(lt, prefix);
      var ks := DayKeys(lt, s);
      DayKeysFirstSeen(lt, prefix);
      DayKeysMembers(lt, prefix);
      DayKeysDistinct(lt, s);
      forall i, j, q | 0 <= i < j < |ks| && 0 <= q < |s| && DayKey(lt, s[q]) == ks[j]
        ensures SeenBefore(lt, s, ks[i], q)
      {
        assert ks[i] in ks0;
        if q < |prefix| {
          assert prefix[q] == s[q];
          assert ks[j] in ks0;
          assert SeenBefore(lt, prefix, ks[i], q);
        } else if j < |ks0| {
          var q' :| 0 <= q' < |prefix| && DayKey(lt, prefix[q']) == ks[j];
          assert SeenBefore(lt, prefix, ks[i], q');
        } else {
          var p :| 0 <= p < |prefix| && DayKey(lt, prefix[p]) == ks[i];
          assert prefix[p] == s[p];
        }
      }
    }
  }

  /** A sample whose date is not listed leaves the concatenation unchanged. */
  lemma {:induction false} RegroupSnocOut(lt: LocalTime, s: seq<Sample>, x: Sample, ks: seq<string>)
    requires DayKey(lt, x) !in ks
    ensures Regroup(lt, s + [x], ks) == Regroup(lt, s, ks)
  {
    if ks != [] {
      SamplesOnSnoc(lt, s, x, ks[0]);
      RegroupSnocOut(lt, s, x, ks[1..]);
    }
  }

  /** A sample whose date is listed once is added once to the concatenation. */
  lemma RegroupSnocIn(lt: LocalTime, s: seq<Sample>, x: Sample, front: seq<string>, back: seq<string>)
    requires DayKey(lt, x) !in front && DayKey(lt, x) !in back
    ensures var ks := front + [DayKey(lt, x)] + back;
      multiset(Regroup(lt, s + [x], ks)) == multiset(Regroup(lt, s, ks)) + multiset{x}
  {
    var k := DayKey(lt, x);
    RegroupSplit(lt, s, front, k, back);
    RegroupSplit(lt, s + [x], front, k, back);
    SamplesOnSnoc(lt, s, x, k);
    RegroupSnocOut(lt, s, x, front);
    RegroupSnocOut(lt, s, x, back);
    var rf, bk, rb := Regroup(lt, s, front), SamplesOn(lt, s, k), Regroup(lt, s, back);
    assert multiset(rf + (bk + [x]) + rb) == multiset(rf + bk + rb) + multiset{x};
  }

  /** A key listed once splits the list into the keys before it and after it, neither holding it. */
  lemma DistinctSplit(ks: seq<string>, k: string) returns (front: seq<string>, back: seq<string>)
    requires Distinct(ks) && k in ks
    ensures ks == front + [k] + back && k !in front && k !in back
  {
    var m :| 0 <= m < |ks| && ks[m] == k;
    front, back := ks[..m], ks[m + 1..];
    assert ks == front + [k] + back;
  }

  /** The concatenation around one key: the keys before it, its bucket, the keys after it. */
  lemma RegroupSplit(lt: LocalTime, s: seq<Sample>, front: seq<string>, k: string, back: seq<string>)
    ensures Regroup(lt, s, front + [k] + back) == Regroup(lt, s, front) + SamplesOn(lt, s, k) + Regroup(lt, s, back)
  {
    RegroupAppend(lt, s, front + [k], back);
    RegroupAppend(lt, s, front, [k]);
    RegroupSingle(lt, s, k);
  }

  /** The concatenation of a single bucket is that bucket. */
  lemma RegroupSingle(lt: LocalTime, s: seq<Sample>, k: string)
    ensures Regroup(lt, s, [k]) == SamplesOn(lt, s, k)
  {
    assert [k][1..] == [];
  }

  /** Concatenating the buckets of two key lists one after the other. */
  lemma {:induction false} RegroupAppend(lt: LocalTime, s: seq<Sample>, ks1: seq<string>, ks2: seq<string>)
    ensures Regroup(lt, s, ks1 + ks2) == Regroup(lt, s, ks1) + Regroup(lt, s, ks2)
  {
    if ks1 != [] {
      assert (ks1 + ks2)[1..] == ks1[1..] + ks2;
      RegroupAppend(lt, s, ks1[1..], ks2);
    } else {
      assert ks1 + ks2 == ks2;
    }
  }

  /**
   * Grouping loses and duplicates nothing: the buckets, concatenated in key
   * order, are a permutation of the input.
   */
  lemma {:induction false} GroupingIsPermutation(lt: LocalTime, s: seq<Sample>)
    ensures multiset(Regroup(lt, s, DayKeys(lt, s))) == multiset(s)
  {
    if s != [] {
      var prefix, x := s[..|s| - 1], s[|s| - 1];
      assert s == prefix + [x];
      var ks0 := DayKeys(lt, prefix);
      var k := DayKey(lt, x);
      GroupingIsPermutation(lt, prefix);
      DayKeysDistinct(lt, prefix);
      DayKeysSnoc(lt, prefix, x);
      if k in ks0 {
        var front, back := DistinctSplit(ks0, k);
        RegroupSnocIn(lt, prefix, x, front, back);
      } else {
        RegroupSnocOut(lt, prefix, x, ks0);
        RegroupAppend(lt, s, ks0, [k]);
        SamplesOnSnoc(lt, prefix, x, k);
        SamplesOnAbsent(lt, prefix, k);
        RegroupSingle(lt, s, k);
      }
    }
  }

  /** The set of local dates that occur in `s`. */
  function Dates(lt: LocalTime, s: seq<Sample>): set<string>
  {
    set i | 0 <= i < |s| :: DayKey(lt, s[i])
  }

  /** There is one bucket per distinct date of the input. */
  lemma {:induction false} DayKeysCount(lt: LocalTime, s: seq<Sample>)
    ensures |DayKeys(lt, s)| == |Dates(lt, s)|
  {
    if s != [] {
      var prefix, x := s[..|s| - 1], s[|s| - 1];
      assert s == prefix + [x];
      DayKeysCount(lt, prefix);
      DayKeysMembers(lt, prefix);
      assert Dates(lt, s) == Dates(lt, prefix) + {DayKey(lt, x)} by {
        forall k | k in Dates(lt, s) ensures k in Dates(lt, prefix) + {DayKey(lt, x)} {
          var i :| 0 <= i < |s| && DayKey(lt, s[i]) == k;
          if i < |prefix| { assert prefix[i] == s[i]; }
        }
        forall k | k in Dates(lt, prefix) ensures k in Dates(lt, s) {
          var i :| 0 <= i < |prefix| && DayKey(lt, prefix[i]) == k;
          assert s[i] == prefix[i];
        }
      }
      assert DayKey(lt, x) in DayKeys(lt, prefix) <==> DayKey(lt, x) in Dates(lt, prefix);
    }
  }
}
