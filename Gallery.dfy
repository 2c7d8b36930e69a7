/**
 * The gallery pager of the web client (website/src/lib/gallery.ts).
 *
 * A `Gallery` holds the timeline of month buckets the server listed, the
 * "loaded" buckets the page shows (kept sorted by descending time), and a
 * cache from bucket date to the files of that bucket, which is never evicted.
 * The network fetch of a bucket's files is an oracle passed to
 * `GetLoadedBuckets`; the UI callback `focuson` and the logging are not modelled.
 */
module Gallery {
  import opened Wrappers

  /** A JavaScript `Date` object as the gallery holds it: its identity, which the
      source compares with `===`, and the time value `getTime()` reads from it. */
  datatype BucketDate = BucketDate(ref: nat, time: int)

  /** `TimeBucket` of the API client: a month bucket and how many files it holds. */
  datatype TimeBucket = TimeBucket(date: BucketDate, count: int)

  /** `TimeBucketDate`: a bucket with its time value kept for sorting. */
  datatype TimeBucketDate = TimeBucketDate(date: BucketDate, count: int, dateMs: int)

  /** A media file as the API returns it; the gallery only passes it through. */
  datatype ApiFile = ApiFile(id: int, fileName: string, mimeType: string)

  /** `BucketWithFiles`: one entry of the answer of `getLoadedBuckets`. */
  datatype BucketWithFiles = BucketWithFiles(bucketId: BucketDate, files: seq<ApiFile>)

  /** The object literal `{ date, count, dateMs: new Date(date).getTime() }`. */
  function WithDateMs(b: TimeBucket): (r: TimeBucketDate)
    ensures AsTimeBucket(r) == b && r.dateMs == b.date.time
  {
    TimeBucketDate(b.date, b.count, b.date.time)
  }

  /** A timeline entry handed back to `setCurrentBucket`, which reads `date` and `count`. */
  function AsTimeBucket(b: TimeBucketDate): TimeBucket
  {
    TimeBucket(b.date, b.count)
  }

  /** The constructor's `buckets.map(...)`. */
  function Timeline(input: seq<TimeBucket>): (r: seq<TimeBucketDate>)
    ensures |r| == |input| && Timed(r)
    ensures forall i :: 0 <= i < |r| ==> AsTimeBucket(r[i]) == input[i]
  {
    seq(|input|, i requires 0 <= i < |input| => WithDateMs(input[i]))
  }

  /** `s.some((bucket) => bucket.date === date)`. */
  predicate HasDate(s: seq<TimeBucketDate>, date: BucketDate)
  {
    exists i :: 0 <= i < |s| && s[i].date == date
  }

  function DatesOf(s: seq<TimeBucketDate>): set<BucketDate>
  {
    set i | 0 <= i < |s| :: s[i].date
  }

  /** Every cached `dateMs` is the time value of its date. */
  predicate Timed(s: seq<TimeBucketDate>)
  {
    forall i :: 0 <= i < |s| ==> s[i].dateMs == s[i].date.time
  }

  predicate SortedDesc(s: seq<TimeBucketDate>)
  {
    forall i, j :: 0 <= i < j < |s| ==> s[i].dateMs >= s[j].dateMs
  }

  predicate DistinctDates(s: seq<TimeBucketDate>)
  {
    forall i, j :: 0 <= i < j < |s| ==> s[i].date != s[j].date
  }

  /** The invariant of the loaded list: drawn from the timeline, no date twice,
      sorted by descending time, every time value that of its date. */
  predicate WindowInv(timeline: seq<TimeBucketDate>, loaded: seq<TimeBucketDate>)
  {
    Timed(loaded) && SortedDesc(loaded) && DistinctDates(loaded) &&
    forall i :: 0 <= i < |loaded| ==> HasDate(timeline, loaded[i].date)
  }

  /** The timeline keeps every date's time value, and holds the first bucket's date. */
  lemma TimelineTimed(input: seq<TimeBucket>)
    requires |input| > 0
    ensures Timed(Timeline(input)) && HasDate(Timeline(input), input[0].date)
  {
    assert Timeline(input)[0].date == input[0].date;
  }

  // ---------------------------------------------------------------------------
  // Sorting: `loaddedBuckets.sort((a, b) => b.dateMs - a.dateMs)`

  /** How many leading entries of `s` sort before `e`: those not older than it. */
  function InsertionPoint(s: seq<TimeBucketDate>, e: TimeBucketDate): (k: nat)
    ensures k <= |s|
  {
    if s == [] || s[0].dateMs < e.dateMs then 0 else 1 + InsertionPoint(s[1..], e)
  }

  /** `e` placed after every entry of `s` that is not older than it. */
  function InsertDesc(s: seq<TimeBucketDate>, e: TimeBucketDate): seq<TimeBucketDate>
  {
    var k := InsertionPoint(s, e);
    s[..k] + [e] + s[k..]
  }

  /** `Array.prototype.sort` with the descending comparator. The sort is stable
      (ECMA-262 requires it since 2019), and a stable sort is insertion sort:
      each entry in turn goes after the entries before it that are not older. */
  function StableSortDesc(s: seq<TimeBucketDate>): seq<TimeBucketDate>
  {
    if s == [] then [] else InsertDesc(StableSortDesc(s[..|s| - 1]), s[|s| - 1])
  }

  /** Where the new entry lands: after every entry not older than it, before every
      older one (the second needs the list to be sorted). */
  lemma {:induction false} InsertionPointSplits(s: seq<TimeBucketDate>, e: TimeBucketDate)
    ensures forall i :: 0 <= i < InsertionPoint(s, e) ==> s[i].dateMs >= e.dateMs
    ensures SortedDesc(s) ==> forall i :: InsertionPoint(s, e) <= i < |s| ==> s[i].dateMs < e.dateMs
  {
    if s != [] && s[0].dateMs >= e.dateMs {
      InsertionPointSplits(s[1..], e);
      assert forall i :: 1 <= i < |s| ==> s[i] == s[1..][i - 1];
    }
  }

  /** An entry older than or as old as every entry of a list goes at its end. */
  lemma {:induction false} InsertionPointOfOldest(s: seq<TimeBucketDate>, e: TimeBucketDate)
    requires forall i :: 0 <= i < |s| ==> s[i].dateMs >= e.dateMs
    ensures InsertionPoint(s, e) == |s|
  {
    if s != [] {
      assert forall i :: 0 <= i < |s| - 1 ==> s[1..][i] == s[i + 1];
      InsertionPointOfOldest(s[1..], e);
    }
  }

  /** The inserted list is the old one with `e` at the insertion point. */
  lemma InsertDescShape(s: seq<TimeBucketDate>, e: TimeBucketDate)
    ensures var r, k := InsertDesc(s, e), InsertionPoint(s, e);
      |r| == |s| + 1 && r[k] == e && r[..k] + r[k + 1..] == s &&
      (forall i :: 0 <= i < k ==> r[i] == s[i]) &&
      (forall i :: k < i < |r| ==> r[i] == s[i - 1])
  {
    var r, k := InsertDesc(s, e), InsertionPoint(s, e);
    assert r[..k] == s[..k] && r[k + 1..] == s[k..];
    assert s[..k] + s[k..] == s;
  }

  /** Inserting adds exactly `e`. */
  lemma InsertDescPermutes(s: seq<TimeBucketDate>, e: TimeBucketDate)
    ensures multiset(InsertDesc(s, e)) == multiset(s) + multiset{e}
  {
    var k := InsertionPoint(s, e);
    assert s[..k] + s[k..] == s;
    assert multiset(s) == multiset(s[..k]) + multiset(s[k..]);
  }

  /** Inserting into a sorted list keeps it sorted, and puts `e` after the entries
      that are not older than it and before the older ones. */
  lemma InsertDescSorted(s: seq<TimeBucketDate>, e: TimeBucketDate)
    requires SortedDesc(s)
    ensures var k := InsertionPoint(s, e);
      SortedDesc(InsertDesc(s, e)) &&
      (forall i :: 0 <= i < k ==> s[i].dateMs >= e.dateMs) &&
      (forall i :: k <= i < |s| ==> s[i].dateMs < e.dateMs)
  {
    InsertionPointSplits(s, e);
    InsertDescShape(s, e);
    var r, k := InsertDesc(s, e), InsertionPoint(s, e);
    forall i, j | 0 <= i < j < |r|
      ensures r[i].dateMs >= r[j].dateMs
    {
      var x := if i < k then s[i] else if i == k then e else s[i - 1];
      var y := if j < k then s[j] else if j == k then e else s[j - 1];
      assert r[i] == x && r[j] == y;
    }
  }

  /** The stable sort orders by descending time and is a permutation. */
  lemma {:induction false} StableSortDescSorts(s: seq<TimeBucketDate>)
    ensures SortedDesc(StableSortDesc(s))
    ensures multiset(StableSortDesc(s)) == multiset(s)
  {
    if s != [] {
      var init, last := s[..|s| - 1], s[|s| - 1];
      StableSortDescSorts(init);
      InsertDescSorted(StableSortDesc(init), last);
      InsertDescPermutes(StableSortDesc(init), last);
      assert s == init + [last];
    }
  }

  /** A list already in order is left as it is. */
  lemma {:induction false} StableSortDescOfSorted(s: seq<TimeBucketDate>)
    requires SortedDesc(s)
    ensures StableSortDesc(s) == s
  {
    if s != [] {
      var init, last := s[..|s| - 1], s[|s| - 1];
      StableSortDescOfSorted(init);
      InsertionPointOfOldest(init, last);
      assert init[..|init|] == init && init[|init|..] == [];
      assert s == init + [last];
    }
  }

  /** Pushing onto a sorted list and sorting is inserting at the insertion point. */
  lemma PushThenSort(s: seq<TimeBucketDate>, e: TimeBucketDate)
    requires SortedDesc(s)
    ensures StableSortDesc(s + [e]) == InsertDesc(s, e)
  {
    assert (s + [e])[..|s|] == s;
    StableSortDescOfSorted(s);
  }

  // ---------------------------------------------------------------------------
  // addLoadedBucket, getNewer, getOlder on values

  /** `addLoadedBucket`: push and re-sort when the date is in the timeline and not
      yet loaded, otherwise nothing. */
  function AddLoaded(timeline: seq<TimeBucketDate>, loaded: seq<TimeBucketDate>, bucket: TimeBucket): seq<TimeBucketDate>
  {
    if HasDate(timeline, bucket.date) && !HasDate(loaded, bucket.date) then
      StableSortDesc(loaded + [WithDateMs(bucket)])
    else loaded
  }

  /** Inserting a timeline bucket that is not loaded yet keeps the loaded-list invariant. */
  lemma InsertKeepsWindow(timeline: seq<TimeBucketDate>, loaded: seq<TimeBucketDate>, e: TimeBucketDate)
    requires WindowInv(timeline, loaded) && e.dateMs == e.date.time
    requires HasDate(timeline, e.date) && !HasDate(loaded, e.date)
    ensures WindowInv(timeline, InsertDesc(loaded, e)) && HasDate(InsertDesc(loaded, e), e.date)
  {
    var r, k := InsertDesc(loaded, e), InsertionPoint(loaded, e);
    InsertDescShape(loaded, e);
    InsertDescSorted(loaded, e);
    forall i | 0 <= i < |r|
      ensures r[i].dateMs == r[i].date.time && HasDate(timeline, r[i].date)
      ensures i != k ==> r[i].date != e.date
    {
      if i < k {
        assert r[i] == loaded[i];
      } else if k < i {
        assert r[i] == loaded[i - 1];
      }
    }
    forall i, j | 0 <= i < j < |r|
      ensures r[i].date != r[j].date
    {
      if j < k {
        assert r[i] == loaded[i] && r[j] == loaded[j];
      } else if k < i {
        assert r[i] == loaded[i - 1] && r[j] == loaded[j - 1];
      } else if i < k < j {
        assert r[i] == loaded[i] && r[j] == loaded[j - 1];
      }
    }
  }

  /** `addLoadedBucket` keeps the loaded-list invariant; it grows the list by
      exactly the new bucket, placed by time, or leaves it as it was. */
  lemma AddLoadedSpec(timeline: seq<TimeBucketDate>, loaded: seq<TimeBucketDate>, bucket: TimeBucket)
    requires WindowInv(timeline, loaded)
    ensures var r := AddLoaded(timeline, loaded, bucket);
      WindowInv(timeline, r) &&
      (if HasDate(timeline, bucket.date) && !HasDate(loaded, bucket.date) then
         |r| == |loaded| + 1 && HasDate(r, bucket.date) &&
         multiset(r) == multiset(loaded) + multiset{WithDateMs(bucket)} &&
         r == InsertDesc(loaded, WithDateMs(bucket))
       else r == loaded)
  {
    if HasDate(timeline, bucket.date) && !HasDate(loaded, bucket.date) {
      var e := WithDateMs(bucket);
      PushThenSort(loaded, e);
      InsertDescShape(loaded, e);
      InsertDescPermutes(loaded, e);
      InsertKeepsWindow(timeline, loaded, e);
    }
  }

  /** The first bucket loaded into an empty list. */
  lemma AddLoadedToEmpty(timeline: seq<TimeBucketDate>, bucket: TimeBucket)
    requires HasDate(timeline, bucket.date)
    ensures AddLoaded(timeline, [], bucket) == [WithDateMs(bucket)]
  {
    assert SortedDesc([]);
    PushThenSort([], WithDateMs(bucket));
  }

  /** `Array.prototype.find`, as the index it stops at. */
  function FindIndex<T>(s: seq<T>, p: T -> bool): (r: Option<nat>)
    ensures r.Some? ==> r.value < |s| && p(s[r.value]) && forall j :: 0 <= j < r.value ==> !p(s[j])
    ensures r.None? ==> forall j :: 0 <= j < |s| ==> !p(s[j])
  {
    if s == [] then None
    else if p(s[0]) then Some(0)
    else match FindIndex(s[1..], p)
      case None => None
      case Some(i) => Some(i + 1)
  }

  /** `Array.prototype.reverse`. */
  function Reversed(s: seq<TimeBucketDate>): seq<TimeBucketDate>
  {
    seq(|s|, i requires 0 <= i < |s| => s[|s| - 1 - i])
  }

  /** Reversing keeps the same entries and reversing twice restores the order. */
  lemma {:induction false} ReversedPermutes(s: seq<TimeBucketDate>)
    ensures multiset(Reversed(s)) == multiset(s)
    ensures Reversed(Reversed(s)) == s
  {
    if s != [] {
      var init := s[..|s| - 1];
      ReversedPermutes(init);
      assert Reversed(s) == [s[|s| - 1]] + Reversed(init);
      assert s == init + [s[|s| - 1]];
    }
  }

  /** The timeline reversed has the same dates and time values. */
  lemma ReversedKeepsDates(timeline: seq<TimeBucketDate>, loaded: seq<TimeBucketDate>)
    requires WindowInv(timeline, loaded)
    ensures WindowInv(Reversed(timeline), loaded)
    ensures Timed(timeline) ==> Timed(Reversed(timeline))
  {
    var rev := Reversed(timeline);
    forall i | 0 <= i < |loaded|
      ensures HasDate(rev, loaded[i].date)
    {
      var j :| 0 <= j < |timeline| && timeline[j].date == loaded[i].date;
      assert rev[|timeline| - 1 - j] == timeline[j];
    }
  }

  /** `getNewer`: reverse the timeline in place, then load the first bucket of the
      reversed order that is older than the newest loaded one. */
  function NewerStep(timeline: seq<TimeBucketDate>, loaded: seq<TimeBucketDate>): (seq<TimeBucketDate>, seq<TimeBucketDate>)
    requires |loaded| > 0
  {
    var newest := loaded[0];
    var rev := Reversed(timeline);
    match FindIndex(rev, (x: TimeBucketDate) => x.dateMs < newest.dateMs)
    case None => (rev, loaded)
    case Some(i) => (rev, AddLoaded(rev, loaded, AsTimeBucket(rev[i])))
  }

  /** `getOlder`: load the first bucket of the timeline that is newer than the
      oldest loaded one. */
  function OlderStep(timeline: seq<TimeBucketDate>, loaded: seq<TimeBucketDate>): seq<TimeBucketDate>
    requires |loaded| > 0
  {
    var oldest := loaded[|loaded| - 1];
    match FindIndex(timeline, (x: TimeBucketDate) => x.dateMs > oldest.dateMs)
    case None => loaded
    case Some(i) => AddLoaded(timeline, loaded, AsTimeBucket(timeline[i]))
  }

  /** What `getNewer` loads: the LAST bucket of the old order that is older than
      the newest loaded one; when there is none the loaded list is unchanged. */
  lemma NewerStepLoads(timeline: seq<TimeBucketDate>, loaded: seq<TimeBucketDate>)
    requires |loaded| > 0
    ensures var l := NewerStep(timeline, loaded).1;
      ((forall j :: 0 <= j < |timeline| ==> timeline[j].dateMs >= loaded[0].dateMs) ==> l == loaded) &&
      (forall i :: (0 <= i < |timeline| && timeline[i].dateMs < loaded[0].dateMs &&
                    (forall j :: i < j < |timeline| ==> timeline[j].dateMs >= loaded[0].dateMs)) ==>
         l == AddLoaded(Reversed(timeline), loaded, AsTimeBucket(timeline[i])))
  {
    var rev := Reversed(timeline);
    var p := (x: TimeBucketDate) => x.dateMs < loaded[0].dateMs;
    match FindIndex(rev, p)
    case None =>
      forall j | 0 <= j < |timeline| ensures timeline[j].dateMs >= loaded[0].dateMs {
        assert rev[|timeline| - 1 - j] == timeline[j];
      }
    case Some(k) =>
      forall i | (0 <= i < |timeline| && timeline[i].dateMs < loaded[0].dateMs &&
                  (forall j :: i < j < |timeline| ==> timeline[j].dateMs >= loaded[0].dateMs))
        ensures rev[k] == timeline[i]
      {
        assert rev[|timeline| - 1 - i] == timeline[i];
        assert rev[k] == timeline[|timeline| - 1 - k];
        assert k == |timeline| - 1 - i;
      }
  }

  /** `getNewer` keeps the loaded-list invariant against the reversed timeline. */
  lemma NewerStepKeepsWindow(timeline: seq<TimeBucketDate>, loaded: seq<TimeBucketDate>)
    requires WindowInv(timeline, loaded) && |loaded| > 0
    ensures WindowInv(Reversed(timeline), NewerStep(timeline, loaded).1)
  {
    var rev := Reversed(timeline);
    ReversedKeepsDates(timeline, loaded);
    var p := (x: TimeBucketDate) => x.dateMs < loaded[0].dateMs;
    match FindIndex(rev, p)
    case None =>
    case Some(k) =>
      AddLoadedSpec(rev, loaded, AsTimeBucket(rev[k]));
  }

  /** What `getNewer` does: the timeline is reversed (same entries), the bucket it
      tries to load is the LAST bucket of the old order that is older than the
      newest loaded one, and the loaded-list invariant is kept. */
  lemma NewerStepSpec(timeline: seq<TimeBucketDate>, loaded: seq<TimeBucketDate>)
    requires Timed(timeline) && WindowInv(timeline, loaded) && |loaded| > 0
    ensures var (t, l) := NewerStep(timeline, loaded);
      t == Reversed(timeline) && multiset(t) == multiset(timeline) && Timed(t) &&
      WindowInv(t, l) &&
      ((forall j :: 0 <= j < |timeline| ==> timeline[j].dateMs >= loaded[0].dateMs) ==> l == loaded) &&
      (forall i :: (0 <= i < |timeline| && timeline[i].dateMs < loaded[0].dateMs &&
                    (forall j :: i < j < |timeline| ==> timeline[j].dateMs >= loaded[0].dateMs)) ==>
         l == AddLoaded(t, loaded, AsTimeBucket(timeline[i])))
  {
    ReversedPermutes(timeline);
    ReversedKeepsDates(timeline, loaded);
    NewerStepLoads(timeline, loaded);
    NewerStepKeepsWindow(timeline, loaded);
  }

  /** What `getOlder` does: it loads the first bucket of the timeline's current
      order that is newer than the oldest loaded one, or nothing if there is none,
      and keeps the loaded-list invariant. */
  lemma OlderStepSpec(timeline: seq<TimeBucketDate>, loaded: seq<TimeBucketDate>)
    requires WindowInv(timeline, loaded) && |loaded| > 0
    ensures var l := OlderStep(timeline, loaded);
      WindowInv(timeline, l) &&
      ((forall j :: 0 <= j < |timeline| ==> timeline[j].dateMs <= loaded[|loaded| - 1].dateMs) ==> l == loaded) &&
      (forall i :: (0 <= i < |timeline| && timeline[i].dateMs > loaded[|loaded| - 1].dateMs &&
                    (forall j :: 0 <= j < i ==> timeline[j].dateMs <= loaded[|loaded| - 1].dateMs)) ==>
         l == AddLoaded(timeline, loaded, AsTimeBucket(timeline[i])))
  {
    var p := (x: TimeBucketDate) => x.dateMs > loaded[|loaded| - 1].dateMs;
    match FindIndex(timeline, p)
    case None =>
    case Some(k) =>
      AddLoadedSpec(timeline, loaded, AsTimeBucket(timeline[k]));
      forall i | (0 <= i < |timeline| && timeline[i].dateMs > loaded[|loaded| - 1].dateMs &&
                  (forall j :: 0 <= j < i ==> timeline[j].dateMs <= loaded[|loaded| - 1].dateMs))
        ensures k == i
      {
      }
  }

  /** From a freshly built gallery over a timeline in descending order, `getOlder`
      loads nothing: no bucket is newer than the first one. */
  lemma OlderFromFreshIsNoop(input: seq<TimeBucket>)
    requires |input| > 0 && SortedDesc(Timeline(input))
    ensures OlderStep(Timeline(input), [WithDateMs(input[0])]) == [WithDateMs(input[0])]
  {
    var t := Timeline(input);
    assert t[0] == WithDateMs(input[0]);
    assert forall j :: 0 <= j < |t| ==> !(t[j].dateMs > t[0].dateMs);
  }

  /** From a freshly built gallery over a timeline with strictly descending times,
      `getNewer` loads the OLDEST bucket of the timeline, not the one after the first. */
  lemma NewerFromFreshLoadsOldest(input: seq<TimeBucket>)
    requires |input| >= 2
    requires forall i, j :: 0 <= i < j < |input| ==> input[i].date.time > input[j].date.time
    ensures var t := Timeline(input);
      NewerStep(t, [t[0]]) == (Reversed(t), [t[0], t[|t| - 1]])
  {
    var t := Timeline(input);
    var n := |t|;
    var rev := Reversed(t);
    assert WindowInv(t, [t[0]]) by { assert HasDate(t, t[0].date); }
    NewerStepSpec(t, [t[0]]);
    assert t[n - 1].dateMs < t[0].dateMs;
    assert AsTimeBucket(t[n - 1]) == input[n - 1] && WithDateMs(input[n - 1]) == t[n - 1];
    assert HasDate(rev, t[n - 1].date) by { assert rev[0] == t[n - 1]; }
    assert !HasDate([t[0]], t[n - 1].date);
    assert SortedDesc([t[0]]);
    PushThenSort([t[0]], t[n - 1]);
    assert InsertionPoint([t[0]], t[n - 1]) == 1;
    assert InsertDesc([t[0]], t[n - 1]) == [t[0], t[n - 1]];
    assert AddLoaded(rev, [t[0]], AsTimeBucket(t[n - 1])) == [t[0], t[n - 1]];
    assert NewerStep(t, [t[0]]).1 == AddLoaded(rev, [t[0]], AsTimeBucket(t[n - 1]));
  }

  /** The reversal persists: a second `getNewer` reverses the timeline back into
      descending order and loads the NEXT older bucket after the newest loaded one. */
  lemma NewerTwiceLoadsNext(input: seq<TimeBucket>)
    requires |input| >= 3
    requires forall i, j :: 0 <= i < j < |input| ==> input[i].date.time > input[j].date.time
    ensures var t := Timeline(input);
      var first := NewerStep(t, [t[0]]);
      |first.1| > 0 && NewerStep(first.0, first.1) == (t, [t[0], t[1], t[|t| - 1]])
  {
    var t := Timeline(input);
    var n := |t|;
    NewerFromFreshLoadsOldest(input);
    var loaded := [t[0], t[n - 1]];
    ReversedPermutes(t);
    assert Reversed(Reversed(t)) == t;
    var older := (x: TimeBucketDate) => x.dateMs < t[0].dateMs;
    assert older(t[1]) && !older(t[0]);
    var found := FindIndex(t, older);
    assert found == Some(1);
    assert AsTimeBucket(t[1]) == input[1] && WithDateMs(input[1]) == t[1];
    assert HasDate(t, t[1].date);
    assert !HasDate(loaded, t[1].date) by {
      assert t[1].date.time != t[0].date.time && t[1].date.time != t[n - 1].date.time;
    }
    assert SortedDesc(loaded);
    PushThenSort(loaded, t[1]);
    assert InsertionPoint(loaded, t[1]) == 1 by {
      assert loaded[1..] == [t[n - 1]];
      assert InsertionPoint(loaded[1..], t[1]) == 0;
    }
    assert InsertDesc(loaded, t[1]) == [t[0], t[1], t[n - 1]];
    assert AddLoaded(t, loaded, AsTimeBucket(t[1])) == [t[0], t[1], t[n - 1]];
  }

  // ---------------------------------------------------------------------------
  // getLoadedBuckets on values

  /** The loop state of `getLoadedBuckets`: the answer so far, the cache, and
      whether a fetch has rejected (which leaves the loop and rejects the call). */
  datatype Fetched = Fetched(buckets: seq<BucketWithFiles>, cache: map<BucketDate, seq<ApiFile>>, failed: bool)

  /** One iteration for bucket date `d`: a cached date is answered from the cache;
      an uncached one is fetched, stored and answered, or the fetch fails. */
  function FetchStep(acc: Fetched, d: BucketDate, fetch: BucketDate -> Option<seq<ApiFile>>): (r: Fetched)
    ensures acc.failed ==> r == acc
    ensures r.failed ==> r.buckets == acc.buckets && r.cache == acc.cache
    ensures r.failed && !acc.failed ==> d !in acc.cache && fetch(d).None?
    ensures !r.failed ==> d in r.cache && r.buckets == acc.buckets + [BucketWithFiles(d, r.cache[d])]
    ensures forall k :: k in acc.cache ==> k in r.cache && r.cache[k] == acc.cache[k]
  {
    if acc.failed then acc
    else if d in acc.cache then acc.(buckets := acc.buckets + [BucketWithFiles(d, acc.cache[d])])
    else match fetch(d)
      case None => acc.(failed := true)
      case Some(files) => Fetched(acc.buckets + [BucketWithFiles(d, files)], acc.cache[d := files], false)
  }

  /** `getLoadedBuckets` over the loaded list, from the cache it starts with. */
  function FetchLoaded(loaded: seq<TimeBucketDate>, cache: map<BucketDate, seq<ApiFile>>,
                       fetch: BucketDate -> Option<seq<ApiFile>>): Fetched
  {
    if loaded == [] then Fetched([], cache, false)
    else FetchStep(FetchLoaded(loaded[..|loaded| - 1], cache, fetch), loaded[|loaded| - 1].date, fetch)
  }

  /** Once a fetch has failed the rest of the list changes nothing. */
  lemma {:induction false} FetchLoadedFailureStops(loaded: seq<TimeBucketDate>, k: nat,
      cache: map<BucketDate, seq<ApiFile>>, fetch: BucketDate -> Option<seq<ApiFile>>)
    requires k <= |loaded| && FetchLoaded(loaded[..k], cache, fetch).failed
    ensures FetchLoaded(loaded, cache, fetch) == FetchLoaded(loaded[..k], cache, fetch)
  {
    if k < |loaded| {
      assert loaded[..|loaded| - 1][..k] == loaded[..k];
      FetchLoadedFailureStops(loaded[..|loaded| - 1], k, cache, fetch);
    } else {
      assert loaded[..k] == loaded;
    }
  }

  /** The cache only grows: no entry is removed or overwritten, and every new key
      is a loaded date that was not cached and whose fetch succeeded. */
  lemma {:induction false} FetchLoadedCacheGrows(loaded: seq<TimeBucketDate>, cache: map<BucketDate, seq<ApiFile>>,
      fetch: BucketDate -> Option<seq<ApiFile>>)
    ensures var f := FetchLoaded(loaded, cache, fetch);
      (forall d :: d in cache ==> d in f.cache && f.cache[d] == cache[d]) &&
      (forall d :: d in f.cache && d !in cache ==>
         HasDate(loaded, d) && fetch(d).Some? && f.cache[d] == fetch(d).value)
  {
    if loaded != [] {
      var init := loaded[..|loaded| - 1];
      FetchLoadedCacheGrows(init, cache, fetch);
      forall d | HasDate(init, d) ensures HasDate(loaded, d) {
        var i :| 0 <= i < |init| && init[i].date == d;
        assert loaded[i] == init[i];
      }
      assert loaded[|loaded| - 1].date == loaded[|loaded| - 1].date;
      assert HasDate(loaded, loaded[|loaded| - 1].date);
    }
  }

  /** A call that succeeds answers one entry per loaded bucket, in loaded order,
      each keyed by the bucket's date; afterwards every loaded date is cached and
      each answer is its cache entry: the old one if the date was cached, the
      fetched files if it was not. */
  lemma {:induction false} FetchLoadedAnswers(loaded: seq<TimeBucketDate>, cache: map<BucketDate, seq<ApiFile>>,
      fetch: BucketDate -> Option<seq<ApiFile>>)
    ensures var f := FetchLoaded(loaded, cache, fetch);
      !f.failed ==>
        |f.buckets| == |loaded| &&
        forall i :: 0 <= i < |loaded| ==>
          f.buckets[i].bucketId == loaded[i].date && loaded[i].date in f.cache &&
          f.buckets[i].files == f.cache[loaded[i].date] &&
          (if loaded[i].date in cache then f.cache[loaded[i].date] == cache[loaded[i].date]
           else fetch(loaded[i].date) == Some(f.cache[loaded[i].date]))
  {
    if loaded != [] {
      var init, d := loaded[..|loaded| - 1], loaded[|loaded| - 1].date;
      FetchLoadedAnswers(init, cache, fetch);
      FetchLoadedCacheGrows(init, cache, fetch);
      var g := FetchLoaded(init, cache, fetch);
      var f := FetchLoaded(loaded, cache, fetch);
      if !f.failed {
        assert !g.failed;
        forall i | 0 <= i < |loaded|
          ensures f.buckets[i].bucketId == loaded[i].date && loaded[i].date in f.cache &&
                  f.buckets[i].files == f.cache[loaded[i].date] &&
                  (if loaded[i].date in cache then f.cache[loaded[i].date] == cache[loaded[i].date]
                   else fetch(loaded[i].date) == Some(f.cache[loaded[i].date]))
        {
          if i < |init| {
            assert loaded[i] == init[i];
            assert HasDate(init, loaded[i].date);
          } else if d !in g.cache {
            assert d !in cache;
          }
        }
      }
    }
  }

  /** A failing call failed on a loaded date that was not cached and whose fetch failed. */
  lemma {:induction false} FetchLoadedFailure(loaded: seq<TimeBucketDate>, cache: map<BucketDate, seq<ApiFile>>,
      fetch: BucketDate -> Option<seq<ApiFile>>)
    ensures FetchLoaded(loaded, cache, fetch).failed ==>
      exists i :: 0 <= i < |loaded| && loaded[i].date !in cache && fetch(loaded[i].date).None?
  {
    if loaded != [] {
      var init, d := loaded[..|loaded| - 1], loaded[|loaded| - 1].date;
      FetchLoadedFailure(init, cache, fetch);
      FetchLoadedCacheGrows(init, cache, fetch);
      var g := FetchLoaded(init, cache, fetch);
      if g.failed {
        var i :| 0 <= i < |init| && init[i].date !in cache && fetch(init[i].date).None?;
        assert loaded[i] == init[i];
      } else if FetchLoaded(loaded, cache, fetch).failed {
        assert d !in g.cache && fetch(d).None?;
        assert loaded[|loaded| - 1].date !in cache;
      }
    }
  }

  /** The cache-hit property: when every loaded date is cached, the call fetches
      nothing (its outcome does not depend on the fetch oracle at all), succeeds,
      and leaves the cache as it was. */
  lemma {:induction false} FetchLoadedCacheHit(loaded: seq<TimeBucketDate>, cache: map<BucketDate, seq<ApiFile>>,
      fetch1: BucketDate -> Option<seq<ApiFile>>, fetch2: BucketDate -> Option<seq<ApiFile>>)
    requires forall i :: 0 <= i < |loaded| ==> loaded[i].date in cache
    ensures FetchLoaded(loaded, cache, fetch1) == FetchLoaded(loaded, cache, fetch2)
    ensures !FetchLoaded(loaded, cache, fetch1).failed && FetchLoaded(loaded, cache, fetch1).cache == cache
  {
    if loaded != [] {
      var init := loaded[..|loaded| - 1];
      assert forall i :: 0 <= i < |init| ==> init[i] == loaded[i];
      FetchLoadedCacheHit(init, cache, fetch1, fetch2);
    }
  }

  /** Calling `getLoadedBuckets` twice without changing the loaded list: the second
      call, whatever the network would answer, returns the same buckets and leaves
      the cache unchanged. */
  lemma SecondFetchIsCached(loaded: seq<TimeBucketDate>, cache: map<BucketDate, seq<ApiFile>>,
      fetch1: BucketDate -> Option<seq<ApiFile>>, fetch2: BucketDate -> Option<seq<ApiFile>>)
    requires !FetchLoaded(loaded, cache, fetch1).failed
    ensures var first := FetchLoaded(loaded, cache, fetch1);
      FetchLoaded(loaded, first.cache, fetch2) == first
  {
    var first := FetchLoaded(loaded, cache, fetch1);
    FetchLoadedAnswers(loaded, cache, fetch1);
    FetchLoadedCacheHit(loaded, first.cache, fetch2, fetch2);
    FetchLoadedAnswers(loaded, first.cache, fetch2);
    var second := FetchLoaded(loaded, first.cache, fetch2);
    assert second.buckets == first.buckets;
  }

  // ---------------------------------------------------------------------------
  // The class

  class Gallery {
    /** The timeline, most recent first as the server lists it (until `GetNewer` reverses it). */
    var buckets: seq<TimeBucketDate>
    /** The cache from bucket date to that bucket's files; never evicted. */
    var loadedFiles: map<BucketDate, seq<ApiFile>>
    /** `loaddedBuckets` in the source: the buckets the page shows. */
    var loadedBuckets: seq<TimeBucketDate>

    /** What holds from the moment the fields are set, before the first bucket is loaded. */
    ghost predicate WindowValid()
      reads this
    {
      Timed(buckets) && WindowInv(buckets, loadedBuckets)
    }

    /** What every public operation keeps once the constructor has loaded a bucket. */
    ghost predicate Valid()
      reads this
    {
      WindowValid() && |loadedBuckets| > 0
    }

    /** The source indexes `buckets[0]`, so the timeline must not be empty. */
    constructor (timeline: seq<TimeBucket>)
      requires |timeline| > 0
      ensures Valid()
      ensures buckets == Timeline(timeline)
      ensures loadedBuckets == [WithDateMs(timeline[0])]
      ensures loadedFiles == map[]
    {
      buckets := Timeline(timeline);
      loadedFiles := map[];
      loadedBuckets := [];
      new;
      TimelineTimed(timeline);
      SetCurrentBucket(timeline[0]);
      AddLoadedToEmpty(buckets, timeline[0]);
    }

    /** `hasBucket`: the date is one of the timeline's. */
    function HasBucket(date: BucketDate): (r: bool)
      reads this
      ensures r <==> date in DatesOf(buckets)
    {
      HasDate(buckets, date)
    }

    /** `isBucketLoaded`: the date is one of the loaded buckets'. */
    function IsBucketLoaded(date: BucketDate): (r: bool)
      reads this
      ensures r <==> date in DatesOf(loadedBuckets)
    {
      HasDate(loadedBuckets, date)
    }

    /** `addLoadedBucket`. */
    method AddLoadedBucket(bucket: TimeBucket)
      requires WindowValid()
      modifies this`loadedBuckets
      ensures WindowValid()
      ensures |loadedBuckets| >= |old(loadedBuckets)|
      ensures loadedBuckets == AddLoaded(buckets, old(loadedBuckets), bucket)
    {
      AddLoadedSpec(buckets, loadedBuckets, bucket);
      if HasBucket(bucket.date) && !IsBucketLoaded(bucket.date) {
        loadedBuckets := loadedBuckets + [WithDateMs(bucket)];
        loadedBuckets := StableSortDesc(loadedBuckets);
      }
    }

    /** `setCurrentBucket`; the `focuson` callback it also calls is not modelled. */
    method SetCurrentBucket(bucket: TimeBucket)
      requires WindowValid()
      modifies this`loadedBuckets
      ensures WindowValid()
      ensures |loadedBuckets| >= |old(loadedBuckets)|
      ensures loadedBuckets == AddLoaded(buckets, old(loadedBuckets), bucket)
    {
      AddLoadedBucket(bucket);
    }

    /** `getLoadedBuckets`, with `fetch` standing for `getBucketFiles('image', date)`:
        `None` is a rejected request, which rejects the whole call after the
        entries cached so far have been stored. */
    method GetLoadedBuckets(fetch: BucketDate -> Option<seq<ApiFile>>) returns (result: Option<seq<BucketWithFiles>>)
      requires Valid()
      modifies this`loadedFiles
      ensures Valid()
      ensures var f := FetchLoaded(loadedBuckets, old(loadedFiles), fetch);
        loadedFiles == f.cache && result == (if f.failed then None else Some(f.buckets))
    {
      var answer: seq<BucketWithFiles> := [];
      var i := 0;
      while i < |loadedBuckets|
        invariant 0 <= i <= |loadedBuckets|
        invariant FetchLoaded(loadedBuckets[..i], old(loadedFiles), fetch) == Fetched(answer, loadedFiles, false)
      {
        var bucket := loadedBuckets[i];
        assert loadedBuckets[..i + 1][..i] == loadedBuckets[..i];
        if bucket.date in loadedFiles {
          var files := loadedFiles[bucket.date];
          answer := answer + [BucketWithFiles(bucket.date, files)];
        } else {
          var files := fetch(bucket.date);
          if files.None? {
            FetchLoadedFailureStops(loadedBuckets, i + 1, old(loadedFiles), fetch);
            return None;
          }
          loadedFiles := loadedFiles[bucket.date := files.value];
          answer := answer + [BucketWithFiles(bucket.date, files.value)];
        }
        i := i + 1;
      }
      assert loadedBuckets[..i] == loadedBuckets;
      result := Some(answer);
    }

    /** `getNewer`. The source reads `loaddedBuckets[0]`, so the loaded list must
        not be empty (it never is once the constructor has run). */
    method GetNewer()
      requires Valid()
      modifies this`buckets, this`loadedBuckets
      ensures Valid()
      ensures (buckets, loadedBuckets) == NewerStep(old(buckets), old(loadedBuckets))
    {
      NewerStepSpec(buckets, loadedBuckets);
      ReversedKeepsDates(buckets, loadedBuckets);
      var newest := loadedBuckets[0];
      buckets := Reversed(buckets);
      var found := FindIndex(buckets, (x: TimeBucketDate) => x.dateMs < newest.dateMs);
      if found.Some? {
        SetCurrentBucket(AsTimeBucket(buckets[found.value]));
      }
    }

    /** `getOlder`; like `getNewer` it needs a loaded bucket to compare with. */
    method GetOlder()
      requires Valid()
      modifies this`loadedBuckets
      ensures Valid()
      ensures loadedBuckets == OlderStep(buckets, old(loadedBuckets))
    {
      OlderStepSpec(buckets, loadedBuckets);
      var oldest := loadedBuckets[|loadedBuckets| - 1];
      var found := FindIndex(buckets, (x: TimeBucketDate) => x.dateMs > oldest.dateMs);
      if found.Some? {
        SetCurrentBucket(AsTimeBucket(buckets[found.value]));
      }
    }
  }
}
