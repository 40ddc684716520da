/** Pure functions over the bucket counts of one event's histogram
    (`_histogram` in main.cpp:44): index `d` holds how many samples had
    delay `d`.  They specify what `EventStatistic` computes in place. */
module Histogram {

  /** One bucket per microsecond of a second (main.cpp:28, main.cpp:44). */
  const Buckets: nat := 1000000

  /** Width, in microseconds, of a row of the full report (main.cpp:156). */
  const Width: nat := 5

  /** The three bounds below which the sub-counters count (main.cpp:78-85). */
  const Bound122: nat := 122
  const Bound140: nat := 140
  const Bound145: nat := 145

  function Min(a: nat, b: nat): nat {
    if a <= b then a else b
  }

  // ---------------------------------------------------------------------
  // Sums of counts

  function Sum(s: seq<nat>): nat {
    if s == [] then 0 else Sum(s[..|s| - 1]) + s[|s| - 1]
  }

  lemma SumPrefixStep(s: seq<nat>, k: nat)
    requires k < |s|
    ensures Sum(s[..k + 1]) == Sum(s[..k]) + s[k]
  {
    assert s[..k + 1][..k] == s[..k];
  }

  /** Adding one more bucket to a window of the histogram. */
  lemma SumSliceStep(s: seq<nat>, lo: nat, i: nat)
    requires lo <= i < |s|
    ensures Sum(s[lo..i + 1]) == Sum(s[lo..i]) + s[i]
  {
    assert s[lo..i + 1][..i - lo] == s[lo..i];
  }

  /** A longer prefix holds at least as many samples. */
  lemma {:induction false} SumPrefixMono(s: seq<nat>, i: nat, j: nat)
    requires i <= j <= |s|
    ensures Sum(s[..i]) <= Sum(s[..j])
  {
    if i < j {
      SumPrefixMono(s, i, j - 1);
      SumPrefixStep(s, j - 1);
    }
  }

  /** Adding one sample to one bucket adds one to the sum. */
  lemma {:induction false} SumBump(s: seq<nat>, i: nat)
    requires i < |s|
    ensures Sum(s[i := s[i] + 1]) == Sum(s) + 1
  {
    var t := s[i := s[i] + 1];
    if i == |s| - 1 {
      assert t[..|t| - 1] == s[..|s| - 1];
    } else {
      assert t[..|t| - 1] == s[..|s| - 1][i := s[i] + 1];
      SumBump(s[..|s| - 1], i);
    }
  }

  /** The same, seen through a prefix: only a bucket inside it matters. */
  lemma SumPrefixBump(s: seq<nat>, i: nat, k: nat)
    requires i < |s| && k <= |s|
    ensures Sum(s[i := s[i] + 1][..k]) == Sum(s[..k]) + (if i < k then 1 else 0)
  {
    if i < k {
      assert s[i := s[i] + 1][..k] == s[..k][i := s[i] + 1];
      SumBump(s[..k], i);
    } else {
      assert s[i := s[i] + 1][..k] == s[..k];
    }
  }

  lemma {:induction false} SumZero(s: seq<nat>)
    requires forall i :: 0 <= i < |s| ==> s[i] == 0
    ensures Sum(s) == 0
  {
    if s != [] {
      SumZero(s[..|s| - 1]);
    }
  }

  /** With every bucket outside `[lo, hi)` empty, that range holds all. */
  lemma SumOfRange(s: seq<nat>, lo: nat, hi: nat)
    requires lo <= hi <= |s|
    requires forall d :: 0 <= d < |s| && (d < lo || hi <= d) ==> s[d] == 0
    ensures Sum(s[lo..hi]) == Sum(s)
  {
    assert s == s[..lo] + s[lo..hi] + s[hi..];
    SumConcat(s[..lo] + s[lo..hi], s[hi..]);
    SumConcat(s[..lo], s[lo..hi]);
    SumZero(s[..lo]);
    SumZero(s[hi..]);
  }

  lemma {:induction false} SumConcat(a: seq<nat>, b: seq<nat>)
    ensures Sum(a + b) == Sum(a) + Sum(b)
  {
    if b != [] {
      assert (a + b)[..|a + b| - 1] == a + b[..|b| - 1];
      SumConcat(a, b[..|b| - 1]);
    } else {
      assert a + b == a;
    }
  }

  // ---------------------------------------------------------------------
  // The largest occupied bucket

  ghost predicate Occupied(h: seq<nat>, n: nat)
    requires n <= |h|
  {
    exists d :: 0 <= d < n && h[d] > 0
  }

  /** The largest delay below `n` with a sample, or `dflt` when there is none. */
  function Top(h: seq<nat>, n: nat, dflt: nat): nat
    requires n <= |h|
  {
    if n == 0 then dflt else if h[n - 1] > 0 then n - 1 else Top(h, n - 1, dflt)
  }

  /** `Top` is the largest occupied delay below `n`, and falls back to
      `dflt` exactly when nothing below `n` is occupied. */
  lemma {:induction false} TopIsLargestOccupied(h: seq<nat>, n: nat, dflt: nat)
    requires n <= |h|
    ensures Occupied(h, n) ==>
      Top(h, n, dflt) < n && h[Top(h, n, dflt)] > 0 &&
      forall j :: Top(h, n, dflt) < j < n ==> h[j] == 0
    ensures !Occupied(h, n) ==> Top(h, n, dflt) == dflt
  {
    if n > 0 && h[n - 1] == 0 {
      TopIsLargestOccupied(h, n - 1, dflt);
      assert Occupied(h, n) ==> Occupied(h, n - 1);
    }
  }

  /** An occupied bucket with nothing above it (below `n`) is the `Top`. */
  lemma TopOfLast(h: seq<nat>, n: nat, m: nat, dflt: nat)
    requires m < n <= |h| && h[m] > 0
    requires forall j :: m < j < n ==> h[j] == 0
    ensures Top(h, n, dflt) == m
  {
    TopIsLargestOccupied(h, n, dflt);
  }

  // ---------------------------------------------------------------------
  // The percentile scan of `Calc` (main.cpp:95-133)

  /** Where a scan stands: the value it reports and its running counter. */
  datatype Cursor = Cursor(value: nat, local: nat)

  /** The guard `local / denom < target / scale` on exact numbers.  With
      `denom == 0` the quotient in the source is NaN or infinity and the
      comparison is false; so is `scale * local < 0`. */
  predicate Guard(local: nat, denom: nat, target: nat, scale: nat) {
    scale * local < target * denom
  }

  /** One of the four scans of `Calc` over the buckets below `n`: every
      occupied bucket below `bound` whose guard holds becomes the value
      and adds its count to the running counter; when the guard fails the
      counter is left as it is. */
  function Scan(h: seq<nat>, n: nat, bound: nat, denom: nat, target: nat, scale: nat, init: nat): Cursor
    requires n <= |h|
  {
    if n == 0 then Cursor(init, 0)
    else
      var c := Scan(h, n - 1, bound, denom, target, scale, init);
      var d := n - 1;
      if h[d] != 0 && d < bound && Guard(c.local, denom, target, scale)
      then Cursor(d, c.local + h[d])
      else c
  }

  /** A bucket qualifies when the share of samples strictly below it
      passes the guard. */
  ghost predicate Qualifies(h: seq<nat>, d: nat, bound: nat, denom: nat, target: nat, scale: nat)
    requires d < |h|
  {
    h[d] > 0 && d < bound && Guard(Sum(h[..d]), denom, target, scale)
  }

  /** The largest qualifying bucket below `n`, or `init` when none does. */
  ghost function LargestQualifying(h: seq<nat>, n: nat, bound: nat, denom: nat, target: nat, scale: nat, init: nat): nat
    requires n <= |h|
  {
    if n == 0 then init
    else if Qualifies(h, n - 1, bound, denom, target, scale) then n - 1
    else LargestQualifying(h, n - 1, bound, denom, target, scale, init)
  }

  lemma MulMono(k: nat, a: nat, b: nat)
    requires a <= b
    ensures k * a <= k * b
  {
    var c: nat := b - a;
    assert k * b == k * a + k * c;
  }

  /** The scan reports the largest qualifying bucket.  Its counter equals
      the samples below the position reached, except once a guard has
      failed: then it is frozen at a value whose guard fails, so no later
      bucket can pass either. */
  lemma {:induction false} ScanFindsLargestQualifying(h: seq<nat>, n: nat, bound: nat, denom: nat, target: nat, scale: nat, init: nat)
    requires n <= |h|
    ensures Scan(h, n, bound, denom, target, scale, init).value
         == LargestQualifying(h, n, bound, denom, target, scale, init)
    ensures Scan(h, n, bound, denom, target, scale, init).local <= Sum(h[..Min(n, bound)])
    ensures Scan(h, n, bound, denom, target, scale, init).local < Sum(h[..Min(n, bound)]) ==>
      !Guard(Scan(h, n, bound, denom, target, scale, init).local, denom, target, scale)
  {
    if n > 0 {
      var d := n - 1;
      ScanFindsLargestQualifying(h, d, bound, denom, target, scale, init);
      var c := Scan(h, d, bound, denom, target, scale, init);
      if d < bound {
        SumPrefixStep(h, d);
        if h[d] != 0 && c.local < Sum(h[..d]) {
          MulMono(scale, c.local, Sum(h[..d]));
        }
      }
    }
  }

  /** With percent-scale targets (`scale == 10`, `target >= 10`) and the
      denominator equal to the samples below the bound, every occupied
      bucket qualifies: the share below it is under 1, far under the
      target.  So the largest qualifying bucket is the largest occupied. */
  lemma {:induction false} AsWrittenEveryBucketQualifies(h: seq<nat>, n: nat, bound: nat, target: nat, init: nat)
    requires n <= |h| && bound <= |h| && target >= 10
    ensures LargestQualifying(h, n, bound, Sum(h[..bound]), target, 10, init) == Top(h, Min(n, bound), init)
  {
    var denom := Sum(h[..bound]);
    if n > 0 {
      var d := n - 1;
      AsWrittenEveryBucketQualifies(h, d, bound, target, init);
      if d < bound && h[d] > 0 {
        SumPrefixStep(h, d);
        SumPrefixMono(h, d + 1, bound);
        MulMono(10, Sum(h[..d]), denom);
        MulMono(denom, 10, target);
        assert Qualifies(h, d, bound, denom, target, 10);
      }
    }
  }

  /** What each scan of `Calc` as written reports: the largest occupied
      bucket below its bound, or `init` when there is none. */
  lemma AsWrittenScanIsTop(h: seq<nat>, bound: nat, target: nat, init: nat)
    requires bound <= |h| && target >= 10
    ensures Scan(h, |h|, bound, Sum(h[..bound]), target, 10, init).value == Top(h, bound, init)
  {
    ScanFindsLargestQualifying(h, |h|, bound, Sum(h[..bound]), target, 10, init);
    AsWrittenEveryBucketQualifies(h, |h|, bound, target, init);
  }

  /** The percentile the source evidently intends: the guard compares the
      share below a bucket with the fraction `target / 1000` (50.0 % as
      0.5), as the scale of the constants 50.0, 90.0, 99.0 and 99.9 says. */
  function IntendedPercentile(h: seq<nat>, bound: nat, target: nat, init: nat): nat
    requires bound <= |h|
  {
    Scan(h, |h|, bound, Sum(h[..bound]), target, 1000, init).value
  }

  /** The intended percentile is the largest occupied bucket below the
      bound whose share of strictly smaller samples is under the target,
      and no later occupied bucket below the bound has that property. */
  lemma {:induction false} IntendedPercentileIsFloor(h: seq<nat>, bound: nat, target: nat, init: nat)
    requires bound <= |h|
    ensures var p := IntendedPercentile(h, bound, target, init);
      var denom := Sum(h[..bound]);
      (p == init && forall d :: 0 <= d < bound && h[d] > 0 ==> 1000 * Sum(h[..d]) >= target * denom) ||
      (p < bound && h[p] > 0 && 1000 * Sum(h[..p]) < target * denom &&
       forall d :: p < d < bound && h[d] > 0 ==> 1000 * Sum(h[..d]) >= target * denom)
  {
    var denom := Sum(h[..bound]);
    ScanFindsLargestQualifying(h, |h|, bound, denom, target, 1000, init);
    LargestQualifyingIsLargest(h, |h|, bound, denom, target, 1000, init);
    var p := LargestQualifying(h, |h|, bound, denom, target, 1000, init);
    if p == init && forall d :: 0 <= d < |h| ==> !Qualifies(h, d, bound, denom, target, 1000) {
      forall d | 0 <= d < bound && h[d] > 0
        ensures 1000 * Sum(h[..d]) >= target * denom
      {
        assert !Qualifies(h, d, bound, denom, target, 1000);
      }
    } else {
      forall d | p < d < bound && h[d] > 0
        ensures 1000 * Sum(h[..d]) >= target * denom
      {
        assert !Qualifies(h, d, bound, denom, target, 1000);
      }
    }
  }

  lemma {:induction false} LargestQualifyingIsLargest(h: seq<nat>, n: nat, bound: nat, denom: nat, target: nat, scale: nat, init: nat)
    requires n <= |h|
    ensures var p := LargestQualifying(h, n, bound, denom, target, scale, init);
      (p == init && forall d :: 0 <= d < n ==> !Qualifies(h, d, bound, denom, target, scale)) ||
      (p < n && Qualifies(h, p, bound, denom, target, scale) &&
       forall d :: p < d < n ==> !Qualifies(h, d, bound, denom, target, scale))
  {
    if n > 0 && !Qualifies(h, n - 1, bound, denom, target, scale) {
      LargestQualifyingIsLargest(h, n - 1, bound, denom, target, scale, init);
    }
  }

  lemma {:induction false} LargestQualifyingStable(h: seq<nat>, n: nat, bound: nat, denom: nat, target: nat, scale: nat, init: nat)
    requires n <= |h|
    ensures var p := LargestQualifying(h, n, bound, denom, target, scale, init);
      LargestQualifying(h, n, bound, denom, target, scale, p) == p
  {
    if n > 0 && !Qualifies(h, n - 1, bound, denom, target, scale) {
      LargestQualifyingStable(h, n - 1, bound, denom, target, scale, init);
    }
  }

  /** Scanning again from the value a scan reported reports it again: the
      result depends on the starting value only when no bucket passes. */
  lemma ScanStable(h: seq<nat>, bound: nat, denom: nat, target: nat, scale: nat, init: nat)
    ensures var p := Scan(h, |h|, bound, denom, target, scale, init).value;
      Scan(h, |h|, bound, denom, target, scale, p).value == p
  {
    var p := Scan(h, |h|, bound, denom, target, scale, init).value;
    ScanFindsLargestQualifying(h, |h|, bound, denom, target, scale, init);
    ScanFindsLargestQualifying(h, |h|, bound, denom, target, scale, p);
    LargestQualifyingStable(h, |h|, bound, denom, target, scale, init);
  }

  /** Over empty buckets a scan keeps its starting value. */
  lemma {:induction false} ScanOfEmpty(h: seq<nat>, n: nat, bound: nat, denom: nat, target: nat, scale: nat, init: nat)
    requires n <= |h| && forall d :: 0 <= d < n ==> h[d] == 0
    ensures Scan(h, n, bound, denom, target, scale, init) == Cursor(init, 0)
  {
    if n > 0 {
      ScanOfEmpty(h, n - 1, bound, denom, target, scale, init);
    }
  }

  // ---------------------------------------------------------------------
  // Rows of the full report (main.cpp:154-181)

  /** One emitted row: the bin's lower bound, its count, and the samples
      counted in earlier emitted rows. */
  datatype Bin = Bin(lower: nat, count: nat, below: nat)

  function Counts(r: seq<Bin>): nat {
    if r == [] then 0 else r[0].count + Counts(r[1..])
  }

  /** The rows for the bins `[lo, lo + 5)`, `[lo + 5, lo + 10)`, ... below
      `hi`, with `below` samples already reported; an empty bin gives no row. */
  function Bins(h: seq<nat>, lo: nat, hi: nat, below: nat): seq<Bin>
    requires lo <= hi <= |h| && (hi - lo) % Width == 0
    decreases hi - lo
  {
    if lo == hi then []
    else
      var c := Sum(h[lo..lo + Width]);
      if c == 0 then Bins(h, lo + Width, hi, below)
      else [Bin(lo, c, below)] + Bins(h, lo + Width, hi, below + c)
  }

  /** Every row is a non-empty bin inside `[lo, hi)` whose lower bound is
      a multiple of 5. */
  ghost predicate NonEmptyBins(r: seq<Bin>, lo: nat, hi: nat) {
    forall k :: 0 <= k < |r| ==>
      lo <= r[k].lower && r[k].lower + Width <= hi && r[k].lower % Width == 0 && r[k].count > 0
  }

  /** Every row counts the samples in its bin. */
  ghost predicate BinCounts(h: seq<nat>, r: seq<Bin>) {
    forall k :: 0 <= k < |r| ==>
      r[k].lower + Width <= |h| && r[k].count == Sum(h[r[k].lower..r[k].lower + Width])
  }

  /** Rows come in strictly ascending order of their bins. */
  ghost predicate Ascending(r: seq<Bin>) {
    forall k, k' :: 0 <= k < k' < |r| ==> r[k].lower < r[k'].lower
  }

  /** A span of whole bins that is not empty holds a first bin and whole bins after it. */
  lemma NextSpan(lo: nat, hi: nat)
    requires lo < hi && (hi - lo) % Width == 0
    ensures lo + Width <= hi && (hi - (lo + Width)) % Width == 0
  {
  }

  /** The bin after the first one of an aligned, non-empty range. */
  lemma NextBin(lo: nat, hi: nat)
    requires lo < hi && (hi - lo) % Width == 0 && lo % Width == 0
    ensures lo + Width <= hi && (hi - (lo + Width)) % Width == 0 && (lo + Width) % Width == 0
  {
  }

  lemma {:induction false} BinsAreNonEmpty(h: seq<nat>, lo: nat, hi: nat, below: nat)
    requires lo <= hi <= |h| && (hi - lo) % Width == 0 && lo % Width == 0
    ensures NonEmptyBins(Bins(h, lo, hi, below), lo, hi)
    decreases hi - lo
  {
    if lo < hi {
      NextBin(lo, hi);
      var c := Sum(h[lo..lo + Width]);
      var b := if c == 0 then below else below + c;
      var t := Bins(h, lo + Width, hi, b);
      var r := Bins(h, lo, hi, below);
      BinsAreNonEmpty(h, lo + Width, hi, b);
      forall k | 0 <= k < |r|
        ensures lo <= r[k].lower && r[k].lower + Width <= hi && r[k].lower % Width == 0 && r[k].count > 0
      {
        if c == 0 {
          assert r[k] == t[k];
        } else if k > 0 {
          assert r[k] == t[k - 1];
        }
      }
    }
  }

  lemma {:induction false} BinsCountTheirBins(h: seq<nat>, lo: nat, hi: nat, below: nat)
    requires lo <= hi <= |h| && (hi - lo) % Width == 0
    ensures BinCounts(h, Bins(h, lo, hi, below))
    decreases hi - lo
  {
    if lo < hi {
      var c := Sum(h[lo..lo + Width]);
      var b := if c == 0 then below else below + c;
      var t := Bins(h, lo + Width, hi, b);
      var r := Bins(h, lo, hi, below);
      BinsCountTheirBins(h, lo + Width, hi, b);
      forall k | 0 <= k < |r|
        ensures r[k].lower + Width <= |h| && r[k].count == Sum(h[r[k].lower..r[k].lower + Width])
      {
        if c == 0 {
          assert r[k] == t[k];
        } else if k > 0 {
          assert r[k] == t[k - 1];
        }
      }
    }
  }

  lemma {:induction false} BinsAreAscending(h: seq<nat>, lo: nat, hi: nat, below: nat)
    requires lo <= hi <= |h| && (hi - lo) % Width == 0 && lo % Width == 0
    ensures Ascending(Bins(h, lo, hi, below))
    decreases hi - lo
  {
    if lo < hi {
      var c := Sum(h[lo..lo + Width]);
      var b := if c == 0 then below else below + c;
      var t := Bins(h, lo + Width, hi, b);
      var r := Bins(h, lo, hi, below);
      BinsAreAscending(h, lo + Width, hi, b);
      if c != 0 {
        NextBin(lo, hi);
        BinsAreNonEmpty(h, lo + Width, hi, b);
        assert r == [Bin(lo, c, below)] + t;
        forall k, k' | 0 <= k < k' < |r|
          ensures r[k].lower < r[k'].lower
        {
          assert r[k'] == t[k' - 1];
          if k > 0 {
            assert r[k] == t[k - 1];
          }
        }
      }
    }
  }

  /** Each row's running count is `below` plus what the rows before it counted. */
  ghost predicate RunningCounts(r: seq<Bin>, below: nat) {
    forall k :: 0 <= k < |r| ==> r[k].below == below + Counts(r[..k])
  }

  lemma {:induction false} BinsRunningCount(h: seq<nat>, lo: nat, hi: nat, below: nat)
    requires lo <= hi <= |h| && (hi - lo) % Width == 0
    ensures RunningCounts(Bins(h, lo, hi, below), below)
    decreases hi - lo
  {
    if lo < hi {
      var c := Sum(h[lo..lo + Width]);
      var r := Bins(h, lo, hi, below);
      if c == 0 {
        BinsRunningCount(h, lo + Width, hi, below);
      } else {
        var t := Bins(h, lo + Width, hi, below + c);
        assert r == [Bin(lo, c, below)] + t;
        BinsRunningCount(h, lo + Width, hi, below + c);
        forall k | 0 <= k < |r|
          ensures r[k].below == below + Counts(r[..k])
        {
          if k == 0 {
            assert r[..k] == [];
          } else {
            assert r[k] == t[k - 1];
            assert r[..k][1..] == t[..k - 1];
          }
        }
      }
    }
  }

  /** The rows together count every sample in `[lo, hi)`. */
  lemma {:induction false} BinsCountRange(h: seq<nat>, lo: nat, hi: nat, below: nat)
    requires lo <= hi <= |h| && (hi - lo) % Width == 0
    ensures Counts(Bins(h, lo, hi, below)) == Sum(h[lo..hi])
    decreases hi - lo
  {
    if lo < hi {
      var c := Sum(h[lo..lo + Width]);
      BinsCountRange(h, lo + Width, hi, below + c);
      BinsCountRange(h, lo + Width, hi, below);
      assert h[lo..hi] == h[lo..lo + Width] + h[lo + Width..hi];
      SumConcat(h[lo..lo + Width], h[lo + Width..hi]);
    }
  }

  // ---------------------------------------------------------------------
  // Buckets of recorded samples (main.cpp:69-70)

  predicate InRange(samples: seq<nat>) {
    forall j :: 0 <= j < |samples| ==> samples[j] < Buckets
  }

  /** `n` empty buckets. */
  function Zeros(n: nat): (z: seq<nat>)
    ensures |z| == n && forall i :: 0 <= i < n ==> z[i] == 0
  {
    seq(n, _ => 0)
  }

  /** A sub-counter after a sample `d`: one more when `d` is under its bound. */
  function CountStep(n: nat, d: nat, bound: nat): nat {
    if d < bound then n + 1 else n
  }

  /** The minimum after a sample `d`: replaced when `d` is smaller or the
      minimum is 0. */
  function MinStep(m: nat, d: nat): nat {
    if d < m || m == 0 then d else m
  }

  /** The maximum after a sample `d`: replaced when `d` is larger. */
  function MaxStep(m: nat, d: nat): nat {
    if d > m then d else m
  }

  /** The buckets after recording `samples` in order into empty ones. */
  ghost function Tally(samples: seq<nat>): (h: seq<nat>)
    requires InRange(samples)
    ensures |h| == Buckets
  {
    if samples == [] then Zeros(Buckets)
    else
      var t, d := Tally(samples[..|samples| - 1]), samples[|samples| - 1];
      t[d := t[d] + 1]
  }

  /** Each bucket counts the samples with its delay. */
  lemma {:induction false} TallyCounts(samples: seq<nat>)
    requires InRange(samples)
    ensures forall e :: 0 <= e < Buckets ==> Tally(samples)[e] == multiset(samples)[e]
  {
    if samples == [] {
    } else {
      var s := samples[..|samples| - 1];
      TallyCounts(s);
      assert samples == s + [samples[|samples| - 1]];
    }
  }

  /** How many of `samples` are below `bound`. */
  function CountBelow(samples: seq<nat>, bound: nat): nat {
    if samples == [] then 0
    else CountStep(CountBelow(samples[..|samples| - 1], bound), samples[|samples| - 1], bound)
  }

  /** The buckets below `bound` hold the samples below it. */
  lemma {:induction false} CountBelowIsSum(samples: seq<nat>, bound: nat)
    requires InRange(samples) && bound <= Buckets
    ensures CountBelow(samples, bound) == Sum(Tally(samples)[..bound])
  {
    if samples == [] {
      SumZero(Tally(samples)[..bound]);
    } else {
      var s := samples[..|samples| - 1];
      CountBelowIsSum(s, bound);
      SumPrefixBump(Tally(s), samples[|samples| - 1], bound);
    }
  }

  /** The buckets hold every sample. */
  lemma TallyHoldsAll(samples: seq<nat>)
    requires InRange(samples)
    ensures Sum(Tally(samples)) == |samples|
  {
    CountBelowIsSum(samples, Buckets);
    CountBelowAll(samples);
    assert Tally(samples)[..Buckets] == Tally(samples);
  }

  lemma {:induction false} CountBelowAll(samples: seq<nat>)
    requires InRange(samples)
    ensures CountBelow(samples, Buckets) == |samples|
  {
    if samples != [] {
      CountBelowAll(samples[..|samples| - 1]);
    }
  }

  // ---------------------------------------------------------------------
  // Running minimum and maximum (main.cpp:72-76)

  /** `_minimum` after the samples `s`, in order: a sample replaces it when
      it is smaller or when the minimum is 0, so 0 is both "no data" and a
      recorded zero, and a recorded zero is overwritten by the next sample. */
  function MinFold(s: seq<nat>): nat {
    if s == [] then 0 else MinStep(MinFold(s[..|s| - 1]), s[|s| - 1])
  }

  /** `_maximum` after the samples `s`: replaced by any larger sample. */
  function MaxFold(s: seq<nat>): nat {
    if s == [] then 0 else MaxStep(MaxFold(s[..|s| - 1]), s[|s| - 1])
  }

  /** The maximum is the largest sample, and 0 with no samples. */
  lemma {:induction false} MaxFoldIsLargest(s: seq<nat>)
    ensures s == [] ==> MaxFold(s) == 0
    ensures s != [] ==> MaxFold(s) in s
    ensures forall j :: 0 <= j < |s| ==> s[j] <= MaxFold(s)
  {
    if s != [] {
      MaxFoldIsLargest(s[..|s| - 1]);
      assert s == s[..|s| - 1] + [s[|s| - 1]];
    }
  }

  /** Without a recorded zero the minimum is the smallest sample. */
  lemma {:induction false} MinFoldWithoutZero(s: seq<nat>)
    requires s != [] && forall j :: 0 <= j < |s| ==> s[j] != 0
    ensures MinFold(s) in s
    ensures forall j :: 0 <= j < |s| ==> MinFold(s) <= s[j]
  {
    var p := s[..|s| - 1];
    assert s == p + [s[|s| - 1]];
    if p != [] {
      MinFoldWithoutZero(p);
    }
  }

  /** In every case the minimum is a sample (0 with no samples), and never
      above the maximum. */
  lemma {:induction false} MinFoldBounded(s: seq<nat>)
    ensures s == [] ==> MinFold(s) == 0
    ensures s != [] ==> MinFold(s) in s
    ensures MinFold(s) <= MaxFold(s)
  {
    if s != [] {
      var p := s[..|s| - 1];
      assert s == p + [s[|s| - 1]];
      MinFoldBounded(p);
      MaxFoldIsLargest(s);
    }
  }

  /** A zero sample sets the minimum to 0, and the next sample replaces it
      whatever its size. */
  lemma ZeroIsOverwritten(s: seq<nat>, d: nat)
    ensures MinFold(s + [0]) == 0
    ensures MinFold(s + [0] + [d]) == d
  {
    assert (s + [0])[..|s|] == s;
    assert (s + [0] + [d])[..|s| + 1] == s + [0];
  }
}
