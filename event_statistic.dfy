/** The per-event statistics of the collector (class `EventStatistic`,
    main.cpp:30-183): a histogram with one bucket per microsecond, running
    counters, and the summary values cached by `Calc`. */
module EventStatistics {
  import opened Decimal
  import opened Histogram

  /** The five values a report shows (the getters, main.cpp:136-140). */
  datatype Summary = Summary(minimum: nat, median: nat, p90: nat, p99: nat, p999: nat)

  /** The labels of the one-line report, in order (main.cpp:145-149). */
  const SummaryKeys: seq<string> := ["min=", " 50%=", " 90%=", " 99%=", " 99.9%="]

  function Values(s: Summary): seq<nat> {
    [s.minimum, s.median, s.p90, s.p99, s.p999]
  }

  /** Each label followed by its value in decimal. */
  function FormatFields(keys: seq<string>, values: seq<nat>): string
    requires |keys| == |values|
  {
    if keys == [] then [] else keys[0] + Format(values[0]) + FormatFields(keys[1..], values[1..])
  }

  /** The one-line report `min=<m> 50%=<med> 90%=<a> 99%=<b> 99.9%=<c>`.
      It is unambiguous: it reads back into exactly the five values it was
      made from. */
  function FormatSummary(s: Summary): (r: string)
    ensures ReadSummary(r) == Some(s)
  {
    FieldsRoundTrip(SummaryKeys, Values(s));
    FormatFields(SummaryKeys, Values(s))
  }

  /** Reads `key` and the run of digits after it; gives the number and
      what follows. */
  function ReadField(s: string, key: string): Option<(nat, string)> {
    if |key| <= |s| && s[..|key|] == key then
      var rest := s[|key|..];
      var k := DigitRun(rest);
      if k == 0 then None else Some((Value(rest[..k]), rest[k..]))
    else None
  }

  /** Reads one value per label, and nothing after the last. */
  function ReadFields(s: string, keys: seq<string>): Option<seq<nat>> {
    if keys == [] then
      if s == [] then Some([]) else None
    else
      match ReadField(s, keys[0])
      case None => None
      case Some((v, rest)) =>
        match ReadFields(rest, keys[1..])
        case None => None
        case Some(vs) => Some([v] + vs)
  }

  /** Reads a one-line report back into its five values. */
  function ReadSummary(s: string): Option<Summary> {
    match ReadFields(s, SummaryKeys)
    case Some(vs) =>
      if |vs| == 5 then Some(Summary(vs[0], vs[1], vs[2], vs[3], vs[4])) else None
    case None => None
  }

  lemma ReadFieldOfFormat(key: string, n: nat, t: string)
    requires t == [] || !IsDigit(t[0])
    ensures ReadField(key + Format(n) + t, key) == Some((n, t))
  {
    var s := key + Format(n) + t;
    assert s[..|key|] == key;
    var rest := s[|key|..];
    assert rest == Format(n) + t;
    DigitRunOfDigits(Format(n), t);
    assert rest[..|Format(n)|] == Format(n);
    assert rest[|Format(n)|..] == t;
    ValueOfFormat(n);
  }

  /** Labels that start with a non-digit separate the numbers, so the
      fields read back into the values they were made from. */
  lemma {:induction false} FieldsRoundTrip(keys: seq<string>, values: seq<nat>)
    requires |keys| == |values| && Labelled(keys)
    ensures ReadFields(FormatFields(keys, values), keys) == Some(values)
  {
    if keys != [] {
      var t := FormatFields(keys[1..], values[1..]);
      FieldsRoundTrip(keys[1..], values[1..]);
      if keys[1..] != [] {
        FormatFieldsStart(keys[1..], values[1..]);
      }
      var s := keys[0] + Format(values[0]) + t;
      assert FormatFields(keys, values) == s;
      ReadFieldOfFormat(keys[0], values[0], t);
      ReadFieldsStep(s, keys, values[0], t, values[1..]);
      assert [values[0]] + values[1..] == values;
    }
  }

  /** Labels that are not empty and do not start with a digit. */
  predicate Labelled(keys: seq<string>) {
    keys == [] || (keys[0] != [] && !IsDigit(keys[0][0]) && Labelled(keys[1..]))
  }

  /** Formatted fields start with the first label. */
  lemma FormatFieldsStart(keys: seq<string>, values: seq<nat>)
    requires |keys| == |values| && keys != [] && keys[0] != []
    ensures FormatFields(keys, values) != [] && FormatFields(keys, values)[0] == keys[0][0]
  {
  }

  /** Reading the first field, then the rest. */
  lemma ReadFieldsStep(s: string, keys: seq<string>, v: nat, t: string, vs: seq<nat>)
    requires keys != [] && ReadField(s, keys[0]) == Some((v, t)) && ReadFields(t, keys[1..]) == Some(vs)
    ensures ReadFields(s, keys) == Some([v] + vs)
  {
  }

  /** First and one-past-last bin bounds of the full report (main.cpp:157-158). */
  function RangeLow(minimum: nat): nat {
    minimum - minimum % Width
  }

  function RangeHigh(maximum: nat): nat {
    maximum - maximum % Width + Width
  }

  /** The state `AddData` updates: the buckets and the running counters. */
  datatype Counters = Counters(buckets: seq<nat>, total: nat, below122: nat, below140: nat,
                               below145: nat, minimum: nat, maximum: nat)

  /** Counters a statistic can hold: one per bucket, and a minimum that is
      a bucket no larger than the maximum. */
  predicate Sound(c: Counters) {
    |c.buckets| == Buckets && c.minimum <= c.maximum < Buckets
  }

  /** One recorded delay, already reduced to its bucket `d` (main.cpp:66-86):
      its bucket and the total go up by one, so does every sub-counter whose
      bound `d` is under, and the minimum (a zero minimum counts as unset)
      and the maximum follow `d`.  Sound counters stay sound. */
  function Record(c: Counters, d: nat): (r: Counters)
    requires d < |c.buckets|
    ensures Sound(c) ==> Sound(r)
  {
    Counters(c.buckets[d := c.buckets[d] + 1], c.total + 1,
             CountStep(c.below122, d, Bound122), CountStep(c.below140, d, Bound140),
             CountStep(c.below145, d, Bound145), MinStep(c.minimum, d), MaxStep(c.maximum, d))
  }

  /** The counters of a fresh or reset statistic. */
  function Empty(): (c: Counters)
    ensures Sound(c)
  {
    Counters(Zeros(Buckets), 0, 0, 0, 0, 0, 0)
  }

  /** The counters after recording `samples` in order, one `Record` each. */
  ghost function Replay(samples: seq<nat>): (c: Counters)
    requires InRange(samples)
    ensures Sound(c)
  {
    if samples == [] then Empty()
    else Record(Replay(samples[..|samples| - 1]), samples[|samples| - 1])
  }

  /** The replayed counters are what the samples give: the buckets count
      the samples, the counters count them (all, and those under each
      bound), and the minimum and maximum are the running ones. */
  lemma {:induction false} ReplayCounts(samples: seq<nat>)
    requires InRange(samples)
    ensures Replay(samples) == Counters(Tally(samples), |samples|, CountBelow(samples, Bound122),
                                        CountBelow(samples, Bound140), CountBelow(samples, Bound145),
                                        MinFold(samples), MaxFold(samples))
  {
    if samples != [] {
      ReplayCounts(samples[..|samples| - 1]);
    }
  }

  /** Replaying one more sample records it into the replayed counters. */
  lemma ReplayStep(samples: seq<nat>, d: nat)
    requires InRange(samples) && d < Buckets
    ensures InRange(samples + [d]) && Replay(samples + [d]) == Record(Replay(samples), d)
  {
    assert (samples + [d])[..|samples|] == samples;
  }

  /** After any run of `AddData` from empty counters, the total is the
      number of samples in the buckets and each sub-counter the number in
      the buckets under its bound. */
  lemma CountersMatchBuckets(samples: seq<nat>)
    requires InRange(samples)
    ensures var c := Replay(samples);
      && c.total == Sum(c.buckets)
      && c.below122 == Sum(c.buckets[..Bound122])
      && c.below140 == Sum(c.buckets[..Bound140])
      && c.below145 == Sum(c.buckets[..Bound145])
  {
    ReplayCounts(samples);
    TallyHoldsAll(samples);
    CountBelowIsSum(samples, Bound122);
    CountBelowIsSum(samples, Bound140);
    CountBelowIsSum(samples, Bound145);
  }

  /** What a statistic holds: its counters and the four values `Calc`
      caches (main.cpp:32-42). */
  datatype EventState = EventState(counters: Counters, median: nat, p90: nat, p99: nat, p999: nat)

  /** A fresh or reset statistic: empty counters and zero cached values. */
  function Initial(): (s: EventState)
    ensures Sound(s.counters)
  {
    EventState(Empty(), 0, 0, 0, 0)
  }

  /** The five values the one-line report shows: the live minimum and the
      cached values. */
  function Report(s: EventState): Summary {
    Summary(s.counters.minimum, s.median, s.p90, s.p99, s.p999)
  }

  /** A statistic after `AddData(delay)`: the delay modulo one second is
      recorded and the cached values are left as they were. */
  function Recorded(s: EventState, delay: nat): (t: EventState)
    requires Sound(s.counters)
    ensures Sound(t.counters)
    ensures t.counters.total == s.counters.total + 1
    ensures t.counters.buckets[delay % Buckets] == s.counters.buckets[delay % Buckets] + 1
    ensures forall d :: 0 <= d < Buckets && d != delay % Buckets ==> t.counters.buckets[d] == s.counters.buckets[d]
    ensures Report(t) == Report(s).(minimum := t.counters.minimum)
  {
    s.(counters := Record(s.counters, delay % Buckets))
  }

  /** A statistic after `Calc` (main.cpp:88-134), with the guards as the
      source evidently intends them: the share of the samples already
      passed is compared with 0.5, 0.9, 0.99 and 0.999.  The counters are
      kept. */
  function Calculated(s: EventState): (t: EventState)
    requires Sound(s.counters)
    ensures t.counters == s.counters
  {
    var k := s.counters;
    s.(median := Scan(k.buckets, Buckets, Buckets, k.total, 500, 1000, s.median).value,
       p90 := Scan(k.buckets, Buckets, Bound122, k.below122, 900, 1000, s.p90).value,
       p99 := Scan(k.buckets, Buckets, Bound140, k.below140, 990, 1000, s.p99).value,
       p999 := Scan(k.buckets, Buckets, Bound145, k.below145, 999, 1000, s.p999).value)
  }

  /** The cached values of a statistic holding the buckets `h` after
      `Calc`: each the intended percentile of the samples under its bound,
      or as it was when no bucket passes. */
  function Percentiles(c: Summary, h: seq<nat>): Summary
    requires |h| == Buckets
  {
    Summary(c.minimum, IntendedPercentile(h, Buckets, 500, c.median), IntendedPercentile(h, Bound122, 900, c.p90),
            IntendedPercentile(h, Bound140, 990, c.p99), IntendedPercentile(h, Bound145, 999, c.p999))
  }

  /** For a statistic that recorded `samples`, `Calc` caches the intended
      percentiles of the samples: the median over all of them, the other
      three over those under 122, 140 and 145 microseconds. */
  lemma CalculatedOfReplay(s: EventState, samples: seq<nat>)
    requires InRange(samples) && s.counters == Replay(samples)
    ensures Report(Calculated(s)) == Percentiles(Report(s), Tally(samples))
  {
    var h := Tally(samples);
    ReplayCounts(samples);
    TallyHoldsAll(samples);
    assert h[..Buckets] == h;
    CountBelowIsSum(samples, Bound122);
    CountBelowIsSum(samples, Bound140);
    CountBelowIsSum(samples, Bound145);
  }

  /** With any sample recorded, the median `Calc` caches is a recorded
      delay with fewer than half of the samples below it, and it is the
      largest such: every larger recorded delay has at least half of the
      samples below it. */
  lemma MedianOfReplay(s: EventState, samples: seq<nat>)
    requires InRange(samples) && s.counters == Replay(samples) && samples != []
    ensures var m := Calculated(s).median;
      && m in samples && 2 * CountBelow(samples, m) < |samples|
      && forall d :: d in samples && m < d ==> 2 * CountBelow(samples, d) >= |samples|
  {
    var h := Tally(samples);
    var m := Calculated(s).median;
    CalculatedOfReplay(s, samples);
    TallyCounts(samples);
    TallyHoldsAll(samples);
    assert h[..Buckets] == h;
    IntendedPercentileIsFloor(h, Buckets, 500, s.median);
    var low := SmallestSample(samples);
    NoneBelow(samples, low);
    CountBelowIsSum(samples, low);
    assert h[low] > 0;
    if m == s.median && (forall d :: 0 <= d < Buckets && h[d] > 0 ==> 1000 * Sum(h[..d]) >= 500 * |samples|) {
      assert false;
    }
    CountBelowIsSum(samples, m);
    assert m in samples;
    forall d | d in samples && m < d
      ensures 2 * CountBelow(samples, d) >= |samples|
    {
      CountBelowIsSum(samples, d);
      assert h[d] > 0;
    }
  }

  /** Some recorded delay is the smallest. */
  lemma {:induction false} SmallestSample(samples: seq<nat>) returns (low: nat)
    requires samples != []
    ensures low in samples && forall x :: x in samples ==> low <= x
  {
    var last := samples[|samples| - 1];
    if |samples| == 1 {
      low := last;
    } else {
      var init := samples[..|samples| - 1];
      low := SmallestSample(init);
      assert samples == init + [last];
      if last < low {
        low := last;
      }
    }
  }

  /** No sample is below the smallest one. */
  lemma {:induction false} NoneBelow(samples: seq<nat>, low: nat)
    requires forall x :: x in samples ==> low <= x
    ensures CountBelow(samples, low) == 0
  {
    if samples != [] {
      var init := samples[..|samples| - 1];
      assert forall x :: x in init ==> x in samples;
      assert samples[|samples| - 1] in samples;
      NoneBelow(init, low);
    }
  }

  /** A second `Calc` without new data changes nothing. */
  lemma CalculatedIdempotent(s: EventState)
    requires Sound(s.counters)
    ensures Calculated(Calculated(s)) == Calculated(s)
  {
    var k := s.counters;
    ScanStable(k.buckets, Buckets, k.total, 500, 1000, s.median);
    ScanStable(k.buckets, Bound122, k.below122, 900, 1000, s.p90);
    ScanStable(k.buckets, Bound140, k.below140, 990, 1000, s.p99);
    ScanStable(k.buckets, Bound145, k.below145, 999, 1000, s.p999);
  }

  // ---------------------------------------------------------------------
  // `Calc` as written

  /** `Calc` as the source writes it: the share of the samples passed,
      a number between 0 and 1, is compared with 50.0, 90.0, 99.0 and 99.9,
      percent figures. */
  function CalculatedAsWritten(s: EventState): (t: EventState)
    requires Sound(s.counters)
    ensures t.counters == s.counters
  {
    var k := s.counters;
    s.(median := Scan(k.buckets, Buckets, Buckets, k.total, 500, 10, s.median).value,
       p90 := Scan(k.buckets, Buckets, Bound122, k.below122, 900, 10, s.p90).value,
       p99 := Scan(k.buckets, Buckets, Bound140, k.below140, 990, 10, s.p99).value,
       p999 := Scan(k.buckets, Buckets, Bound145, k.below145, 999, 10, s.p999).value)
  }

  /** The cached values as the largest occupied delay under each bound, or
      as they were when there is none. */
  function Tops(c: Summary, h: seq<nat>): Summary
    requires |h| == Buckets
  {
    Summary(c.minimum, Top(h, Buckets, c.median), Top(h, Bound122, c.p90),
            Top(h, Bound140, c.p99), Top(h, Bound145, c.p999))
  }

  /** As written, every guard passes, so each cached value is the largest
      recorded delay under its bound, and the median is the maximum. */
  lemma AsWrittenOfReplay(s: EventState, samples: seq<nat>)
    requires InRange(samples) && s.counters == Replay(samples)
    ensures Report(CalculatedAsWritten(s)) == Tops(Report(s), Tally(samples))
    ensures samples != [] ==> CalculatedAsWritten(s).median == s.counters.maximum == MaxFold(samples)
  {
    var h := Tally(samples);
    ReplayCounts(samples);
    TallyHoldsAll(samples);
    assert h[..Buckets] == h;
    CountBelowIsSum(samples, Bound122);
    CountBelowIsSum(samples, Bound140);
    CountBelowIsSum(samples, Bound145);
    AsWrittenScanIsTop(h, Buckets, 500, s.median);
    AsWrittenScanIsTop(h, Bound122, 900, s.p90);
    AsWrittenScanIsTop(h, Bound140, 990, s.p99);
    AsWrittenScanIsTop(h, Bound145, 999, s.p999);
    MaxFoldIsLargest(samples);
    TallyCounts(samples);
    if samples != [] {
      forall j | MaxFold(samples) < j < Buckets
        ensures h[j] == 0
      {
        assert j !in samples;
      }
      TopOfLast(h, Buckets, MaxFold(samples), s.median);
    }
  }

  /** As written, too, a second `Calc` without new data changes nothing. */
  lemma AsWrittenIdempotent(s: EventState)
    requires Sound(s.counters)
    ensures CalculatedAsWritten(CalculatedAsWritten(s)) == CalculatedAsWritten(s)
  {
    var k := s.counters;
    ScanStable(k.buckets, Buckets, k.total, 500, 10, s.median);
    ScanStable(k.buckets, Bound122, k.below122, 900, 10, s.p90);
    ScanStable(k.buckets, Bound140, k.below140, 990, 10, s.p99);
    ScanStable(k.buckets, Bound145, k.below145, 999, 10, s.p999);
  }

  /** Nine delays of 10 microseconds and one of 130. */
  function Example(): (samples: seq<nat>)
    ensures InRange(samples)
  {
    [10, 10, 10, 10, 10, 10, 10, 10, 10, 130]
  }

  /** As written, a statistic that recorded the example reports 130 as
      its median: the largest delay, not the middle one. */
  lemma AsWrittenMedianExample(s: EventState)
    requires s.counters == Replay(Example())
    ensures CalculatedAsWritten(s).median == 130
  {
    var samples := Example();
    AsWrittenOfReplay(s, samples);
    MaxFoldIsLargest(samples);
    assert samples[9] == 130;
  }

  /** As intended, the same statistic reports 10 as its median. */
  lemma MedianExample(s: EventState)
    requires s.counters == Replay(Example())
    ensures Calculated(s).median == 10
  {
    var samples := Example();
    var nine := samples[..9];
    assert forall x :: x in nine ==> x < 130;
    AllBelow(nine, 130);
    assert CountBelow(samples, 130) == 9;
    MedianOfReplay(s, samples);
  }

  /** When every sample is below `bound`, all of them are counted. */
  lemma {:induction false} AllBelow(samples: seq<nat>, bound: nat)
    requires forall x :: x in samples ==> x < bound
    ensures CountBelow(samples, bound) == |samples|
  {
    if samples != [] {
      var init := samples[..|samples| - 1];
      assert forall x :: x in init ==> x in samples;
      assert samples[|samples| - 1] in samples;
      AllBelow(init, bound);
    }
  }

  /** The bin range of the full report of sound counters: aligned bins
      inside the histogram (main.cpp:157-158). */
  lemma RangeOfCounters(k: Counters)
    requires Sound(k)
    ensures RangeLow(k.minimum) <= RangeHigh(k.maximum) <= Buckets
    ensures RangeLow(k.minimum) % Width == 0 && (RangeHigh(k.maximum) - RangeLow(k.minimum)) % Width == 0
  {
  }

  /** The rows of the full report (main.cpp:154-181) of sound counters:
      the bins from the minimum rounded down to a multiple of 5 up to the
      maximum rounded down plus 5; together they count every sample of
      that range. */
  function Rows(k: Counters): (r: seq<Bin>)
    requires Sound(k)
    ensures Counts(r) == Sum(k.buckets[RangeLow(k.minimum)..RangeHigh(k.maximum)])
  {
    RangeOfCounters(k);
    BinsCountRange(k.buckets, RangeLow(k.minimum), RangeHigh(k.maximum), 0);
    Bins(k.buckets, RangeLow(k.minimum), RangeHigh(k.maximum), 0)
  }

  /** The rows are one per non-empty bin of 5 microseconds inside the
      range, in ascending order, each with its count and the count of the
      rows before it. */
  lemma RowsAreBins(k: Counters)
    requires Sound(k)
    ensures NonEmptyBins(Rows(k), RangeLow(k.minimum), RangeHigh(k.maximum))
    ensures BinCounts(k.buckets, Rows(k))
    ensures Ascending(Rows(k))
    ensures RunningCounts(Rows(k), 0)
  {
    var lo, hi := RangeLow(k.minimum), RangeHigh(k.maximum);
    RangeOfCounters(k);
    BinsAreNonEmpty(k.buckets, lo, hi, 0);
    BinsCountTheirBins(k.buckets, lo, hi, 0);
    BinsAreAscending(k.buckets, lo, hi, 0);
    BinsRunningCount(k.buckets, lo, hi, 0);
  }

  /** Unless a recorded zero was overwritten in the minimum, the rows of a
      statistic that recorded `samples` hold every one of them. */
  lemma RowsOfReplay(samples: seq<nat>)
    requires InRange(samples)
    requires 0 !in samples || MinFold(samples) == 0
    ensures Counts(Rows(Replay(samples))) == |samples|
  {
    var h := Tally(samples);
    var lo, hi := RangeLow(MinFold(samples)), RangeHigh(MaxFold(samples));
    ReplayCounts(samples);
    RangeOfCounters(Replay(samples));
    assert lo <= hi <= |h|;
    MinFoldBounded(samples);
    MaxFoldIsLargest(samples);
    TallyCounts(samples);
    TallyHoldsAll(samples);
    if samples != [] && MinFold(samples) != 0 {
      MinFoldWithoutZero(samples);
    }
    forall d | 0 <= d < |h| && (d < lo || hi <= d)
      ensures h[d] == 0
    {
      assert d !in samples;
    }
    SumOfRange(h, lo, hi);
    RowsAreBins(Replay(samples));
  }

  class EventStatistic {
    var minimum: nat
    var maximum: nat
    var median: nat
    var p90Below122: nat
    var p99Below140: nat
    var p999Below145: nat

    var total: nat
    var below122: nat
    var below140: nat
    var below145: nat

    /** The buckets; `std::array` is part of the object, never replaced. */
    const histogram: array<nat>

    /** One bucket per microsecond of a second, and the minimum a bucket no
        larger than the maximum. */
    ghost predicate Ready()
      reads this`minimum, this`maximum
    {
      histogram.Length == Buckets && minimum <= maximum < Buckets
    }

    /** The buckets and the running counters. */
    ghost function Abstract(): Counters
      reads histogram, this`total, this`below122, this`below140, this`below145, this`minimum, this`maximum
    {
      Counters(histogram[..], total, below122, below140, below145, minimum, maximum)
    }

    ghost function State(): EventState
      reads this, histogram
    {
      EventState(Abstract(), median, p90Below122, p99Below140, p999Below145)
    }

    /** The values the one-line report shows: the current minimum and the
        cached median and three percentiles. */
    function Reported(): Summary
      reads this
    {
      Summary(minimum, median, p90Below122, p99Below140, p999Below145)
    }

    constructor ()
      ensures Ready() && State() == Initial() && fresh(histogram)
    {
      histogram := new nat[Buckets];
      new;
      Reset();
    }

    /** Zeroes every counter, every cached value and every bucket. */
    method Reset()
      requires histogram.Length == Buckets
      modifies this, histogram
      ensures Ready() && State() == Initial()
    {
      minimum := 0;
      maximum := 0;
      median := 0;
      p90Below122 := 0;
      p99Below140 := 0;
      p999Below145 := 0;
      total := 0;
      below122 := 0;
      below140 := 0;
      below145 := 0;
      forall d | 0 <= d < histogram.Length {
        histogram[d] := 0;
      }
      assert histogram[..] == Zeros(Buckets);
    }

    /** Records one delay: its bucket is the delay modulo one second, and
        that bucket, the total and the sub-counters whose bound it is under
        go up by one; the cached values are outside the frame, so they are
        left stale. */
    method AddData(delay: nat)
      requires Ready()
      modifies histogram, this`total, this`minimum, this`maximum, this`below122, this`below140, this`below145
      ensures Ready()
      ensures Abstract() == Record(old(Abstract()), delay % Buckets)
    {
      var d := delay % Buckets;
      assert d < Buckets;
      ghost var c := Abstract();
      histogram[d] := histogram[d] + 1;
      ghost var h' := histogram[..];
      assert h' == c.buckets[d := c.buckets[d] + 1];
      total := total + 1;
      minimum := MinStep(minimum, d);
      maximum := MaxStep(maximum, d);
      below122 := CountStep(below122, d, Bound122);
      below140 := CountStep(below140, d, Bound140);
      below145 := CountStep(below145, d, Bound145);
      assert histogram[..] == h';
      assert Abstract() == Record(c, d);
    }

    /** Recomputes the cached values with the four scans of the source, in
        one pass over the buckets, each guard comparing the share passed
        with a percent figure as the source writes it; nothing else
        changes. */
    method Calc()
      requires Ready()
      modifies this`median, this`p90Below122, this`p99Below140, this`p999Below145
      ensures State() == CalculatedAsWritten(old(State()))
    {
      ghost var h := histogram[..];
      var localMedian: nat := 0;
      var local122: nat := 0;
      var local140: nat := 0;
      var local145: nat := 0;

      for delay := 0 to Buckets
        invariant Cursor(median, localMedian) == Scan(h, delay, Buckets, total, 500, 10, old(median))
        invariant Cursor(p90Below122, local122) == Scan(h, delay, Bound122, below122, 900, 10, old(p90Below122))
        invariant Cursor(p99Below140, local140) == Scan(h, delay, Bound140, below140, 990, 10, old(p99Below140))
        invariant Cursor(p999Below145, local145) == Scan(h, delay, Bound145, below145, 999, 10, old(p999Below145))
      {
        var count := histogram[delay];
        assert count == h[delay];
        if count == 0 {
          continue;
        }
        // local / total < 50.0, and so on, on exact numbers: a share, never
        // above 1, against a percent figure (see `Calculated` for the
        // evidently intended fractions)
        if Guard(localMedian, total, 500, 10) {
          median := delay;
          localMedian := localMedian + count;
        }
        assert Cursor(median, localMedian) == Scan(h, delay + 1, Buckets, total, 500, 10, old(median));
        if delay < Bound122 {
          if Guard(local122, below122, 900, 10) {
            p90Below122 := delay;
            local122 := local122 + count;
          }
        }
        assert Cursor(p90Below122, local122) == Scan(h, delay + 1, Bound122, below122, 900, 10, old(p90Below122));
        if delay < Bound140 {
          if Guard(local140, below140, 990, 10) {
            p99Below140 := delay;
            local140 := local140 + count;
          }
        }
        assert Cursor(p99Below140, local140) == Scan(h, delay + 1, Bound140, below140, 990, 10, old(p99Below140));
        if delay < Bound145 {
          if Guard(local145, below145, 999, 10) {
            p999Below145 := delay;
            local145 := local145 + count;
          }
        }
        assert Cursor(p999Below145, local145) == Scan(h, delay + 1, Bound145, below145, 999, 10, old(p999Below145));
      }

      assert histogram[..] == h;
    }

    /** The one-line report (main.cpp:142-152) of the minimum and the cached
        values; it reads back into exactly those values. */
    function GetReport(): (r: string)
      reads this
      ensures ReadSummary(r) == Some(Reported())
    {
      FormatSummary(Reported())
    }

    /** The rows of the full report (main.cpp:154-181), computed by the two
        loops of the source. */
    method GetFullReport() returns (rows: seq<Bin>)
      requires Ready()
      ensures rows == Rows(Abstract())
    {
      var step := Width;
      var rangeMin := minimum - minimum % step;
      var rangeMax := maximum - maximum % step + step;
      RangeOfCounters(Abstract());
      rows := BinRows(histogram, rangeMin, rangeMax);
    }

    /** The two loops of the full report (main.cpp:164-179): the outer one
        walks the bins of 5 microseconds, the inner one adds up the buckets
        of a bin, and a row is emitted for every bin that is not empty. */
    static method BinRows(histogram: array<nat>, rangeMin: nat, rangeMax: nat) returns (rows: seq<Bin>)
      requires rangeMin <= rangeMax <= histogram.Length && (rangeMax - rangeMin) % Width == 0
      ensures rows == Bins(histogram[..], rangeMin, rangeMax, 0)
    {
      ghost var h := histogram[..];
      var step := Width;
      rows := [];
      var transNoBelowExecTime := 0;
      var execTime := rangeMin;
      while execTime < rangeMax
        invariant rangeMin <= execTime <= rangeMax && (rangeMax - execTime) % Width == 0
        invariant rows + Bins(h, execTime, rangeMax, transNoBelowExecTime) == Bins(h, rangeMin, rangeMax, 0)
        decreases rangeMax - execTime
      {
        NextSpan(execTime, rangeMax);
        var transNo := 0;
        var i := execTime;
        while i < execTime + step
          invariant execTime <= i <= execTime + step
          invariant transNo == Sum(h[execTime..i])
        {
          SumSliceStep(h, execTime, i);
          transNo := transNo + histogram[i];
          i := i + 1;
        }
        assert i == execTime + Width;
        BinsStep(h, execTime, rangeMax, transNoBelowExecTime, transNo, rows);
        if transNo != 0 {
          rows := rows + [Bin(execTime, transNo, transNoBelowExecTime)];
          transNoBelowExecTime := transNoBelowExecTime + transNo;
        }
        execTime := execTime + step;
      }
    }

    /** One turn of the outer loop: the rows still to come start with the
        current bin when it is not empty. */
    static lemma BinsStep(h: seq<nat>, lo: nat, hi: nat, below: nat, c: nat, rows: seq<Bin>)
      requires lo < hi <= |h| && (hi - lo) % Width == 0
      requires c == Sum(h[lo..lo + Width])
      ensures c == 0 ==> rows + Bins(h, lo, hi, below) == rows + Bins(h, lo + Width, hi, below)
      ensures c != 0 ==> rows + Bins(h, lo, hi, below) == (rows + [Bin(lo, c, below)]) + Bins(h, lo + Width, hi, below + c)
    {
    }
  }
}
