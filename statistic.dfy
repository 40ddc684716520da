/** The registry of the collector (class `Statistic`, main.cpp:185-230): an
    ordered map from event name to the statistic of that event. */
module Statistics {
  import opened Decimal
  import opened Histogram
  import opened EventStatistics

  // ---------------------------------------------------------------------
  // The key order of `std::map<std::string, ...>`

  /** `std::string` comparison: character by character, and a proper prefix
      before the longer string. */
  predicate Less(a: string, b: string)
    ensures Less(a, b) ==> a != b
    ensures |a| < |b| && a == b[..|a|] ==> Less(a, b)
  {
    if a == [] then b != []
    else if b == [] then false
    else a[0] < b[0] || (a[0] == b[0] && Less(a[1..], b[1..]))
  }

  lemma {:induction false} LessTransitive(a: string, b: string, c: string)
    requires Less(a, b) && Less(b, c)
    ensures Less(a, c)
  {
    if a != [] && a[0] == b[0] && b[0] == c[0] {
      LessTransitive(a[1..], b[1..], c[1..]);
    }
  }

  /** Any two different names are ordered one way or the other. */
  lemma {:induction false} LessTotal(a: string, b: string)
    ensures a == b || Less(a, b) || Less(b, a)
  {
    if a != [] && b != [] && a[0] == b[0] {
      LessTotal(a[1..], b[1..]);
      assert a == [a[0]] + a[1..] && b == [b[0]] + b[1..];
    }
  }

  /** Names in strictly ascending order: the iteration order of the map. */
  predicate Sorted(keys: seq<string>) {
    forall i, j :: 0 <= i < j < |keys| ==> Less(keys[i], keys[j])
  }

  lemma SortedIsDistinct(keys: seq<string>)
    requires Sorted(keys)
    ensures forall i, j :: 0 <= i < j < |keys| ==> keys[i] != keys[j]
  {
    forall i, j | 0 <= i < j < |keys|
      ensures keys[i] != keys[j]
    {
    }
  }

  /** The iteration order after inserting `e`: the names before and `e`,
      still ascending; inserting a name already there changes nothing. */
  function Insert(keys: seq<string>, e: string): (r: seq<string>)
    requires Sorted(keys)
    ensures Sorted(r)
    ensures forall x :: x in r <==> x in keys || x == e
    ensures e in keys ==> r == keys
  {
    if keys == [] then [e]
    else if e == keys[0] then keys
    else if Less(e, keys[0]) then
      assert forall j :: 0 <= j < |keys| ==> Less(e, keys[j]) by {
        forall j | 0 <= j < |keys| ensures Less(e, keys[j]) {
          if j > 0 {
            LessTransitive(e, keys[0], keys[j]);
          }
        }
      }
      [e] + keys
    else
      var rest := Insert(keys[1..], e);
      LessTotal(e, keys[0]);
      assert forall x :: x in rest ==> Less(keys[0], x) by {
        forall x | x in rest ensures Less(keys[0], x) {
          if x != e {
            var j :| 0 <= j < |keys[1..]| && keys[1..][j] == x;
            assert keys[j + 1] == x;
          }
        }
      }
      assert keys == [keys[0]] + keys[1..];
      [keys[0]] + rest
  }

  /** Two names are never each before the other. */
  lemma {:induction false} LessAsymmetric(a: string, b: string)
    ensures !(Less(a, b) && Less(b, a))
  {
    if a != [] && b != [] && a[0] == b[0] {
      LessAsymmetric(a[1..], b[1..]);
    }
  }

  /** `keys` lists the names of `names` in ascending order. */
  ghost predicate Orders(keys: seq<string>, names: set<string>) {
    Sorted(keys) && forall e :: e in names <==> e in keys
  }

  /** There is one way to list a set of names in ascending order. */
  lemma {:induction false} OrdersUnique(a: seq<string>, b: seq<string>, names: set<string>)
    requires Orders(a, names) && Orders(b, names)
    ensures a == b
  {
    if a != [] {
      assert a[0] in b;
    }
    if b != [] {
      assert b[0] in a;
    }
    if a != [] && b != [] {
      var k :| 0 <= k < |b| && b[k] == a[0];
      var j :| 0 <= j < |a| && a[j] == b[0];
      LessAsymmetric(a[0], b[0]);
      assert a[0] == b[0];
      SortedIsDistinct(a);
      SortedIsDistinct(b);
      var rest := names - {a[0]};
      forall e | e in rest
        ensures e in a[1..] && e in b[1..]
      {
        var i :| 0 <= i < |a| && a[i] == e;
        assert a[1..][i - 1] == e;
        var l :| 0 <= l < |b| && b[l] == e;
        assert b[1..][l - 1] == e;
      }
      forall e | e in a[1..]
        ensures e in rest
      {
        var i :| 0 <= i < |a[1..]| && a[1..][i] == e;
        assert a[i + 1] == e;
      }
      forall e | e in b[1..]
        ensures e in rest
      {
        var i :| 0 <= i < |b[1..]| && b[1..][i] == e;
        assert b[i + 1] == e;
      }
      OrdersUnique(a[1..], b[1..], rest);
      assert a == [a[0]] + a[1..] && b == [b[0]] + b[1..];
    }
  }

  /** The names of `names` in ascending order: the order `std::map` keeps
      its entries in. */
  method InOrder(names: set<string>) returns (keys: seq<string>)
    ensures Orders(keys, names)
  {
    keys := [];
    var rest := names;
    while rest != {}
      invariant Sorted(keys)
      invariant forall e :: e in names <==> e in keys || e in rest
      decreases |rest|
    {
      var e :| e in rest;
      keys := Insert(keys, e);
      rest := rest - {e};
    }
  }

  // ---------------------------------------------------------------------
  // What the registry holds, seen from outside

  /** The registry after `AddEvent(e)`: the entries before, and a fresh
      entry for `e` when there was none. */
  function Admit(v: map<string, EventState>, e: string): (w: map<string, EventState>)
    ensures w.Keys == v.Keys + {e}
    ensures forall f :: f in v ==> w[f] == v[f]
    ensures e !in v ==> w[e] == Initial()
  {
    if e in v then v else v[e := Initial()]
  }

  /** Admitting a name twice is admitting it once. */
  lemma AdmitIdempotent(v: map<string, EventState>, e: string)
    ensures Admit(Admit(v, e), e) == Admit(v, e)
  {
  }

  /** Every statistic of the registry keeps consistent counters. */
  ghost predicate AllSound(v: map<string, EventState>) {
    forall e :: e in v ==> Sound(v[e].counters)
  }

  /** The registry after `AddEventData(e, delay)`: `e` admitted, then one
      delay recorded into its statistic and into no other. */
  function AddedData(v: map<string, EventState>, e: string, delay: nat): (w: map<string, EventState>)
    requires AllSound(v)
    ensures AllSound(w)
    ensures w.Keys == v.Keys + {e}
    ensures forall f :: f in v && f != e ==> w[f] == v[f]
  {
    var a := Admit(v, e);
    a[e := Recorded(a[e], delay)]
  }

  /** Recalculating a statistic nothing was recorded into leaves it as it
      is, with the guards as written and as intended alike. */
  lemma CalculatedInitial()
    ensures CalculatedAsWritten(Initial()) == Initial()
    ensures Calculated(Initial()) == Initial()
  {
    var h := Initial().counters.buckets;
    ScanOfEmpty(h, Buckets, Buckets, 0, 500, 10, 0);
    ScanOfEmpty(h, Buckets, Bound122, 0, 900, 10, 0);
    ScanOfEmpty(h, Buckets, Bound140, 0, 990, 10, 0);
    ScanOfEmpty(h, Buckets, Bound145, 0, 999, 10, 0);
    ScanOfEmpty(h, Buckets, Buckets, 0, 500, 1000, 0);
    ScanOfEmpty(h, Buckets, Bound122, 0, 900, 1000, 0);
    ScanOfEmpty(h, Buckets, Bound140, 0, 990, 1000, 0);
    ScanOfEmpty(h, Buckets, Bound145, 0, 999, 1000, 0);
  }

  /** The report line of a statistic nothing was recorded into. */
  const ZeroLine: string := "min=0" + " 50%=0" + " 90%=0" + " 99%=0" + " 99.9%=0"

  lemma AppendAssociative(a: string, b: string, c: string)
    ensures (a + b) + c == a + (b + c)
  {
  }

  /** A field whose value is zero is its label followed by `0`. */
  lemma ZeroField(keys: seq<string>, values: seq<nat>)
    requires |keys| == |values| > 0 && values[0] == 0
    ensures FormatFields(keys, values) == keys[0] + "0" + FormatFields(keys[1..], values[1..])
  {
  }

  /** Zero values are reported as `min=0 50%=0 90%=0 99%=0 99.9%=0`. */
  lemma ZeroReport()
    ensures FormatSummary(Summary(0, 0, 0, 0, 0)) == ZeroLine
  {
    var k := SummaryKeys;
    var z: seq<nat> := [0, 0, 0, 0, 0];
    assert Values(Summary(0, 0, 0, 0, 0)) == z;
    ZeroField(k[4..], z[4..]);
    ZeroField(k[3..], z[3..]);
    ZeroField(k[2..], z[2..]);
    ZeroField(k[1..], z[1..]);
    ZeroField(k, z);
    assert FormatFields(k[4..], z[4..]) == " 99.9%=0" by {
      assert k[4..][1..] == [];
    }
    var a, b, c, d, e := "min=0", " 50%=0", " 90%=0", " 99%=0", " 99.9%=0";
    assert FormatFields(k, z) == a + (b + (c + (d + e)));
    AppendAssociative(a, b, c + (d + e));
    AppendAssociative(a + b, c, d + e);
    AppendAssociative(a + b + c, d, e);
  }

  /** One event's part of the full report: the event, its one-line report
      and the rows of its table. */
  datatype Dump = Dump(event: string, report: string, rows: seq<Bin>)

  /** The events of a full report, in order. */
  function Events(dumps: seq<Dump>): (r: seq<string>)
    ensures |r| == |dumps| && forall i :: 0 <= i < |dumps| ==> r[i] == dumps[i].event
  {
    if dumps == [] then [] else Events(dumps[..|dumps| - 1]) + [dumps[|dumps| - 1].event]
  }

  /** `d` is the part of the full report of a statistic in state `s`. */
  ghost predicate Reports(d: Dump, s: EventState) {
    && Sound(s.counters)
    && d.report == FormatSummary(Report(s)) && d.rows == Rows(s.counters)
  }

  /** `c` is the registry `v` with the cached values of the events in
      `done`, and only those, recomputed. */
  ghost predicate Progress(c: map<string, EventState>, v: map<string, EventState>, done: seq<string>) {
    && AllSound(v)
    && c.Keys == v.Keys
    && (forall e :: e in c ==> c[e] == if e in done then CalculatedAsWritten(v[e]) else v[e])
  }

  /** `dumps` are the parts of the full report of the events `done`, in
      that order, after `Calc`. */
  ghost predicate Dumped(dumps: seq<Dump>, v: map<string, EventState>, done: seq<string>) {
    && |dumps| == |done|
    && forall j :: 0 <= j < |done| ==>
         dumps[j].event == done[j] && done[j] in v && Sound(v[done[j]].counters) &&
         Reports(dumps[j], CalculatedAsWritten(v[done[j]]))
  }

  /** One turn of the full report: the next event in order is recomputed
      and its part of the report appended. */
  lemma DumpStep(c: map<string, EventState>, c': map<string, EventState>, v: map<string, EventState>,
                 keys: seq<string>, i: nat, dumps: seq<Dump>, d: Dump)
    requires Orders(keys, v.Keys) && i < |keys|
    requires Progress(c, v, keys[..i]) && Dumped(dumps, v, keys[..i])
    requires keys[i] in c && c' == c[keys[i] := CalculatedAsWritten(c[keys[i]])]
    requires d.event == keys[i] && Reports(d, c'[keys[i]])
    ensures Progress(c', v, keys[..i + 1]) && Dumped(dumps + [d], v, keys[..i + 1])
  {
    var e := keys[i];
    SortedIsDistinct(keys);
    assert e !in keys[..i];
    assert keys[..i + 1] == keys[..i] + [e];
  }

  /** At the end of the full report every event is recomputed. */
  lemma ProgressComplete(c: map<string, EventState>, v: map<string, EventState>, keys: seq<string>)
    requires Orders(keys, v.Keys) && Progress(c, v, keys)
    ensures c == map e | e in v :: CalculatedAsWritten(v[e])
  {
    forall e | e in c
      ensures c[e] == CalculatedAsWritten(v[e])
    {
      assert e in keys;
    }
  }

  /** At the end of the full report every event has its part, in the order
      of the names. */
  lemma DumpedComplete(dumps: seq<Dump>, c: map<string, EventState>, v: map<string, EventState>, keys: seq<string>)
    requires AllSound(v)
    requires Dumped(dumps, v, keys) && c == map e | e in v :: CalculatedAsWritten(v[e])
    ensures Events(dumps) == keys
    ensures forall j :: 0 <= j < |dumps| ==> dumps[j].event in c && Reports(dumps[j], c[dumps[j].event])
  {
  }

  class Statistic {
    /** The events by name. */
    var events: map<string, EventStatistic>
    /** Each event's counters and cached values. */
    ghost var Contents: map<string, EventState>
    /** The statistics of the events and their buckets. */
    ghost var Repr: set<object>

    ghost predicate Valid()
      reads this, Repr
    {
      && this !in Repr
      && events.Keys == Contents.Keys
      && (forall e :: e in events ==> events[e] in Repr && events[e].histogram in Repr)
      && (forall e :: e in events ==> events[e].Ready() && events[e].State() == Contents[e])
      && (forall e, f :: e in events && f in events && e != f ==>
            events[e] != events[f] && events[e].histogram != events[f].histogram)
    }

    constructor ()
      ensures Valid() && fresh(Repr)
      ensures Contents == map[]
    {
      events := map[];
      Contents := map[];
      Repr := {};
    }

    /** Creates the statistic of `e` unless there is one (main.cpp:191-196). */
    method AddEvent(e: string)
      requires Valid()
      modifies this
      ensures Valid() && fresh(Repr - old(Repr))
      ensures Contents == Admit(old(Contents), e)
    {
      if e !in events {
        var s := new EventStatistic();
        Enter(e, s);
      }
    }

    /** Enters the statistic `s` under the new name `e`. */
    method Enter(e: string, s: EventStatistic)
      requires Valid() && e !in events
      requires s !in Repr && s.histogram !in Repr && s.Ready() && s.State() == Initial()
      modifies this
      ensures Valid() && Repr == old(Repr) + {s, s.histogram}
      ensures events == old(events)[e := s] && Contents == old(Contents)[e := Initial()]
    {
      events := events[e := s];
      Repr := Repr + {s, s.histogram};
      Contents := Contents[e := Initial()];
    }

    /** Records one delay of `e`, creating its statistic first when needed
        (main.cpp:198-203). */
    method AddEventData(e: string, delay: nat)
      requires Valid()
      modifies this, Repr
      ensures Valid() && fresh(Repr - old(Repr))
      ensures AllSound(old(Contents)) && Contents == AddedData(old(Contents), e, delay)
    {
      AddEvent(e);
      AddDataTo(e, delay);
    }

    /** `AddData` on the statistic of the known event `e`. */
    method AddDataTo(e: string, delay: nat)
      requires Valid() && e in events
      modifies this, Repr
      ensures Valid() && Repr == old(Repr) && events == old(events)
      ensures Contents == old(Contents)[e := Recorded(old(Contents)[e], delay)]
    {
      var s := events[e];
      s.AddData(delay);
      Contents := Contents[e := Recorded(Contents[e], delay)];
      forall f | f in events && f != e
        ensures events[f].Ready() && events[f].State() == Contents[f]
      {
        assert unchanged(events[f], events[f].histogram);
      }
    }

    /** `Calc` on the statistic of the known event `e`. */
    method CalcOf(e: string)
      requires Valid() && e in events
      modifies this, Repr
      ensures Valid() && Repr == old(Repr) && events == old(events)
      ensures Contents == old(Contents)[e := CalculatedAsWritten(old(Contents)[e])]
    {
      var s := events[e];
      s.Calc();
      Contents := Contents[e := CalculatedAsWritten(Contents[e])];
      forall f | f in events && f != e
        ensures events[f].Ready() && events[f].State() == Contents[f]
      {
        assert unchanged(events[f], events[f].histogram);
      }
    }

    /** `GetReport` of the statistic of the known event `e`. */
    method ReportOf(e: string) returns (line: string)
      requires Valid() && e in events
      ensures line == FormatSummary(Report(Contents[e]))
    {
      line := events[e].GetReport();
    }

    /** `GetFullReport` of the statistic of the known event `e`. */
    method RowsOf(e: string) returns (rows: seq<Bin>)
      requires Valid() && e in events
      ensures rows == Rows(Contents[e].counters)
    {
      rows := events[e].GetFullReport();
    }

    /** Recomputes the cached values of `e`, creating its statistic first
        when needed, and returns its report line (main.cpp:205-215); an
        unknown event reports zeros. */
    method GetEventStatistic(e: string) returns (r: string)
      requires Valid()
      modifies this, Repr
      ensures Valid() && fresh(Repr - old(Repr))
      ensures Contents == Admit(old(Contents), e)[e := CalculatedAsWritten(Admit(old(Contents), e)[e])]
      ensures r == e + " " + FormatSummary(Report(Contents[e])) + "\n"
      ensures e !in old(Contents) ==> Report(Contents[e]) == Summary(0, 0, 0, 0, 0)
      ensures e !in old(Contents) ==> r == e + " " + ZeroLine + "\n"
    {
      AddEvent(e);
      r := LineOf(e);
      if e !in old(Contents) {
        CalculatedInitial();
        ZeroReport();
      }
    }

    /** The part of `GetEventStatistic` after the event is known to exist:
        `Calc`, then the line with the report. */
    method LineOf(e: string) returns (r: string)
      requires Valid() && e in events
      modifies this, Repr
      ensures Valid() && Repr == old(Repr) && events == old(events)
      ensures Contents == old(Contents)[e := CalculatedAsWritten(old(Contents)[e])]
      ensures r == e + " " + FormatSummary(Report(Contents[e])) + "\n"
    {
      var result := e + " ";
      CalcOf(e);
      var line := ReportOf(e);
      result := result + line + "\n";
      r := result;
    }

    /** One event's part of the full report: `Calc`, then its report line
        and the rows of its table. */
    method DumpOf(e: string) returns (d: Dump)
      requires Valid() && e in events
      modifies this, Repr
      ensures Valid() && Repr == old(Repr) && events == old(events)
      ensures Contents == old(Contents)[e := CalculatedAsWritten(old(Contents)[e])]
      ensures d.event == e && Reports(d, Contents[e])
    {
      CalcOf(e);
      var report := ReportOf(e);
      var rows := RowsOf(e);
      d := Dump(e, report, rows);
    }

    /** Recomputes every event's cached values and returns, in the map's
        order, each event's report line and the rows of its table
        (main.cpp:217-230). */
    method GetFullStatistic() returns (dumps: seq<Dump>)
      requires Valid()
      modifies this, Repr
      ensures Valid() && Repr == old(Repr) && events == old(events)
      ensures Contents == map e | e in old(Contents) :: CalculatedAsWritten(old(Contents)[e])
      ensures Orders(Events(dumps), Contents.Keys)
      ensures forall i :: 0 <= i < |dumps| ==>
        dumps[i].event in Contents && Reports(dumps[i], Contents[dumps[i].event])
    {
      var keys := InOrder(events.Keys);
      dumps := DumpAll(keys);
      ProgressComplete(Contents, old(Contents), keys);
      DumpedComplete(dumps, Contents, old(Contents), keys);
    }

    /** The loop of `GetFullStatistic` over the events in the order `keys`. */
    method DumpAll(keys: seq<string>) returns (dumps: seq<Dump>)
      requires Valid() && Orders(keys, events.Keys)
      modifies this, Repr
      ensures Valid() && Repr == old(Repr) && events == old(events)
      ensures Progress(Contents, old(Contents), keys) && Dumped(dumps, old(Contents), keys)
    {
      ghost var v0 := Contents;
      dumps := [];
      var i := 0;
      while i < |keys|
        invariant 0 <= i <= |keys|
        invariant Valid() && Repr == old(Repr) && events == old(events)
        invariant Progress(Contents, v0, keys[..i]) && Dumped(dumps, v0, keys[..i])
      {
        var e := keys[i];
        ghost var before := Contents;
        var d := DumpOf(e);
        DumpStep(before, Contents, v0, keys, i, dumps, d);
        dumps := dumps + [d];
        i := i + 1;
      }
      assert keys[..i] == keys;
    }
  }
}
