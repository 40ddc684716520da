/** The record parser of a connection (`MainHandler`, main.cpp:359-429): a
    five-state machine that picks the EVENT and AVGTSMR columns out of the
    tab-separated log lines streamed by a sender, and records each delay in
    the registry. */
module RecordParser {
  import opened Decimal
  import opened Histogram
  import opened EventStatistics
  import opened Statistics

  // ---------------------------------------------------------------------
  // The machine

  /** The value of `section` in the source: 0 waits for the `]` closing the
      TIME column, 1 waits for the TAB after it, 2 reads EVENT, 3 skips the
      middle columns counting TABs, 4 reads the digits of AVGTSMR. */
  datatype Section = ScanStart | ExpectTab | ReadEvent | SkipFillers | ReadDelay

  /** Text made of decimal digits only, as the AVGTSMR buffer always is. */
  type DigitText = s: string | AllDigits(s)

  /** The parser's variables, which live across all chunks read from one
      connection: `section`, `tab_counter`, `event` and `avgtsmr`. */
  datatype Machine = Machine(section: Section, tabs: int, event: string, digits: DigitText)

  /** The variables as `MainHandler` initialises them. */
  const Start := Machine(ScanStart, 0, "", "")

  /** One parsed record: the event name and the delay given to `AddEventData`. */
  datatype Rec = Rec(event: string, delay: nat)

  /** What one byte does besides changing the machine: nothing, a record,
      or a failed `stoi` (an exception that ends `MainHandler`). */
  datatype Effect = Continue | Emit(rec: Rec) | Fail(error: StoiError)

  datatype Move = Move(machine: Machine, effect: Effect)

  const Tab: char := '\t'

  /** The machine on one byte (main.cpp:378-426). */
  function Step(m: Machine, b: char): Move {
    match m.section
    case ScanStart =>
      Move(if b == ']' then m.(section := ExpectTab) else m, Continue)
    case ExpectTab =>
      Move(if b == Tab then m.(section := ReadEvent, event := "") else m.(section := ScanStart), Continue)
    case ReadEvent =>
      Move(if b == Tab then m.(section := SkipFillers, tabs := 1) else m.(event := m.event + [b]), Continue)
    case SkipFillers =>
      var tabs := if b == Tab then m.tabs + 1 else m.tabs;
      Move(if tabs == 14 then m.(section := ReadDelay, tabs := tabs, digits := "") else m.(tabs := tabs), Continue)
    case ReadDelay =>
      if IsDigit(b) then
        Move(m.(digits := m.digits + [b]), Continue)
      else
        match Stoi(m.digits)
        case Converted(v) => Move(m.(section := ScanStart), Emit(Rec(m.event, v)))
        case Rejected(err) => Move(m, Fail(err))
  }

  /** A record is produced only by the byte ending the delay digits, and
      carries the event read and the decimal value of those digits; `stoi`
      fails there on no digits or on a value past `int`, and then the
      machine is left as it was. */
  lemma StepEffects(m: Machine, b: char)
    ensures Step(m, b).effect.Emit? ==>
      m.section == ReadDelay && !IsDigit(b) && Step(m, b).machine.section == ScanStart &&
      Step(m, b).effect.rec == Rec(m.event, Value(m.digits)) && Step(m, b).effect.rec.delay <= IntMax
    ensures Step(m, b).effect.Fail? ==>
      m.section == ReadDelay && !IsDigit(b) && Step(m, b).machine == m &&
      (Step(m, b).effect.error == InvalidArgument <==> m.digits == [])
  {
  }

  // ---------------------------------------------------------------------
  // A byte stream

  /** The machine after a run of bytes, the records it produced in order,
      and the `stoi` failure that stopped it, if any. */
  datatype Outcome = Outcome(machine: Machine, records: seq<Rec>, error: Option<StoiError>)

  /** The run `o` after one more byte: unchanged once it has failed. */
  function Advance(o: Outcome, b: char): Outcome {
    if o.error.Some? then o
    else
      var mv := Step(o.machine, b);
      match mv.effect
      case Continue => Outcome(mv.machine, o.records, None)
      case Emit(r) => Outcome(mv.machine, o.records + [r], None)
      case Fail(err) => Outcome(mv.machine, o.records, Some(err))
  }

  /** Feeds `s` to the machine `m`, byte by byte; a failure stops the run
      and the later bytes are not looked at. */
  function Feed(m: Machine, s: string): (o: Outcome)
    ensures |o.records| <= |s|
  {
    if s == [] then Outcome(m, [], None) else Advance(Feed(m, s[..|s| - 1]), s[|s| - 1])
  }

  /** Continues the run `o` with the bytes `s`, unless it has failed. */
  function Then(o: Outcome, s: string): Outcome {
    if o.error.Some? then o
    else
      var p := Feed(o.machine, s);
      Outcome(p.machine, o.records + p.records, p.error)
  }

  /** Feeding `a + b` is feeding `a`, then `b` from where `a` left the
      machine: a record may straddle any split of the stream. */
  lemma {:induction false} FeedSplit(m: Machine, a: string, b: string)
    ensures Feed(m, a + b) == Then(Feed(m, a), b)
    decreases |b|
  {
    if b == [] {
      assert a + b == a;
      var o := Feed(m, a);
      assert o.records + [] == o.records;
    } else {
      var b' := b[..|b| - 1];
      assert (a + b)[..|a + b| - 1] == a + b';
      assert (a + b)[|a + b| - 1] == b[|b| - 1];
      FeedSplit(m, a, b');
      var o := Feed(m, a);
      if o.error.None? {
        var p := Feed(o.machine, b');
        var mv := Step(p.machine, b[|b| - 1]);
        if p.error.None? && mv.effect.Emit? {
          assert o.records + p.records + [mv.effect.rec] == o.records + (p.records + [mv.effect.rec]);
        }
      }
    }
  }

  /** The chunks `read` returns, one after another. */
  function Concat(chunks: seq<string>): string {
    if chunks == [] then [] else Concat(chunks[..|chunks| - 1]) + chunks[|chunks| - 1]
  }

  /** Feeds the chunks one by one, carrying the machine from each chunk to
      the next, as `MainHandler` does across its calls to `read`. */
  function FeedChunks(m: Machine, chunks: seq<string>): (o: Outcome)
    ensures |o.records| <= |Concat(chunks)|
  {
    if chunks == [] then Outcome(m, [], None)
    else Then(FeedChunks(m, chunks[..|chunks| - 1]), chunks[|chunks| - 1])
  }

  /** Feeding chunk by chunk is feeding their concatenation. */
  lemma {:induction false} FeedChunksIsFeed(m: Machine, chunks: seq<string>)
    ensures FeedChunks(m, chunks) == Feed(m, Concat(chunks))
  {
    if chunks != [] {
      var init := chunks[..|chunks| - 1];
      FeedChunksIsFeed(m, init);
      FeedSplit(m, Concat(init), chunks[|chunks| - 1]);
    }
  }

  /** Where `read` splits the stream does not matter. */
  lemma ChunkBoundariesInvisible(m: Machine, chunks: seq<string>, chunks': seq<string>)
    requires Concat(chunks) == Concat(chunks')
    ensures FeedChunks(m, chunks) == FeedChunks(m, chunks')
  {
    FeedChunksIsFeed(m, chunks);
    FeedChunksIsFeed(m, chunks');
  }

  /** `Concat` splits at any chunk. */
  lemma {:induction false} ConcatSplit(chunks: seq<string>, j: nat)
    requires j <= |chunks|
    ensures Concat(chunks) == Concat(chunks[..j]) + Concat(chunks[j..])
  {
    if j == |chunks| {
      assert chunks[..j] == chunks;
      assert Concat(chunks) + [] == Concat(chunks);
    } else {
      var init := chunks[..|chunks| - 1];
      ConcatSplit(init, j);
      assert init[..j] == chunks[..j];
      assert chunks[j..][..|chunks[j..]| - 1] == init[j..];
    }
  }

  /** A failed run stays failed whatever follows. */
  lemma FailureIsFinal(m: Machine, a: string, b: string)
    requires Feed(m, a).error.Some?
    ensures Feed(m, a + b) == Feed(m, a)
  {
    FeedSplit(m, a, b);
  }

  // ---------------------------------------------------------------------
  // The shape of a record

  /** The number of TABs in `s`. */
  function Tabs(s: string): nat {
    multiset(s)[Tab]
  }

  /** The columns between EVENT and AVGTSMR together with the TABs that end
      them: thirteen TABs in all, the last byte being one. */
  predicate Fillers(f: string) {
    Tabs(f) == 13 && f != [] && f[|f| - 1] == Tab
  }

  /** `]` closing TIME, a TAB, EVENT and its TAB. */
  function Head(event: string): string {
    "]" + [Tab] + event + [Tab]
  }

  /** A line up to the end of the digits of AVGTSMR. */
  function Line(event: string, f: string, digits: string): string {
    Head(event) + f + digits
  }

  /** Outside a record, every byte but `]` is passed over. */
  lemma {:induction false} ScanSkips(m: Machine, s: string)
    requires m.section == ScanStart && ']' !in s
    ensures Feed(m, s) == Outcome(m, [], None)
  {
    if s != [] {
      ScanSkips(m, s[..|s| - 1]);
    }
  }

  /** A `]` that no TAB follows starts no record, and the byte after it is
      passed over too, even when it is itself a `]`. */
  lemma FalseStart(m: Machine, b: char, s: string)
    requires m.section == ScanStart && b != Tab
    ensures Feed(m, "]" + [b] + s) == Feed(m, s)
  {
    assert ("]" + [b])[..1] == "]";
    assert "]"[..0] == [];
    assert Feed(m, "]") == Outcome(m.(section := ExpectTab), [], None);
    FeedSplit(m, "]" + [b], s);
    assert Feed(m, "]" + [b]) == Outcome(m, [], None);
  }

  /** Bytes other than TAB extend EVENT. */
  lemma {:induction false} EventRead(m: Machine, e: string)
    requires m.section == ReadEvent && Tab !in e
    ensures Feed(m, e) == Outcome(m.(event := m.event + e), [], None)
  {
    if e == [] {
      assert m.event + e == m.event;
    } else {
      var init := e[..|e| - 1];
      assert Tab !in init by { assert forall j :: 0 <= j < |init| ==> init[j] == e[j]; }
      EventRead(m, init);
      assert m.event + init + [e[|e| - 1]] == m.event + e;
    }
  }

  /** The middle columns are passed over, counting TABs, until the
      fourteenth TAB of the line. */
  lemma {:induction false} FillersSkipped(m: Machine, g: string)
    requires m.section == SkipFillers && 1 <= m.tabs && m.tabs + Tabs(g) < 14
    ensures Feed(m, g) == Outcome(m.(tabs := m.tabs + Tabs(g)), [], None)
  {
    if g != [] {
      var init := g[..|g| - 1];
      assert g == init + [g[|g| - 1]];
      FillersSkipped(m, init);
    }
  }

  /** Digits extend AVGTSMR. */
  lemma {:induction false} DigitsRead(m: Machine, d: string)
    requires m.section == ReadDelay && AllDigits(d)
    ensures AllDigits(m.digits + d)
    ensures Feed(m, d) == Outcome(m.(digits := m.digits + d), [], None)
  {
    if d == [] {
      assert m.digits + d == m.digits;
    } else {
      var init := d[..|d| - 1];
      assert AllDigits(init);
      DigitsRead(m, init);
      assert m.digits + init + [d[|d| - 1]] == m.digits + d;
    }
  }

  /** `]`, TAB, a name without TAB and TAB start a record. */
  lemma HeadRead(m: Machine, e: string)
    requires m.section == ScanStart && Tab !in e
    ensures Feed(m, Head(e)) == Outcome(Machine(SkipFillers, 1, e, m.digits), [], None)
  {
    var s1 := "]" + [Tab];
    assert s1[..1] == "]";
    assert "]"[..0] == [];
    assert Feed(m, "]") == Outcome(m.(section := ExpectTab), [], None);
    var m1 := m.(section := ReadEvent, event := "");
    assert Feed(m, s1) == Outcome(m1, [], None);
    EventRead(m1, e);
    assert m1.event + e == e;
    FeedSplit(m, s1, e);
    FeedSplit(m, s1 + e, [Tab]);
  }

  /** The middle columns end at the fourteenth TAB of the line. */
  lemma FillersRead(m: Machine, f: string)
    requires m.section == SkipFillers && m.tabs == 1 && Fillers(f)
    ensures Feed(m, f) == Outcome(m.(section := ReadDelay, tabs := 14, digits := ""), [], None)
  {
    var g := f[..|f| - 1];
    assert Tabs(g) == 12 by { assert f == g + [Tab]; }
    FillersSkipped(m, g);
  }

  /** From outside a record, the bytes of a line up to the end of AVGTSMR
      leave the machine reading AVGTSMR with EVENT and AVGTSMR filled in,
      whatever the variables held before. */
  lemma LineRead(m: Machine, e: string, f: string, d: string)
    requires m.section == ScanStart && Tab !in e && Fillers(f) && AllDigits(d)
    ensures Feed(m, Line(e, f, d)) == Outcome(Machine(ReadDelay, 14, e, d), [], None)
  {
    var m3 := Machine(SkipFillers, 1, e, m.digits);
    HeadRead(m, e);
    FillersRead(m3, f);
    FeedSplit(m, Head(e), f);
    var m5 := Machine(ReadDelay, 14, e, "");
    DigitsRead(m5, d);
    assert m5.digits + d == d;
    FeedSplit(m, Head(e) + f, d);
  }

  /** A record is read from `]`, TAB, the event name, TAB, the skipped
      columns holding thirteen more TABs, the digits of AVGTSMR and one byte
      that is not a digit. That byte ends the record and is consumed (a `]`
      there starts nothing). The record carries the name and the value of
      the digits; no digits, or a value beyond `INT_MAX`, stop the run with
      the error `stoi` throws. */
  lemma RecordParsed(m: Machine, e: string, f: string, d: string, t: char)
    requires m.section == ScanStart && Tab !in e && Fillers(f) && AllDigits(d) && !IsDigit(t)
    ensures d != [] && Value(d) <= IntMax ==>
      Feed(m, Line(e, f, d) + [t]) == Outcome(Machine(ScanStart, 14, e, d), [Rec(e, Value(d))], None)
    ensures d == [] ==> Feed(m, Line(e, f, d) + [t]) == Outcome(Machine(ReadDelay, 14, e, d), [], Some(InvalidArgument))
    ensures IntMax < Value(d) ==> Feed(m, Line(e, f, d) + [t]) == Outcome(Machine(ReadDelay, 14, e, d), [], Some(OutOfRange))
  {
    LineRead(m, e, f, d);
    var s := Line(e, f, d) + [t];
    assert s[..|s| - 1] == Line(e, f, d);
  }

  /** `s` ends with `t`. */
  predicate EndsWith(s: string, t: string) {
    |t| <= |s| && s[|s| - |t|..] == t
  }

  lemma EndsWithAppend(s: string, t: string, b: char)
    requires EndsWith(s, t)
    ensures EndsWith(s + [b], t + [b])
  {
    assert (s + [b])[|s + [b]| - |t + [b]|..] == s[|s| - |t|..] + [b];
  }

  /** What the bytes `s` fed so far tell of the state `m` they led to: the
      part of a record read since the last `]`. */
  ghost predicate Explains(m: Machine, s: string) {
    match m.section
    case ScanStart => true
    case ExpectTab => EndsWith(s, "]")
    case ReadEvent => Tab !in m.event && EndsWith(s, "]" + [Tab] + m.event)
    case SkipFillers =>
      && Tab !in m.event && 1 <= m.tabs < 14
      && exists g :: Tabs(g) == m.tabs - 1 && EndsWith(s, Head(m.event) + g)
    case ReadDelay =>
      && Tab !in m.event
      && exists f :: Fillers(f) && EndsWith(s, Line(m.event, f, m.digits))
  }

  /** Each byte keeps the account of what was read true. */
  lemma StepExplains(m: Machine, s: string, b: char)
    requires Explains(m, s)
    ensures !Step(m, b).effect.Fail? ==> Explains(Step(m, b).machine, s + [b])
  {
    match m.section
    case ScanStart => BracketExplains(m, s, b);
    case ExpectTab => BracketExplains(m, s, b);
    case ReadEvent => EventExplains(m, s, b);
    case SkipFillers => FillersExplain(m, s, b);
    case ReadDelay => DigitsExplain(m, s, b);
  }

  lemma BracketExplains(m: Machine, s: string, b: char)
    requires (m.section == ScanStart || m.section == ExpectTab) && Explains(m, s)
    ensures Explains(Step(m, b).machine, s + [b])
  {
    if m.section == ScanStart && b == ']' {
      assert (s + [b])[|s + [b]| - 1..] == "]";
    } else if m.section == ExpectTab && b == Tab {
      EndsWithAppend(s, "]", b);
      assert "]" + [Tab] + "" == "]" + [b];
    }
  }

  lemma EventExplains(m: Machine, s: string, b: char)
    requires m.section == ReadEvent && Explains(m, s)
    ensures Explains(Step(m, b).machine, s + [b])
  {
    EndsWithAppend(s, "]" + [Tab] + m.event, b);
    if b == Tab {
      assert Tabs([]) == 0;
      assert Head(m.event) + [] == "]" + [Tab] + m.event + [b];
    } else {
      assert "]" + [Tab] + m.event + [b] == "]" + [Tab] + (m.event + [b]);
    }
  }

  lemma FillersExplain(m: Machine, s: string, b: char)
    requires m.section == SkipFillers && Explains(m, s)
    ensures Explains(Step(m, b).machine, s + [b])
  {
    var m' := Step(m, b).machine;
    var g :| Tabs(g) == m.tabs - 1 && EndsWith(s, Head(m.event) + g);
    EndsWithAppend(s, Head(m.event) + g, b);
    assert multiset(g + [b]) == multiset(g) + multiset{b};
    assert Head(m.event) + g + [b] == Head(m.event) + (g + [b]);
    if m'.section == ReadDelay {
      assert Fillers(g + [b]);
      assert Line(m.event, g + [b], m'.digits) == Head(m.event) + (g + [b]);
    } else {
      assert Tabs(g + [b]) == m'.tabs - 1;
    }
  }

  lemma DigitsExplain(m: Machine, s: string, b: char)
    requires m.section == ReadDelay && Explains(m, s)
    ensures !Step(m, b).effect.Fail? ==> Explains(Step(m, b).machine, s + [b])
  {
    if IsDigit(b) {
      var f :| Fillers(f) && EndsWith(s, Line(m.event, f, m.digits));
      EndsWithAppend(s, Line(m.event, f, m.digits), b);
      assert Line(m.event, f, m.digits) + [b] == Line(m.event, f, m.digits + [b]);
    }
  }

  /** One more byte keeps the account true, as a step of a run. */
  lemma AdvanceExplains(o: Outcome, s: string)
    requires s != [] && o.error.None? && Explains(o.machine, s[..|s| - 1])
    ensures Advance(o, s[|s| - 1]).error.None? ==> Explains(Advance(o, s[|s| - 1]).machine, s)
  {
    StepExplains(o.machine, s[..|s| - 1], s[|s| - 1]);
    assert s[..|s| - 1] + [s[|s| - 1]] == s;
  }

  /** Every state reached from outside a record is accounted for. */
  lemma {:induction false} FeedExplains(m: Machine, s: string)
    requires m.section == ScanStart
    ensures Feed(m, s).error.None? ==> Explains(Feed(m, s).machine, s)
  {
    if s != [] {
      var o := Feed(m, s[..|s| - 1]);
      FeedExplains(m, s[..|s| - 1]);
      if o.error.None? {
        AdvanceExplains(o, s);
      }
    }
  }

  /** Only a line of that shape makes a record: when the byte `b` after the
      bytes `s` makes the machine emit one, `s` ends with `]`, TAB, a name
      without TAB, TAB, columns holding thirteen more TABs and one or more
      digits; the record carries that name and the value of those digits,
      and `b` is not a digit. */
  lemma EmittedFromLine(m: Machine, s: string, b: char)
    requires m.section == ScanStart
    requires Feed(m, s).error.None? && Step(Feed(m, s).machine, b).effect.Emit?
    ensures var k := Feed(m, s).machine; var r := Step(k, b).effect.rec;
      && !IsDigit(b) && Tab !in r.event && k.digits != [] && r.delay == Value(k.digits)
      && exists f :: Fillers(f) && EndsWith(s, Line(r.event, f, k.digits))
  {
    FeedExplains(m, s);
  }

  // ---------------------------------------------------------------------
  // Into the registry

  /** The event names the records carry. */
  function Names(records: seq<Rec>): (n: set<string>)
    ensures forall i :: 0 <= i < |records| ==> records[i].event in n
    ensures forall x :: x in n ==> exists i :: 0 <= i < |records| && records[i].event == x
  {
    if records == [] then {}
    else Names(records[..|records| - 1]) + {records[|records| - 1].event}
  }

  /** The registry after `AddEventData` of each record in turn: it holds the
      events it held and those the records name. */
  function AddAll(v: map<string, EventState>, records: seq<Rec>): (w: map<string, EventState>)
    requires AllSound(v)
    ensures AllSound(w) && w.Keys == v.Keys + Names(records)
  {
    if records == [] then v
    else
      var r := records[|records| - 1];
      AddedData(AddAll(v, records[..|records| - 1]), r.event, r.delay)
  }

  /** The delays of the records of `e`, in order, as `AddData` buckets them. */
  function Delays(records: seq<Rec>, e: string): (ds: seq<nat>)
    ensures InRange(ds)
  {
    if records == [] then []
    else
      var r := records[|records| - 1];
      Delays(records[..|records| - 1], e) + (if r.event == e then [r.delay % Buckets] else [])
  }

  /** One `AddEventData(x, delay)` adds `delay` to the history of `x` and
      leaves every other statistic as it was. */
  lemma AddedDataReplays(w: map<string, EventState>, x: string, delay: nat, e: string, past: seq<nat>)
    requires AllSound(w) && InRange(past)
    requires if e in w then w[e].counters == Replay(past) else past == []
    ensures var w' := AddedData(w, x, delay);
      && (e in w' ==> w'[e].counters == Replay(past + if x == e then [delay % Buckets] else []))
      && (x != e && e in w ==> w'[e] == w[e])
  {
    if x == e {
      ReplayStep(past, delay % Buckets);
    } else {
      assert past + [] == past;
    }
  }

  /** Each statistic counts what it counted before followed by the delays
      of the records naming it, and one that no record names is left as it
      was. */
  lemma {:induction false} AddAllReplays(v: map<string, EventState>, records: seq<Rec>, e: string, past: seq<nat>)
    requires AllSound(v) && InRange(past)
    requires if e in v then v[e].counters == Replay(past) else past == []
    ensures e in AddAll(v, records) ==> AddAll(v, records)[e].counters == Replay(past + Delays(records, e))
    ensures e in v && Delays(records, e) == [] ==> AddAll(v, records)[e] == v[e]
  {
    if records == [] {
      assert past + [] == past;
    } else {
      var init := records[..|records| - 1];
      var r := records[|records| - 1];
      var w := AddAll(v, init);
      AddAllReplays(v, init, e, past);
      var d := if r.event == e then [r.delay % Buckets] else [];
      assert Delays(records, e) == Delays(init, e) + d;
      if e !in w {
        assert Delays(init, e) == [] by {
          if Delays(init, e) != [] {
            DelaysNamed(init, e);
          }
        }
        assert past + Delays(init, e) == [];
      }
      AddedDataReplays(w, r.event, r.delay, e, past + Delays(init, e));
      Associative(past, Delays(init, e), d);
    }
  }

  lemma Associative(a: seq<nat>, b: seq<nat>, c: seq<nat>)
    ensures a + b + c == a + (b + c)
  {
  }

  /** Only a name some record carries has delays. */
  lemma {:induction false} DelaysNamed(records: seq<Rec>, e: string)
    requires Delays(records, e) != []
    ensures e in Names(records)
  {
    var init := records[..|records| - 1];
    if records[|records| - 1].event != e {
      DelaysNamed(init, e);
    }
  }

  // ---------------------------------------------------------------------
  // The handler

  /** A failure within the first `k + 1` chunks decides the whole run. */
  lemma FailedChunks(m: Machine, chunks: seq<string>, k: nat)
    requires k < |chunks|
    requires Feed(m, Concat(chunks[..k + 1])).error.Some?
    ensures FeedChunks(m, chunks) == Feed(m, Concat(chunks[..k + 1]))
  {
    FeedChunksIsFeed(m, chunks);
    ConcatSplit(chunks, k + 1);
    FailureIsFinal(m, Concat(chunks[..k + 1]), Concat(chunks[k + 1..]));
  }

  /** A failure at byte `i` of `buf` decides the run over `buf`. */
  lemma FailedByte(m: Machine, prefix: string, buf: string, i: nat)
    requires i < |buf|
    requires Feed(m, prefix + buf[..i + 1]).error.Some?
    ensures Feed(m, prefix + buf) == Feed(m, prefix + buf[..i + 1])
  {
    SplitAfter(prefix, buf, i);
    FailureIsFinal(m, prefix + buf[..i + 1], buf[i + 1..]);
  }

  lemma SplitAfter(prefix: string, buf: string, i: nat)
    requires i < |buf|
    ensures prefix + buf == prefix + buf[..i + 1] + buf[i + 1..]
  {
    assert buf == buf[..i + 1] + buf[i + 1..];
  }

  /** The bytes before byte `i` of `buf`, one byte on. */
  lemma NextByte(prefix: string, buf: string, i: nat)
    requires i < |buf|
    ensures prefix + buf[..i] + [buf[i]] == prefix + buf[..i + 1]
  {
    assert buf[..i + 1] == buf[..i] + [buf[i]];
  }

  /** The bytes before chunk `k`, one chunk on. */
  lemma NextChunk(chunks: seq<string>, k: nat)
    requires k < |chunks|
    ensures Concat(chunks[..k]) + chunks[k] == Concat(chunks[..k + 1])
  {
    assert chunks[..k + 1][..k] == chunks[..k];
  }

  /** The registry `contents` and the machine `m` are where feeding `seen`
      to the parser leaves them, starting from the registry `v`. */
  ghost predicate Tracks(v: map<string, EventState>, seen: string, m: Machine, contents: map<string, EventState>) {
    && AllSound(v)
    && Feed(Start, seen).error.None?
    && Feed(Start, seen).machine == m
    && contents == AddAll(v, Feed(Start, seen).records)
  }

  /** A byte moves the tracked state as `Step` says, or fails the run. */
  lemma TracksStep(v: map<string, EventState>, seen: string, m: Machine, contents: map<string, EventState>, b: char)
    requires Tracks(v, seen, m, contents)
    ensures AllSound(contents)
    ensures var mv := Step(m, b);
      && (mv.effect.Fail? ==> Feed(Start, seen + [b]).error == Some(mv.effect.error))
      && (mv.effect.Continue? ==> Tracks(v, seen + [b], mv.machine, contents))
      && (mv.effect.Emit? ==> Tracks(v, seen + [b], mv.machine, AddedData(contents, mv.effect.rec.event, mv.effect.rec.delay)))
  {
    FeedLast(Start, seen, b);
    var before := Feed(Start, seen);
    var mv := Step(m, b);
    if mv.effect.Emit? {
      AddAllLast(v, before.records, mv.effect.rec);
    }
  }

  /** Feeding one more byte is one more `Advance`. */
  lemma FeedLast(m: Machine, s: string, b: char)
    ensures Feed(m, s + [b]) == Advance(Feed(m, s), b)
  {
    assert (s + [b])[..|s|] == s;
  }

  /** Adding one more record is one more `AddedData`. */
  lemma AddAllLast(v: map<string, EventState>, records: seq<Rec>, r: Rec)
    requires AllSound(v)
    ensures AddAll(v, records + [r]) == AddedData(AddAll(v, records), r.event, r.delay)
  {
    assert (records + [r])[..|records|] == records;
  }

  /** Tracking the whole stream is the outcome of the chunks. */
  lemma TracksAll(v: map<string, EventState>, chunks: seq<string>, m: Machine, contents: map<string, EventState>)
    requires Tracks(v, Concat(chunks[..|chunks|]), m, contents)
    ensures FeedChunks(Start, chunks).error == None
    ensures contents == AddAll(v, FeedChunks(Start, chunks).records)
  {
    assert chunks[..|chunks|] == chunks;
    FeedChunksIsFeed(Start, chunks);
  }

  /** The body of the inner loop of `MainHandler` (main.cpp:378-426) on the
      byte `b`: the variables move as `Step` says, a finished record goes
      into the registry, and a failed `stoi` is handed back. */
  method HandleByte(stat: Statistic, section: Section, tabCounter: int, event: string, avgtsmr: DigitText, b: char)
    returns (section': Section, tabCounter': int, event': string, avgtsmr': DigitText, error: Option<StoiError>)
    requires stat.Valid()
    modifies stat, stat.Repr
    ensures stat.Valid() && fresh(stat.Repr - old(stat.Repr))
    ensures AllSound(old(stat.Contents))
    ensures var mv := Step(Machine(section, tabCounter, event, avgtsmr), b);
      && (mv.effect.Fail? ==> error == Some(mv.effect.error) && stat.Contents == old(stat.Contents))
      && (!mv.effect.Fail? ==> error == None && Machine(section', tabCounter', event', avgtsmr') == mv.machine)
      && (mv.effect.Continue? ==> stat.Contents == old(stat.Contents))
      && (mv.effect.Emit? ==> stat.Contents == AddedData(old(stat.Contents), mv.effect.rec.event, mv.effect.rec.delay))
  {
    section', tabCounter', event', avgtsmr' := section, tabCounter, event, avgtsmr;
    error := None;
    if section == ScanStart {
      if b == ']' {
        section' := ExpectTab;
      }
    } else if section == ExpectTab {
      if b == Tab {
        section' := ReadEvent;
        event' := "";
      } else {
        section' := ScanStart;
      }
    } else if section == ReadEvent {
      if b == Tab {
        tabCounter' := 1;
        section' := SkipFillers;
      } else {
        event' := event + [b];
      }
    } else if section == SkipFillers {
      if b == Tab {
        tabCounter' := tabCounter + 1;
      }
      if tabCounter' == 14 {
        section' := ReadDelay;
        avgtsmr' := "";
      }
    } else {
      if IsDigit(b) {
        avgtsmr' := avgtsmr + [b];
      } else {
        var delay := Stoi(avgtsmr);
        if delay.Rejected? {
          error := Some(delay.error);
          return;
        }
        stat.AddEventData(event, delay.value);
        section' := ScanStart;
      }
    }
  }

  /** `HandleByte` as a step of the run over `seen`. */
  method TrackByte(stat: Statistic, ghost v: map<string, EventState>, ghost seen: string,
                   section: Section, tabCounter: int, event: string, avgtsmr: DigitText, b: char)
    returns (section': Section, tabCounter': int, event': string, avgtsmr': DigitText, error: Option<StoiError>)
    requires stat.Valid() && Tracks(v, seen, Machine(section, tabCounter, event, avgtsmr), stat.Contents)
    modifies stat, stat.Repr
    ensures stat.Valid() && fresh(stat.Repr - old(stat.Repr))
    ensures error.None? ==> Tracks(v, seen + [b], Machine(section', tabCounter', event', avgtsmr'), stat.Contents)
    ensures error.Some? ==>
      && error == Feed(Start, seen + [b]).error
      && stat.Contents == AddAll(v, Feed(Start, seen + [b]).records)
  {
    TracksStep(v, seen, Machine(section, tabCounter, event, avgtsmr), stat.Contents, b);
    section', tabCounter', event', avgtsmr', error := HandleByte(stat, section, tabCounter, event, avgtsmr, b);
  }

  /** The inner loop of `MainHandler` over the bytes of one chunk `buf`,
      from where the bytes `prefix` before it left the parser and the
      registry. */
  method HandleChunk(stat: Statistic, buf: string, ghost v: map<string, EventState>, ghost prefix: string,
                     section: Section, tabCounter: int, event: string, avgtsmr: DigitText)
    returns (section': Section, tabCounter': int, event': string, avgtsmr': DigitText, error: Option<StoiError>)
    requires stat.Valid() && Tracks(v, prefix, Machine(section, tabCounter, event, avgtsmr), stat.Contents)
    modifies stat, stat.Repr
    ensures stat.Valid() && fresh(stat.Repr - old(stat.Repr))
    ensures error.None? ==> Tracks(v, prefix + buf, Machine(section', tabCounter', event', avgtsmr'), stat.Contents)
    ensures error.Some? ==> error == Feed(Start, prefix + buf).error && stat.Contents == AddAll(v, Feed(Start, prefix + buf).records)
  {
    section', tabCounter', event', avgtsmr' := section, tabCounter, event, avgtsmr;
    var i := 0;
    ghost var seen := prefix;
    assert prefix + buf[..i] == prefix;
    while i < |buf|
      invariant 0 <= i <= |buf| && seen == prefix + buf[..i]
      invariant stat.Valid() && fresh(stat.Repr - old(stat.Repr))
      invariant Tracks(v, seen, Machine(section', tabCounter', event', avgtsmr'), stat.Contents)
    {
      NextByte(prefix, buf, i);
      section', tabCounter', event', avgtsmr', error := TrackByte(stat, v, seen, section', tabCounter', event', avgtsmr', buf[i]);
      seen := seen + [buf[i]];
      if error.Some? {
        FailedByte(Start, prefix, buf, i);
        return;
      }
      i := i + 1;
    }
    assert buf[..i] == buf;
    error := None;
  }

  /** Reads the records of one connection into the registry
      (main.cpp:359-429). The chunks are what the successive calls to
      `read` return before the one that returns 0; the parser's variables
      carry over from chunk to chunk. The registry ends up with the records
      the whole stream holds added in order, and a failed `stoi` ends the
      handler with the records before it added. */
  method MainHandler(stat: Statistic, chunks: seq<string>) returns (error: Option<StoiError>)
    requires stat.Valid()
    modifies stat, stat.Repr
    ensures stat.Valid() && fresh(stat.Repr - old(stat.Repr))
    ensures AllSound(old(stat.Contents))
    ensures error == FeedChunks(Start, chunks).error
    ensures stat.Contents == AddAll(old(stat.Contents), FeedChunks(Start, chunks).records)
  {
    var event: string := "";
    var avgtsmr: DigitText := "";
    var section := ScanStart;
    var tabCounter := 0;
    var k := 0;
    while k < |chunks|
      invariant 0 <= k <= |chunks|
      invariant stat.Valid() && fresh(stat.Repr - old(stat.Repr))
      invariant Tracks(old(stat.Contents), Concat(chunks[..k]), Machine(section, tabCounter, event, avgtsmr), stat.Contents)
    {
      NextChunk(chunks, k);
      section, tabCounter, event, avgtsmr, error :=
        HandleChunk(stat, chunks[k], old(stat.Contents), Concat(chunks[..k]), section, tabCounter, event, avgtsmr);
      if error.Some? {
        FailedChunks(Start, chunks, k);
        return;
      }
      k := k + 1;
    }
    TracksAll(old(stat.Contents), chunks, Machine(section, tabCounter, event, avgtsmr), stat.Contents);
    error := None;
  }
}
