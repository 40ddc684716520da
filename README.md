# stat-server, modelled in Dafny

stat-server collects transaction delays from log lines that senders stream
to it, and keeps per-event delay statistics. This project models its
sequential core, all of it in `main.cpp`:

- `EventStatistic` (`event_statistic.dfy`, module `EventStatistics`). One
  event's histogram of 1,000,000 one-microsecond buckets, its running
  counters and the summary values `Calc` caches. It is a class over an
  `array<nat>`, whose methods are proved against pure functions of its
  state (`Record`, `CalculatedAsWritten`, `Rows`).
- `Statistic` (`statistic.dfy`, module `Statistics`). The registry from
  event name to statistic, created on demand and walked in `std::map` key
  order. It is a class holding a map of `EventStatistic` objects, with a
  ghost abstraction `Contents` of their states.
- The byte state machine inside `MainHandler` (`record_parser.dfy`, module
  `RecordParser`). It picks the EVENT and AVGTSMR columns out of
  tab-separated lines and calls `AddEventData` for each record. `Step` is
  the machine on one byte, and `Feed` / `FeedChunks` are runs of it. The
  method `MainHandler` is the source's two nested loops, proved to add
  exactly the records of `FeedChunks` to the registry.
- Supporting modules. `decimal.dfy` (`Decimal`) holds ASCII digits, the
  decimal text `operator<<` writes, and `std::stoi` on a digit string.
  `histogram.dfy` (`Histogram`) holds pure functions over bucket
  sequences: sums, the percentile scan, the bins of the full report, and
  the samples-to-buckets relation.

The percentile guards of `Calc` compare a fraction (never above 1) with
the percent figures 50.0, 90.0, 99.0 and 99.9. As written, therefore,
every guard passes and every "percentile" is the largest recorded delay
under its bound. The model keeps both versions:

- `CalculatedAsWritten` is the code as written. The class method
  `EventStatistic.Calc` and the registry follow it, and
  `AsWrittenOfReplay` proves the median is then the maximum.
- `Calculated` compares with 0.5, 0.9, 0.99 and 0.999, as evidently
  intended. It stands beside the model as the corrected half of the one
  finding (see "## Findings"), with its percentile proved.

Two details of the code shape the model:

- In `Calc`, a bucket whose guard fails does not add its count to the
  running counter (main.cpp:101-105). So once a guard fails no later one
  passes (`Histogram.ScanFindsLargestQualifying`).
- An empty AVGTSMR field (a non-digit straight after the fourteenth TAB)
  makes `stoi` throw `invalid_argument` (main.cpp:420-422). The model
  stops the handler with an error there.

## Model

| member | source | states |
|---|---|---|
| Decimal.Format | main.cpp:145-149 | the decimal text of a number is non-empty, all digits, and has no leading zero |
| Decimal.ValueOfFormat | main.cpp:145-149 | the decimal text of `n` reads back as `n` |
| Decimal.Stoi | main.cpp:422 | `stoi` on a digit string: empty text is `invalid_argument`, a value above `INT_MAX` is `out_of_range`, otherwise the value of the digits |
| Decimal.StoiOfFormat | main.cpp:422 | `stoi` reads back any number up to `INT_MAX` from its decimal text |
| Histogram.TopIsLargestOccupied | main.cpp:95-133 | `Top` is the largest occupied bucket below a bound, or the old value when none is occupied |
| Histogram.ScanFindsLargestQualifying | main.cpp:95-133 | each scan of `Calc` (`Scan`: a running counter under a `Guard`, which only a passing bucket adds to) ends at the largest bucket whose share of smaller samples passes the guard; a failed guard freezes the counter, so no later bucket passes |
| Histogram.AsWrittenEveryBucketQualifies | main.cpp:101-127 | with percent-scale targets, every occupied bucket under the bound passes its guard |
| Histogram.AsWrittenScanIsTop | main.cpp:95-133 | as written, each scan yields the largest occupied bucket under its bound, or the old value |
| Histogram.IntendedPercentileIsFloor | main.cpp:101-105 | with fractional targets, the scan yields an occupied bucket with fewer than target of the samples below it, and every later occupied bucket has at least target below it; or no bucket qualifies and the old value stays |
| Histogram.ScanStable | main.cpp:95-133 | re-running a scan from its own result gives that result |
| Histogram.ScanOfEmpty | main.cpp:97-99 | over empty buckets a scan keeps its old value |
| Histogram.Tally | main.cpp:68-69 | the histogram of a run of samples has one bucket per microsecond |
| Histogram.TallyCounts | main.cpp:68-69 | bucket `d` counts the recorded samples equal to `d` |
| Histogram.CountBelowIsSum | main.cpp:78-85 | the samples under a bound are the sum of the buckets under it |
| Histogram.TallyHoldsAll | main.cpp:69-70 | the buckets together hold every sample |
| Histogram.MaxFoldIsLargest | main.cpp:75-76 | `_maximum` is the largest sample, and 0 with none |
| Histogram.MinFoldWithoutZero | main.cpp:72-73 | when no zero was recorded, `_minimum` is the smallest sample |
| Histogram.MinFoldBounded | main.cpp:72-76 | `_minimum` is a recorded sample (0 with none) and never above `_maximum` |
| Histogram.ZeroIsOverwritten | main.cpp:72-73 | a recorded 0 sets `_minimum` to 0, and the next sample replaces it whatever its size |
| Histogram.BinsAreNonEmpty | main.cpp:163-172 | every bin `Bins` emits is non-empty, 5-aligned and inside the range |
| Histogram.BinsCountTheirBins | main.cpp:166-169 | each row's count is the sum of its five buckets |
| Histogram.BinsAreAscending | main.cpp:163 | row lower bounds strictly ascend |
| Histogram.BinsRunningCount | main.cpp:175-176 | each row's below-count is the sum of the counts of the rows before it |
| Histogram.BinsCountRange | main.cpp:163-179 | the rows together count every sample in the range |
| EventStatistics.FormatSummary | main.cpp:142-152 | the report line `min=.. 50%=.. 90%=.. 99%=.. 99.9%=..` reads back into exactly its five values |
| EventStatistics.Empty | main.cpp:51-64 | the counters `Reset` leaves are consistent |
| EventStatistics.Initial | main.cpp:46-64 | a reset statistic is consistent |
| EventStatistics.Record | main.cpp:66-86 | recording one delay keeps the counters consistent: one bucket per microsecond, minimum no larger than maximum, both inside the histogram |
| EventStatistics.Recorded | main.cpp:66-86 | `AddData` keeps the counters consistent, adds one to the total and to bucket `delay % 1000000` only, and changes no reported value but the minimum |
| EventStatistics.Replay | main.cpp:51-86 | any run of `AddData` from a reset leaves the counters consistent |
| EventStatistics.ReplayCounts | main.cpp:51-86 | after recording samples from empty, the buckets tally the samples, the total and sub-counters count them, and minimum and maximum are the running ones |
| EventStatistics.CountersMatchBuckets | main.cpp:51-85 | after any run of `AddData`, the total is the sum of all buckets and each sub-counter the sum of the buckets under 122, 140 or 145 |
| EventStatistics.ReplayStep | main.cpp:66-86 | one more `AddData` is one more recorded sample |
| EventStatistics.Calculated | main.cpp:88-134 | `Calc` (guards as intended) changes no bucket and no counter |
| EventStatistics.CalculatedOfReplay | main.cpp:88-134 | as intended (corrected guards): after `Calc` the median is the intended 50th percentile of all samples, and the other three are the 90th, 99th and 99.9th percentiles of the samples under 122, 140 and 145 |
| EventStatistics.MedianOfReplay | main.cpp:101-105 | as intended (corrected guards): with data, the median is a recorded delay with fewer than half the samples below it, and every larger recorded delay has at least half below it |
| EventStatistics.CalculatedIdempotent | main.cpp:88-134 | a second `Calc` without new data changes nothing |
| EventStatistics.CalculatedAsWritten | main.cpp:88-134 | `Calc` as written changes no bucket and no counter |
| EventStatistics.AsWrittenOfReplay | main.cpp:95-133 | as written, each cached value is the largest recorded delay under its bound (or unchanged when none), and with data the median equals `_maximum` |
| EventStatistics.AsWrittenIdempotent | main.cpp:88-134 | as written, too, a second `Calc` without new data changes nothing |
| EventStatistics.AsWrittenMedianExample | main.cpp:101-105 | as written, nine delays of 10 and one of 130 give median 130 |
| EventStatistics.MedianExample | main.cpp:101-105 | as intended, the same samples give median 10 |
| EventStatistics.RangeOfCounters | main.cpp:156-158 | the bin range of the full report is 5-aligned and ends at most at bucket 1,000,000, so every bucket index read is in range |
| EventStatistics.Rows | main.cpp:156-179 | the full report's rows together count every sample from the bin of the minimum to the bin after the maximum |
| EventStatistics.RowsAreBins | main.cpp:154-181 | the full report's rows are the non-empty 5-microsecond bins of the range, ascending, with their counts and running below-counts, and they count every sample of the range |
| EventStatistics.RowsOfReplay | main.cpp:154-181 | unless a recorded 0 was overwritten in the minimum, the rows count every recorded sample |
| EventStatistics.EventStatistic.constructor | main.cpp:46-49 | a new statistic is reset |
| EventStatistics.EventStatistic.Reset | main.cpp:51-64 | every counter, cached value and bucket becomes 0 |
| EventStatistics.EventStatistic.AddData | main.cpp:66-86 | the new counters are `Record` of the old ones at `delay % 1000000`: that bucket, the total and the sub-counters whose bound it is under go up by one; minimum and maximum follow; nothing else changes |
| EventStatistics.EventStatistic.Calc | main.cpp:88-134 | the new state is `CalculatedAsWritten` of the old one: the four cached values become the largest recorded delay overall and under 122, 140 and 145 (or stay when there is none), and nothing else changes |
| EventStatistics.EventStatistic.GetReport | main.cpp:142-152 | the report line reads back into exactly the current minimum and the cached median and three percentiles |
| EventStatistics.EventStatistic.GetFullReport | main.cpp:154-182 | the rows are `Rows` of the current counters |
| EventStatistics.EventStatistic.BinRows | main.cpp:163-179 | the two loops emit exactly the non-empty bins of the range, with running below-counts |
| Statistics.Less | main.cpp:188 | `std::string` order: no name is below itself, and a proper prefix is below the name it starts |
| Statistics.LessAsymmetric | main.cpp:188 | no two names are each below the other |
| Statistics.SortedIsDistinct | main.cpp:188 | the ascending key list holds each name once |
| Statistics.LessTotal | main.cpp:188 | any two different names are ordered by `std::string` comparison |
| Statistics.LessTransitive | main.cpp:188 | the key order is transitive |
| Statistics.Insert | main.cpp:195 | inserting a name into the ordered key list keeps it sorted, adds exactly that name, and changes nothing when it is there |
| Statistics.OrdersUnique | main.cpp:221 | a set of names has one ascending order, so the iteration order of the map is determined |
| Statistics.InOrder | main.cpp:221 | produces the registry's names in ascending order |
| Statistics.Admit | main.cpp:191-196 | `AddEvent` adds the name when absent with a fresh statistic and leaves every entry as it was |
| Statistics.AdmitIdempotent | main.cpp:191-196 | `AddEvent` twice is `AddEvent` once |
| Statistics.AddedData | main.cpp:198-203 | `AddEventData` keeps every statistic consistent, adds only the name, and changes no other entry |
| Statistics.CalculatedInitial | main.cpp:205-215 | `Calc` on a fresh statistic leaves it as it is, as written and as intended |
| Statistics.ZeroReport | main.cpp:142-152 | zero values are reported as `min=0 50%=0 90%=0 99%=0 99.9%=0` |
| Statistics.DumpStep | main.cpp:221-226 | one turn of the full report recomputes the next event in order with `Calc` as written and appends its part |
| Statistics.ProgressComplete | main.cpp:221-226 | after the loop every event is recomputed with `Calc` as written |
| Statistics.DumpedComplete | main.cpp:221-226 | after the loop there is one part per event, in key order, each reporting the event after `Calc` as written |
| Statistics.Statistic.constructor | main.cpp:188 | a new registry is empty |
| Statistics.Statistic.AddEvent | main.cpp:191-196 | the registry becomes `Admit` of the old one |
| Statistics.Statistic.Enter | main.cpp:195 | enters a fresh statistic under a new name |
| Statistics.Statistic.AddEventData | main.cpp:198-203 | the registry becomes `AddedData` of the old one: the event admitted, one delay recorded into it and into no other |
| Statistics.Statistic.AddDataTo | main.cpp:202 | `AddData` on one entry; every other entry is unchanged |
| Statistics.Statistic.CalcOf | main.cpp:211 | `Calc` (as written) on one entry; every other entry is unchanged |
| Statistics.Statistic.ReportOf | main.cpp:212 | the entry's report line |
| Statistics.Statistic.RowsOf | main.cpp:225 | the entry's full-report rows |
| Statistics.Statistic.GetEventStatistic | main.cpp:205-215 | admits the event, recalculates it with `Calc` as written, returns `<name> <report>\n`; for an unseen name the entry is zero and the line is `<name> min=0 50%=0 90%=0 99%=0 99.9%=0\n` |
| Statistics.Statistic.LineOf | main.cpp:208-214 | recalculates a known event with `Calc` as written and returns its line |
| Statistics.Statistic.DumpOf | main.cpp:223-225 | recalculates one event with `Calc` as written and returns its report line and rows |
| Statistics.Statistic.GetFullStatistic | main.cpp:217-229 | every entry is recalculated with `Calc` as written, and the parts come in ascending key order, one per event, each reporting that event's new state |
| Statistics.Statistic.DumpAll | main.cpp:221-226 | the loop over the ordered names recalculates (as written) and reports each event in turn |
| RecordParser.Feed | main.cpp:378-426 | a run emits at most one record per byte |
| RecordParser.FeedSplit | main.cpp:361-378 | feeding `a + b` is feeding `a` then `b` from where `a` left the machine: the state carries across any split |
| RecordParser.StepEffects | main.cpp:416-426 | `Step` emits only on the byte ending the digits of AVGTSMR, a record of the event read and the digits' value (at most `INT_MAX`), and returns to scanning; a failed `stoi` comes only there, is `invalid_argument` exactly when there are no digits, and leaves the variables as they were |
| RecordParser.FeedChunks | main.cpp:372-378 | the chunks read yield at most one record per byte |
| RecordParser.FeedChunksIsFeed | main.cpp:361-378 | feeding the `read` chunks one by one is feeding their concatenation |
| RecordParser.ChunkBoundariesInvisible | main.cpp:361-378 | two chunkings of the same stream give the same records, final state and error |
| RecordParser.ConcatSplit | main.cpp:372-378 | the stream splits at any chunk |
| RecordParser.FailureIsFinal | main.cpp:422 | after a failed `stoi` no later byte changes anything |
| RecordParser.ScanSkips | main.cpp:380-384 | outside a record every byte but `]` is skipped |
| RecordParser.FalseStart | main.cpp:385-394 | a non-TAB after `]` returns to scanning and is not re-examined, even when it is `]` |
| RecordParser.EventRead | main.cpp:395-404 | non-TAB bytes extend EVENT |
| RecordParser.FillersSkipped | main.cpp:405-415 | the middle columns are skipped counting TABs while under 14 |
| RecordParser.DigitsRead | main.cpp:416-419 | digits extend AVGTSMR |
| RecordParser.HeadRead | main.cpp:380-404 | `]`, TAB, a name without TAB and TAB start a record with that name |
| RecordParser.FillersRead | main.cpp:405-415 | thirteen more TABs end the middle columns and start AVGTSMR empty |
| RecordParser.LineRead | main.cpp:378-419 | a line up to the digits of AVGTSMR leaves the machine reading AVGTSMR with that name and those digits, whatever it held before |
| RecordParser.RecordParsed | main.cpp:378-426 | that line plus a non-digit emits one record (the name, the value of the digits), consumes the non-digit and returns to scanning; no digits give `invalid_argument` and a value beyond `INT_MAX` gives `out_of_range` |
| RecordParser.StepExplains | main.cpp:378-426 | each byte keeps true the account of what was read since the last `]` |
| RecordParser.FeedExplains | main.cpp:378-426 | every state reached from scanning is accounted for by the bytes read |
| RecordParser.EmittedFromLine | main.cpp:378-426 | only a line of record shape emits: an emitted record follows `]`, TAB, a TAB-free name, TAB, thirteen more TABs and one or more digits, carries that name and the digits' value, and is ended by a non-digit |
| RecordParser.Names | main.cpp:423 | the names the records carry, exactly |
| RecordParser.AddAll | main.cpp:423 | after the records the registry keeps every statistic consistent and holds its names plus the names of the records |
| RecordParser.Delays | main.cpp:68 | the delays of one event's records, bucketed, are in range |
| RecordParser.AddedDataReplays | main.cpp:198-203 | one `AddEventData` extends the history of its event only |
| RecordParser.AddAllReplays | main.cpp:423 | each statistic counts its previous samples followed by its records' delays, and one no record names is unchanged |
| RecordParser.DelaysNamed | main.cpp:423 | only a named event receives delays |
| RecordParser.FailedChunks | main.cpp:422 | a failure in the chunks read so far decides the whole run |
| RecordParser.FailedByte | main.cpp:422 | a failure at a byte decides the run over its chunk |
| RecordParser.TracksStep | main.cpp:378-426 | one byte moves the parser variables and the registry as `Step` says, or fails the run |
| RecordParser.TracksAll | main.cpp:372-428 | having tracked the whole stream, the registry and error are those of `FeedChunks` |
| RecordParser.HandleByte | main.cpp:378-426 | the if-chain on one byte: the variables become `Step`'s, a finished record is added with `AddEventData`, a failed `stoi` is returned with the registry unchanged |
| RecordParser.TrackByte | main.cpp:378-426 | one byte as a step of the run over the bytes seen |
| RecordParser.HandleChunk | main.cpp:378-427 | the inner loop over one chunk continues the run of the bytes before it |
| RecordParser.MainHandler | main.cpp:359-429 | the error is the run's error, and the registry is the old one with every record of the whole stream added in order (up to a failed `stoi`) |

## Left out

- Sockets, the FIFO, files, the poll loop, signals, `main` and the detached threads (main.cpp:232-357, 431-563) are left out: they are OS I/O and process control.
- `UDPHandler` (main.cpp:437-449) is left out: it is `recvfrom`/`sendto` around `GetEventStatistic`.
- The `recursive_mutex` of `Statistic` is left out: the registry is modelled sequentially, so concurrent handlers sharing it are not modelled.
- RecordParser.MainHandler: takes the successive `read` results as a sequence of chunks. The return value of `read` (end of stream at 0, -1 seen as a huge `size_t`) is not modelled.
- RecordParser.MainHandler: a failed `stoi` throws an exception that nothing in the handler catches, so it ends the whole process. From a detached `TCPHandler` thread (main.cpp:431-435, 552) it reaches `std::terminate`. From the calls on the main thread (main.cpp:494, 543) it leaves `main` through its `catch` (main.cpp:557-560). The model returns it as an error result that stops the handler after the records before it; the end of the process and of the other handlers is not modelled.
- RecordParser.Step: bytes are `char` values and `isdigit` is the ASCII digits `0`-`9`. Locale-dependent `isdigit` and negative `char` values are not modelled.
- EventStatistics.EventStatistic.GetFullReport: returns the rows (lower bound, count, count of earlier rows) rather than text. The header line and the float `Weight,%` and `Percent` columns and their stream formatting are not modelled.
- Statistics.Statistic.GetFullStatistic: returns one part per event (name, report line, rows) rather than the concatenated text.
- EventStatistics.EventStatistic.AddData: counters are unbounded `nat`. `uint32_t` wrap-around after 2^32 samples is not modelled. The reduction `delay % 1000000` is modelled.
- EventStatistics.EventStatistic.Calc: the running counters are exact numbers, not `float`, and the guards compare exact fractions. Float rounding past 2^24 samples is not modelled.
- EventStatistics.EventStatistic: `_histogram` is a separate array owned by the statistic, whereas `std::array` is embedded in the object. No two statistics share one, so nothing is lost.
- The getters (main.cpp:136-140) appear as the fields read by `Reported` and `GetReport`.

## Findings

| source | as written | input that shows it | evidently intended | confidence | as-written member | corrected member |
|---|---|---|---|---|---|---|
| main.cpp:101-129 | each guard compares `local / total`, a fraction between 0 and 1, with 50.0, 90.0, 99.0 or 99.9; every guard always passes, so the "median" is the largest delay and each "percentile" the largest delay under its bound | nine delays of 10 microseconds and one of 130, then `Calc`: the median is 130 | compare with 0.5, 0.9, 0.99 and 0.999: the median of that input is 10 | high, not executed | EventStatistics.AsWrittenMedianExample | EventStatistics.MedianExample |

The as-written half is `EventStatistics.CalculatedAsWritten`, with
`EventStatistics.AsWrittenOfReplay` (every cached value is the largest
delay under its bound) and the example. `EventStatistic.Calc` and the
registry follow this half, as the code does. The corrected half is
`EventStatistics.Calculated`. `EventStatistics.CalculatedOfReplay`,
`EventStatistics.MedianOfReplay` and `Histogram.IntendedPercentileIsFloor`
prove it yields the percentiles, and the example shows the median 10.
