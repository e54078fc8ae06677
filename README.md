# A verified model of the thesis benchmark suite

This project models, in Dafny, the part of the jonhoo/thesis benchmark suite that
decides what a benchmark result is. The suite drives adaptive load tests against
the Noria data-flow database and its alternatives (Redis, MySQL), and then turns
what they logged into tables and latency timelines. The model has four pieces.

- **extract-hist** (`graphs/extract-hist/src/main.rs`). This program reads
  hdrhistogram interval logs. Each operation is logged as doubling time windows
  `[0,1) [1,2) [2,4) …` seconds, one processing and one sojourn histogram per
  window. It decodes them with a one-record lookahead into per-operation
  timelines, merges the timelines into an "all" timeline, and collapses a
  timeline into one histogram pair.
  - Modules: `Histogram` (bucket-count histograms), `Timelines` (the `Timeline`
    class) and `ExtractHist` (the decode loop as the `Extractor` class, and the
    window-row and total renderings).
- **The probe loops of the experiment drivers** (`vote_mem.rs`,
  `lobsters_noria_mem.rs`, `vote_hybrid.rs`, `vote_redis.rs`, `lobsters_mysql.rs`).
  - Each loop asks a searcher for the next memory limit, target or scale and keeps
    it as the pending success.
  - At the top of the next iteration it commits the previous pending value as the
    last good one, unless an overload signal cleared it.
  - It applies the driver's skip rules and checks the exit flag before every run.
  - Modules: `Search` (the searcher as a class handing out a fixed sequence of
    values and logging overload marks) and `ProbeLoop` (the loop as a method
    proved against a recursive specification, and a closed form of the value it
    returns).
- **The run bodies and stdout classifiers** (`invoke/vote.rs`,
  `invoke/lobsters.rs` and the copies inline in the drivers). A run primes the
  server, reads the benchmark clients' output line by line, and calls the
  overload callback for slow samples, missing throughput lines, failed clients
  and lost servers.
  - Modules: `Classify` (the line parsers and the line loops) and `Runs` (the run
    bodies over an environment that stands for the remote machines).
- **benchmarks/ingest.py**. It sends each log to a reader by its basename prefix,
  parses the file name back into the run's parameters, sums a Noria statistics
  file in `mem_stats`, and classifies the lines of a migration log.
  - Modules: `Names` (the drivers' prefix formats, built from `Join`, with
    Python's `str.split` as its inverse), `IngestNames` (the name regexes as
    parsers, dispatch, and the paths of histogram and statistics files) and
    `Ingest` (the readers, `mem_stats`, `vote_migration` and the `ingest` loop).

Shared helpers live in `Wrappers` (`Option`) and `Text`: Python's and Rust's
whitespace `split`, decimal rendering and parsing of natural numbers, and
substring search.

Each loop of the source is a method with loop invariants. Its `ensures` ties the
result to a specification function, and lemmas state what the source promises
about that function:
- window geometry;
- which records go to which window, and when the decoder panics;
- merge lengths and sums;
- the value a probe loop can return;
- exactly when a run signals overload;
- that file names round-trip between the drivers and the ingest script;
- the sums `mem_stats` reports.

Time is kept in whole nanoseconds and histogram values are natural numbers.
`Timeline::merge` (graphs/extract-hist/src/main.rs:229-238) leaves `last_end`
unchanged; it does not take the larger of the two ends. `Timelines.Timeline.Merge`
states this.

## Model

| member | source | states |
|---|---|---|
| Histogram.Empty | graphs/extract-hist/src/main.rs:216-217 | a fresh histogram counts 0 samples at every value |
| Histogram.Add | graphs/extract-hist/src/main.rs:98-99 | `add` sums the two histograms value by value; the result reaches as far as the longer one |
| Histogram.Max | graphs/extract-hist/src/main.rs:151 | `max()` is the largest value with a non-zero count, or 0 when there is none, and nothing above it is recorded |
| Histogram.MaxZeroIff | graphs/extract-hist/src/main.rs:151-154 | `max() == 0` (the skip test of both renderers) holds exactly when no value above 0 was recorded |
| Histogram.MaxOfAdd | graphs/extract-hist/src/main.rs:246-247 | the largest value of a sum is the larger of the two largest values |
| Histogram.AddCommutes | graphs/extract-hist/src/main.rs:130-135 | adding is commutative, so which histogram is added into which does not change the counts |
| Histogram.AddAssociates | graphs/extract-hist/src/main.rs:130-135 | adding is associative, so the grouping of the "all" fold does not change the counts |
| Histogram.AddEmpty | graphs/extract-hist/src/main.rs:92-99 | adding into a fresh histogram leaves exactly the added counts |
| Histogram.NoSamples | graphs/extract-hist/src/main.rs:213-219 | `Histograms::default()` holds two empty histograms (`max()` 0 for both metrics) |
| Histogram.Merge | graphs/extract-hist/src/main.rs:222-226 | `Histograms::merge` adds processing into processing and sojourn into sojourn, value by value |
| Histogram.MergeCommutes | graphs/extract-hist/src/main.rs:130-135 | merging two window pairs is commutative |
| Histogram.MergeAssociates | graphs/extract-hist/src/main.rs:130-135 | merging window pairs is associative |
| Timelines.WindowsTile | graphs/extract-hist/src/main.rs:82 | window `k` opens at `(1<<k)>>1` s and closes at `1<<k` s: [0,1), [1,2), [2,4), ...; each closes where the next opens (the row time of main.rs:141-143) |
| Timelines.WindowStartsIncrease | graphs/extract-hist/src/main.rs:79-83 | window starts strictly increase, so the start check names exactly one window |
| Timelines.AddTo | graphs/extract-hist/src/main.rs:96-101 | a histogram is added into the metric its tag names, and the other metric of the window is unchanged |
| Timelines.RecordSnap | graphs/extract-hist/src/main.rs:90-101 | accepting a histogram raises `last_end` to the max of the old end and the interval's end; the window vector grows to at least `idx + 1` and never shrinks; only that window's tagged metric changes |
| Timelines.MergedWindows | graphs/extract-hist/src/main.rs:230-238 | the merged timeline is as long as the longer of the two |
| Timelines.MergedCounts | graphs/extract-hist/src/main.rs:230-238 | every count of every window of a merge is the sum of the two timelines' counts, padding the shorter with empty windows |
| Timelines.MergedCommutes | graphs/extract-hist/src/main.rs:130-135 | merging timelines' windows is commutative, so the map's iteration order does not change the "all" windows |
| Timelines.MergedAssociates | graphs/extract-hist/src/main.rs:130-135 | merging timelines' windows is associative |
| Timelines.MergedWithNothing | graphs/extract-hist/src/main.rs:230-237 | merging with a timeline without windows changes nothing |
| Timelines.CollapsedCounts | graphs/extract-hist/src/main.rs:240-259 | `collapse` counts every sample of every window, metric by metric |
| Timelines.CollapsedOfEmpty | graphs/extract-hist/src/main.rs:253-258 | when no window holds a sample of a metric (including no windows at all), the collapsed metric has `max()` 0 |
| Timelines.CollapsedOfNonEmpty | graphs/extract-hist/src/main.rs:240-252 | one window with a sample above 0 makes the collapsed metric non-empty |
| Timelines.CollapsedEmptyIff | graphs/extract-hist/src/main.rs:151-184 | the collapsed output skips a metric exactly when the timeline output skips it in every window |
| Timelines.Timeline.constructor | graphs/extract-hist/src/main.rs:199-205 | `Timeline::default()`: no windows, `last_end` 0 |
| Timelines.Timeline.Clone | graphs/extract-hist/src/main.rs:131 | a clone holds the same windows and end |
| Timelines.Timeline.Record | graphs/extract-hist/src/main.rs:90-101 | the accepting branch updates the timeline in place to `RecordSnap` of its old value |
| Timelines.Timeline.Merge | graphs/extract-hist/src/main.rs:230-238 | merges present windows, pushes copies of the extra windows of the other timeline, and leaves `last_end` unchanged |
| Timelines.Timeline.Collapse | graphs/extract-hist/src/main.rs:240-259 | the loop returns the collapse of the windows: the first pair with every later pair added in |
| ExtractHist.MetricOf | graphs/extract-hist/src/main.rs:97-100 | tag "sojourn" picks sojourn, tag "processing" picks processing, any other tag is the unreachable branch |
| ExtractHist.ExStep | graphs/extract-hist/src/main.rs:61-110 | one turn of the decode loop: a zero-start histogram after a non-zero one goes back into `last` untouched; a turn goes on only after accepting a decodable interval, and then takes the next item and counts `i` up |
| ExtractHist.OperationNames | graphs/extract-hist/src/main.rs:116-125 | a file whose name contains "lobsters" holds the lobsters operations in `all()` order, any other file "writes" then "reads" |
| ExtractHist.ListingSize | graphs/extract-hist/src/main.rs:130-131 | the map's iteration is empty exactly when there are no timelines, which is when "no histograms?" panics |
| ExtractHist.InOrder | graphs/extract-hist/src/main.rs:130 | the timelines in the order the map yields them |
| ExtractHist.AllOf | graphs/extract-hist/src/main.rs:130-136 | "all" keeps the `last_end` of the first timeline the map yields, since merge never changes it |
| ExtractHist.AllCounts | graphs/extract-hist/src/main.rs:130-136 | every count of every window of "all" is the sum over all timelines |
| ExtractHist.AllLength | graphs/extract-hist/src/main.rs:130-136 | "all" has as many windows as the longest timeline |
| ExtractHist.WindowUntil | graphs/extract-hist/src/main.rs:141-158 | a timeline row's time is `min(last_end, window end)` in whole seconds: the window end when the timeline ran past it, else `last_end` |
| ExtractHist.WindowRowsExact | graphs/extract-hist/src/main.rs:145-154 | window `i` prints a row for a metric exactly when that histogram's `max()` is not 0, with the window's time |
| ExtractHist.TimelineRowsSound | graphs/extract-hist/src/main.rs:141-169 | every row of a timeline's output is a non-empty histogram of one of its windows, with that window's time |
| ExtractHist.TimelineRowsComplete | graphs/extract-hist/src/main.rs:141-169 | every non-empty histogram of every window is printed |
| ExtractHist.CollapsedAgreesWithTimeline | graphs/extract-hist/src/main.rs:151-184 | an operation's metric appears in the collapsed output exactly when some window of it appears in the timeline output |
| ExtractHist.ExLoopFrame | graphs/extract-hist/src/main.rs:61-111 | decoding one operation changes no other operation's timeline, and never drops a window of its own or moves its `last_end` earlier |
| ExtractHist.ExLoopLeavesZeroStart | graphs/extract-hist/src/main.rs:69-74 | an item left in the lookahead slot is a zero-start interval: the first histogram of the next operation |
| ExtractHist.EmptySlotDecodesNothing | graphs/extract-hist/src/main.rs:103-126 | after a deserialise error breaks with the slot empty, every later operation decodes nothing and the trailing check passes |
| ExtractHist.Written | graphs/extract-hist/src/main.rs:43-53 | a client writes each window's processing then sojourn histogram, window after window |
| ExtractHist.WindowsOf | graphs/extract-hist/src/main.rs:201-203 | the histograms of the written windows, in order |
| ExtractHist.WrittenItemShape | graphs/extract-hist/src/main.rs:79-100 | written item `j` belongs to window `j / 2`, starts where that window opens and is zero-start exactly for the first pair |
| ExtractHist.WrittenTurn | graphs/extract-hist/src/main.rs:61-110 | over a written operation, turn `j` accepts item `j` |
| ExtractHist.DecodeWrittenFrom | graphs/extract-hist/src/main.rs:61-111 | from item `j`, the loop accepts the rest of a written operation and stops at the next operation's first histogram |
| ExtractHist.RecordPairAppends | graphs/extract-hist/src/main.rs:92-101 | recording a pair just past the last window appends that window |
| ExtractHist.RecordedFresh | graphs/extract-hist/src/main.rs:90-101 | recording an operation's windows in order onto an empty timeline reproduces them and their latest end exactly |
| ExtractHist.DecodeWritten | graphs/extract-hist/src/main.rs:41-111 | round trip: an operation with at least two windows (or, if it is the last one, any number) decodes into exactly the windows and end its client wrote, leaving the next operation's first histogram in the slot |
| ExtractHist.SingleWindowThenNextPanics | graphs/extract-hist/src/main.rs:79-83 | an operation with only window-0 records followed by another operation trips the start assertion |
| ExtractHist.Extractor.Gather | graphs/extract-hist/src/main.rs:26-127 | the loop over the files either reads them all (the timelines are `GatherSpec`), stops at an unreadable file, or panics, as the file-by-file spec says |
| ExtractHist.Extractor.ExtractFile | graphs/extract-hist/src/main.rs:34-126 | one file: base-time entry first, every operation in order, and a panic when a histogram is left in the slot at the end |
| ExtractHist.Extractor.BuildAll | graphs/extract-hist/src/main.rs:129-136 | panics exactly when there are no timelines; otherwise inserts "all" as the merge of every timeline into a clone of the first |
| ExtractHist.Extractor.Insert | graphs/extract-hist/src/main.rs:136 | `timelines.insert` replaces the entry of that name and nothing else |
| ExtractHist.Extractor.FoldAll | graphs/extract-hist/src/main.rs:131-135 | the fold returns a fresh timeline equal to `AllOf` of the timelines in iteration order |
| ExtractHist.Extractor.Ex | graphs/extract-hist/src/main.rs:59-111 | the `ex!` loop does what `ExLoop` says: the same panic, or the same view and lookahead |
| ExtractHist.Extractor.Turn | graphs/extract-hist/src/main.rs:62-110 | one turn does what `ExStep` says |
| ExtractHist.Extractor.Admit | graphs/extract-hist/src/main.rs:88-110 | the accepting branch records the histogram and takes the next item into the slot |
| ExtractHist.Extractor.Accept | graphs/extract-hist/src/main.rs:90-101 | `entry(name).or_default()` then record: the named timeline becomes `RecordSnap` of its old (or default) value |
| ExtractHist.Extractor.RecordInto | graphs/extract-hist/src/main.rs:91-101 | records into the named timeline only |
| ExtractHist.Extractor.EntryOrDefault | graphs/extract-hist/src/main.rs:90 | the timeline of `name`, created empty when there was none |
| Search.Searcher.constructor | benchmarks/orchestration/src/vote_mem.rs:80-86 | a searcher starts with the values it will hand out, none handed out and no overload mark |
| Search.Searcher.Next | benchmarks/orchestration/src/vote_mem.rs:89 | `next()` hands out the next value and counts it, or `None` once the values are exhausted; overload marks are unchanged |
| Search.Searcher.Overloaded | benchmarks/orchestration/src/vote_hybrid.rs:245-248 | `overloaded()` logs one mark against the value handed out last and changes nothing else |
| ProbeLoop.PowerOfTwoIff | benchmarks/orchestration/src/vote_mem.rs:96 | `is_power_of_two` holds exactly for 1, 2, 4, 8, ... |
| ProbeLoop.Log2 | benchmarks/orchestration/src/lobsters_noria_mem.rs:114 | every power of two is `2^k` for the `k` returned |
| ProbeLoop.PowersOfTwo | benchmarks/orchestration/src/lobsters_noria_mem.rs:114 | every `2^k` passes `is_power_of_two` |
| ProbeLoop.Probes | benchmarks/orchestration/src/vote_mem.rs:87-89 | the memory-limit drivers probe 0 (unlimited) first and then what the searcher hands out; the others only what the searcher hands out |
| ProbeLoop.FirstHalt | benchmarks/orchestration/src/vote_mem.rs:102-105 | the first iteration that ends the loop (an exit check that fires or a failing run) |
| ProbeLoop.DriveStep | benchmarks/orchestration/src/vote_mem.rs:89-94 | an iteration that does not end the loop commits the previous pending probe and leaves its own probe pending exactly when it was skipped or ran without an overload signal |
| ProbeLoop.DriveHalt | benchmarks/orchestration/src/vote_mem.rs:102-105 | an iteration that ends the loop on exit returns the probe just committed; a failed run returns an error, a panic aborts |
| ProbeLoop.CommittedIsLastCommit | benchmarks/orchestration/src/vote_mem.rs:90-93 | the value committed at the top of iteration `i` is the probe of the latest committing iteration before it |
| ProbeLoop.ExpectedStep | benchmarks/orchestration/src/vote_mem.rs:89-105 | the reference verdict does not change across an iteration that does not end the loop |
| ProbeLoop.ExpectedHalt | benchmarks/orchestration/src/vote_mem.rs:102-105 | the reference verdict at an iteration that ends the loop |
| ProbeLoop.DriveFollowsReference | benchmarks/orchestration/src/vote_mem.rs:88-105 | from any iteration, the loop returns the reference verdict stated without the loop |
| ProbeLoop.ExploredIsExpected | benchmarks/orchestration/src/vote_mem.rs:36-400 | `one` returns exactly the reference verdict: on exit the latest committing probe before the exit, on exhaustion the latest committing probe before the final one, else the error |
| ProbeLoop.LastCommitIsLatest | benchmarks/orchestration/src/vote_mem.rs:36 | the committed value is the probe of the latest committing iteration, and the initial 0 when none committed |
| ProbeLoop.VerdictIsCommittedProbe | benchmarks/orchestration/src/vote_mem.rs:88-94 | the value returned is 0 or a probe that committed and was followed by another iteration: the final probe is never committed |
| ProbeLoop.CommittedBeforeExit | benchmarks/orchestration/src/vote_mem.rs:159-161 | a committing iteration (a skipped probe or a run cut short by exit) followed by a firing exit check is the result |
| ProbeLoop.ClearedProbeNotCommitted | benchmarks/orchestration/src/vote_mem.rs:152-153 | a run that raised an overload signal clears its pending slot and never commits |
| ProbeLoop.Explore | benchmarks/orchestration/src/vote_mem.rs:87-105 | the `while let Some(p)` loop of `one` returns the verdict and leaves the searcher's overload log that `Explored` specifies |
| ProbeLoop.DriveUnfolds | benchmarks/orchestration/src/vote_mem.rs:89-105 | the loop from iteration `i` is that iteration's step followed by the loop from `i + 1` |
| ProbeLoop.Iterate | benchmarks/orchestration/src/vote_hybrid.rs:181-210 | one iteration: commit, the skip, the known-bad mark, the exit check, then the run with its overload callback, as `Iteration` says |
| ProbeLoop.Signal | benchmarks/orchestration/src/vote_redis.rs:148-151 | `k` overload callbacks log `k` marks against the current value |
| ProbeLoop.MysqlOne | benchmarks/orchestration/src/lobsters_mysql.rs:31-35 | a first receive other than `Some(false)` returns 0 before anything runs; otherwise the usual probe loop over scales |
| ProbeLoop.ZeroSkippedIff | benchmarks/orchestration/src/vote_mem.rs:96-100 | probe 0 is skipped exactly when the target is 1000 times a power of two (for lobsters_noria_mem.rs, the scale 500 times one) |
| ProbeLoop.KnownBadBecomesLastGood | benchmarks/orchestration/src/vote_hybrid.rs:200-205 | for every hybrid exploration, a known-bad target reached before the loop ends marks the searcher exactly once, with the count of values handed out, yet commits; so it is the verdict when the next iteration's exit check fires, and when the next target is the last one and does not end the loop |
| ProbeLoop.SweptIff | benchmarks/orchestration/src/vote.rs:80-81 | a sweep succeeds exactly when every run returns, and then every overload signal of every run reached the searcher |
| ProbeLoop.Sweep | benchmarks/orchestration/src/lobsters_noria.rs:89-90 | vote.rs and lobsters_noria.rs run every value the searcher hands out, with no last-good value |
| ProbeLoop.SurfaceFirst | benchmarks/orchestration/src/vote.rs:17-27 | after every run is awaited, `main` fails exactly when some run failed, with the first failure in list order |
| Classify.MapLines | benchmarks/orchestration/src/invoke/vote.rs:98 | each line is read on its own, one result per line |
| Classify.MapLinesAt | benchmarks/orchestration/src/invoke/vote.rs:98 | the `i`-th result is that of the `i`-th line |
| Classify.ClassifyVoteMeaning | benchmarks/orchestration/src/invoke/vote.rs:103-127 | a sample is a non-`#` line whose 2nd and 3rd fields parse as `u32`; a non-`#` line without fields is the `unwrap` panic; the rate lines are exactly those starting with "# generated ops/s" or "# actual ops/s" |
| Classify.CommentLine | benchmarks/orchestration/src/invoke/vote.rs:127-136 | of the `#` lines only the two throughput lines are read, for their last field |
| Classify.FieldsLine | benchmarks/orchestration/src/invoke/vote.rs:104-126 | a non-`#` line panics exactly when it has no field; a sample carries two in-range `u32` values; anything else is a bad line |
| Classify.VoteEffect | benchmarks/orchestration/src/invoke/vote.rs:103-136 | a line panics the scan exactly when it has no field (`unwrap` of the first field) or is a rate line whose last field does not parse as an `f64` (`parse().unwrap()`) |
| Classify.ClassifyLines | benchmarks/orchestration/src/vote_mem.rs:202-226 | one classification per output line |
| Classify.ClassifyLinesAt | benchmarks/orchestration/src/vote_mem.rs:202-226 | the `i`-th classification is that of line `i` |
| Classify.ScanVoteLines | benchmarks/orchestration/src/invoke/vote.rs:96-139 | the stdout loop ends in the state the specification function `Classify.VoteScan` gives for the classified lines: the same panic (no field, or an unparsable rate), `got_lines` and overload count |
| Classify.AbsorbVote | benchmarks/orchestration/src/invoke/vote.rs:112-135 | a sample sets `got_lines`; a high-latency sample or a low rate line adds one overload signal |
| Classify.VoteScanStep | benchmarks/orchestration/src/invoke/vote.rs:98-137 | one more line is the scan so far followed by that line's effect |
| Classify.ScanPanicLater | benchmarks/orchestration/src/invoke/vote.rs:104-130 | once a line has panicked, later lines do not matter |
| Classify.VoteScanMeaning | benchmarks/orchestration/src/invoke/vote.rs:103-157 | the scan panics exactly when some line has no fields or is a rate line whose field does not parse; otherwise `got_lines` holds exactly when some line was a sample, and the overload count is the number of high-latency samples plus low rate lines |
| Classify.VoteSignalsZeroIff | benchmarks/orchestration/src/vote_mem.rs:202-226 | no signal is raised exactly when no sample has a high latency and no rate line is low |
| Classify.RenderedSample | benchmarks/orchestration/src/invoke/vote.rs:103-112 | a latency line `<op> <pct> <sojourn>` with `u32` values reads back as that sample |
| Classify.ClassifyLobstersMeaning | benchmarks/orchestration/src/invoke/lobsters.rs:91-136 | only lines containing "sojourn" are read; a latency is the 4th field of a line whose first three are an endpoint other than Login/Logout, "sojourn" and "95" |
| Classify.SojournFields | benchmarks/orchestration/src/invoke/lobsters.rs:92-132 | Login/Logout are ignored; a metric other than sojourn is ignored if it is processing and fails the assertion otherwise; a pct other than 95 is ignored if it is 50, 99 or 100 and fails otherwise; a missing or unparsable field is a bad line |
| Classify.RenderedLatency | benchmarks/orchestration/src/invoke/lobsters.rs:90-131 | the line `<endpoint> sojourn 95 <value>` reads back as that endpoint's latency |
| Classify.SojournLineFields | benchmarks/orchestration/src/invoke/lobsters.rs:91-93 | a line with "sojourn" always has a first field, and its trimmed fields are its fields |
| Classify.LatencyFields | benchmarks/orchestration/src/invoke/lobsters.rs:93-131 | the four fields of a 95th-percentile sojourn line yield its latency |
| Classify.LatencyLineWords | benchmarks/orchestration/src/invoke/lobsters.rs:90-92 | the rendered latency line splits into its four fields |
| Classify.LatencyLineContains | benchmarks/orchestration/src/invoke/lobsters.rs:91 | the rendered latency line contains "sojourn" |
| Classify.AfterLastSpace | benchmarks/orchestration/src/invoke/lobsters.rs:78 | `rsplitn(2, ' ').next()` is the suffix after the line's last space, holding no space, or the whole line when it has none |
| Classify.ReadLobstersExclusive | benchmarks/orchestration/src/invoke/lobsters.rs:76-80 | no line starts with both "# target ops/s" and "# generated ops/s" |
| Classify.ReadLines | benchmarks/orchestration/src/invoke/lobsters.rs:71 | one reading per output line |
| Classify.ReadLinesAt | benchmarks/orchestration/src/invoke/lobsters.rs:71 | the `i`-th reading is that of line `i` |
| Classify.ThroughputEffect | benchmarks/orchestration/src/invoke/lobsters.rs:76-87 | the throughput lines are looked at only while one of the two values is missing; such a line whose field does not parse ends the scan with an error (`parse::<f64>()?`); otherwise it is recorded, and the low-throughput check runs when both are present |
| Classify.LatencyEffect | benchmarks/orchestration/src/invoke/lobsters.rs:90-135 | the latency part panics exactly on a failed assertion, never returns an error, and otherwise adds one signal for a value above the limit |
| Classify.ScanLobstersLines | benchmarks/orchestration/src/invoke/lobsters.rs:71-137 | the stdout loop ends in the state the specification function `Classify.LobstersScan` gives: the same panic or error, the same seen throughput lines and overload count |
| Classify.AbsorbLobsters | benchmarks/orchestration/src/invoke/lobsters.rs:76-136 | the loop body: the throughput part, which may end in an error, then the latency part, which may panic |
| Classify.AbsorbLatency | benchmarks/orchestration/src/invoke/lobsters.rs:105-135 | an assertion failure panics; a value above the limit adds one signal |
| Classify.NoteThroughput | benchmarks/orchestration/src/invoke/lobsters.rs:76-87 | records the target or generated line only while one is missing, returns the error for such a line whose field does not parse, and signals once when both are known and throughput is low |
| Classify.LobstersScanStep | benchmarks/orchestration/src/invoke/lobsters.rs:71-137 | one more line is the scan so far followed by that line's effect |
| Classify.LobstersStopLater | benchmarks/orchestration/src/invoke/lobsters.rs:76-118 | once the scan has panicked or returned an error, later lines do not matter |
| Classify.HighLatenciesZeroIff | benchmarks/orchestration/src/invoke/lobsters.rs:132-135 | no line signals high latency exactly when no line's 95th-percentile sojourn exceeds the limit |
| Classify.LobstersScanMeaning | benchmarks/orchestration/src/invoke/lobsters.rs:68-155 | while the scan runs, each throughput value is present exactly when some line starts with its prefix, and the signals are the high latencies plus at most one low-throughput signal |
| Classify.StopsAtPrefix | benchmarks/orchestration/src/invoke/lobsters.rs:76-80 | whether a line stops the scan depends only on that line and the lines before it |
| Classify.LobstersRunningIff | benchmarks/orchestration/src/invoke/lobsters.rs:71-136 | the scan reads every line exactly when no line stops it: no throughput line read while a value is missing has an unparsable field, and no latency part fails an assertion |
| Classify.LobstersFirstStop | benchmarks/orchestration/src/invoke/lobsters.rs:76-118 | the first line that stops the scan decides how it ends: an error when its throughput field does not parse, since that check comes before the latency part, and a panic otherwise |
| Classify.ReadLinesExclusive | benchmarks/orchestration/src/invoke/lobsters.rs:76-80 | no line of an output is read as both throughput lines |
| Runs.FailuresMeaning | benchmarks/orchestration/src/invoke/vote.rs:159-177 | no client failed exactly when every client succeeded, and each client is counted once as failed or as succeeded |
| Runs.SucceededMeaning | benchmarks/orchestration/src/invoke/vote.rs:249-254 | the clients whose histograms are copied are exactly those that exited successfully, in increasing client order |
| Runs.AwaitClients | benchmarks/orchestration/src/invoke/vote.rs:159-177 | waiting for the clients signals overload once per failed client and leaves `all_ok` set exactly when all succeeded |
| Runs.SaveHistograms | benchmarks/orchestration/src/invoke/vote.rs:249-254 | the histogram loop skips every failed client and copies the others' histograms in order |
| Runs.VoteClient | benchmarks/orchestration/src/invoke/vote.rs:308-339 | `vote_client` puts the vote arguments first, then the backend's sub-command and the server's private address (`:2181` for ZooKeeper, `--no-join` last when joining is off), and panics when the server has no private address |
| Runs.TargetPerClient | benchmarks/orchestration/src/invoke/vote.rs:35 | the per-client target is the least whole rate that, given to every client, adds up to at least the total target |
| Runs.Cut | benchmarks/orchestration/src/vote_mem.rs:247-256 | a run that watches the exit signal reads the output only up to the signal; one that does not, or gets no signal, reads all of it |
| Runs.ProbeMemory | benchmarks/orchestration/src/invoke/vote.rs:204-237 | the memory probes fail the run when MySQL's memory (hybrid) cannot be read; a failed server probe is one overload signal when the connection still holds and an error otherwise; the inline drivers fail on any failed probe |
| Runs.VoteRunBody | benchmarks/orchestration/src/invoke/vote.rs:37-298 | a vote-style run signals once when priming fails, stops when the exit flag is set after priming, and otherwise reads the output, then waits for the clients and probes memory, reporting the reference outcome |
| Runs.FinishVote | benchmarks/orchestration/src/vote_mem.rs:247-263 | once the output is read, a panicking line ends the run, the exit signal ends it with the signals so far, and otherwise a run without any sample gets one more signal before the wrap-up |
| Runs.WrapUpVote | benchmarks/orchestration/src/invoke/vote.rs:159-296 | the wrap-up adds the failed clients', high load's, the lost server's and a stats timeout's signals, copies the successful clients' histograms, and writes the stats only when all clients succeeded (for invoke/vote.rs, only for Noria) |
| Runs.VoteSavedMeaning | benchmarks/orchestration/src/invoke/vote.rs:249-296 | histograms are copied only for successful clients in client order, the stats only when every client succeeded, and neither unless priming succeeded and the run was not interrupted |
| Runs.VoteSignalSources | benchmarks/orchestration/src/invoke/vote.rs:96-296 | a completed run's signal count is the high-latency samples plus the low rate lines, plus one when no sample parsed, plus the failed clients, plus the wrap-up's high load, lost server and stats timeout |
| Runs.VoteCleanIff | benchmarks/orchestration/src/invoke/vote.rs:96-296 | a completed run raises no overload signal exactly when a sample parsed, no sample is slow, no rate is low, every client succeeded and (invoke/vote.rs) the load was normal, the server's memory was read and the stats did not time out |
| Runs.VotePanicIff | benchmarks/orchestration/src/invoke/vote.rs:96-137 | once priming is done, a run panics exactly when a line it reads has no field or a rate field that does not parse; the wrap-up never panics |
| Runs.VoteInterruptedSignals | benchmarks/orchestration/src/invoke/vote.rs:141-150 | a run cut short by the exit signal saves nothing and reports only the signals (or the panic) of the lines read before it |
| Runs.InterruptedLimitCommitted | benchmarks/orchestration/src/vote_mem.rs:247-263 | in vote_mem.rs, a limit whose run is interrupted before any overload signal stays committed, and it is the verdict once the next round's exit check fires |
| Runs.LobstersRunBody | benchmarks/orchestration/src/invoke/lobsters.rs:25-170 | a lobsters-style run ends quietly on the exit signal during priming, signals once when priming (or lobsters_noria.rs's warm-up) fails, and otherwise reads the output and reports the reference outcome |
| Runs.FinishLobsters | benchmarks/orchestration/src/invoke/lobsters.rs:141-198 | once the output is read, a failed assertion panics, an unparsable throughput field is an error (`r?` after the `select!`), the exit signal ends the run, a missing throughput line and a failed client each signal once, a failed memory probe is an error, and the histogram is saved when the client succeeded |
| Runs.LobstersCleanIff | benchmarks/orchestration/src/invoke/lobsters.rs:68-198 | a completed run (no line stops the scan) raises no overload signal exactly when both throughput lines appear, the throughput is not low, no 95th-percentile sojourn exceeds the limit and the client succeeds; the histogram is saved exactly when the client succeeded |
| Runs.LobstersStopOutcome | benchmarks/orchestration/src/invoke/lobsters.rs:68-148 | once priming is done, the first line read that stops the scan decides the run: an unparsable throughput field makes it an error, a failed assertion a panic |
| Runs.LobstersEarlyEnd | benchmarks/orchestration/src/invoke/lobsters.rs:34-50 | the exit signal during priming ends the run with no signal, a failed prime or warm-up with one, and lobsters_noria.rs never looks at the exit signal |
| Names.Split | benchmarks/ingest.py:271 | splitting on one character always yields at least one piece, as Python's `str.split` does |
| Names.SplitPiecesFree | benchmarks/ingest.py:170 | no piece of a split holds the separator, which is why a regex whose groups exclude `.` or `-` matches piece by piece |
| Names.SplitJoin | benchmarks/orchestration/src/vote_mem.rs:110-114 | joining separator-free fields and splitting the result gives the fields back |
| Names.JoinSplit | benchmarks/orchestration/src/vote_mem.rs:110-114 | splitting a name and joining the pieces gives the name back |
| Names.Tagged | benchmarks/orchestration/src/vote_mem.rs:110-114 | a `{n}u` field is one or more decimal digits followed by the unit letter |
| IngestNames.Untag | benchmarks/ingest.py:170 | a `(\d+)u` field is accepted only when it ends in the unit letter |
| IngestNames.UntagTagged | benchmarks/ingest.py:181-185 | reading a `{n}u` field written by a driver gives back `n` |
| IngestNames.VoteMemPieces | benchmarks/orchestration/src/vote_mem.rs:110-114 | a vote_mem.rs log name splits on `.` into its seven fields and `log` |
| IngestNames.VoteMemNameRoundTrip | benchmarks/ingest.py:170-186 | `vote_fn` (`IngestNames.ParseVoteName`) accepts every log name vote_mem.rs writes and recovers partial, articles, target, write rate, clients, memory limit and distribution |
| IngestNames.PlainVotePieces | benchmarks/orchestration/src/vote.rs:84-89 | a vote.rs, vote_redis.rs or vote_hybrid.rs log name splits on `.` into its six fields and `log` |
| IngestNames.VoteNameNeedsLimit | benchmarks/ingest.py:170 | `vote_fn` rejects every log name vote.rs writes, since it carries no memory limit, so ingest drops those logs |
| IngestNames.RedisNameRoundTrip | benchmarks/ingest.py:93-107 | `redis_fn` (`IngestNames.ParseRedisName`) accepts every log name vote_redis.rs writes and recovers its parameters, with the optional memory-limit group absent |
| IngestNames.ShardGroupOf | benchmarks/ingest.py:261 | the shard part the drivers write matches group 1 `((?:_)\d+)?` and, past its underscore, reads as the shard count |
| IngestNames.BackendText | benchmarks/orchestration/src/lobsters_noria_mem.rs:128-136 | a lobsters backend is `direct`, then the shard part, then `_full` unless partial, with no `-` or `/` in it |
| IngestNames.LobstersMemLayout | benchmarks/orchestration/src/lobsters_noria_mem.rs:128-136 | a lobsters_noria_mem.rs log name is four dash-separated fields followed by `m.log` |
| IngestNames.BackendGroups | benchmarks/ingest.py:261 | the regex takes a backend apart into `direct`, the shard group and a `_full` group present exactly when the run is not partial |
| IngestNames.LobstersMemPieces | benchmarks/orchestration/src/lobsters_noria_mem.rs:128-136 | the dash-separated pieces before `m.log` are `lobsters`, the backend, the scale and the memory limit |
| IngestNames.LobstersMemMatch | benchmarks/ingest.py:261 | `lobsters_noria_fn` matches every lobsters_noria_mem.rs log name and captures the shard part, the `_full` flag, the scale and the limit |
| IngestNames.LobstersMemNameRoundTrip | benchmarks/ingest.py:261-274 | the corrected reader recovers every parameter of a lobsters_noria_mem.rs log name: shard count, partial, scale and memory limit |
| IngestNames.UnshardedNameAsWritten | benchmarks/ingest.py:271 | as written, the reader reads an unsharded log name correctly, with shard count 0 |
| IngestNames.ShardedNameRaises | benchmarks/ingest.py:271 | as written, reading the shard count of every sharded log name raises `ValueError`, because `int` is given the group with its leading underscore; the reader gets that far on every non-empty sharded log, the empty-file return at lines 267-269 coming first |
| IngestNames.LobstersNameNeedsLimit | benchmarks/orchestration/src/lobsters_noria.rs:94-102 | `lobsters_noria_fn` rejects every log name lobsters_noria.rs writes, since it carries no `{limit}m` part |
| IngestNames.MysqlNameRoundTrip | benchmarks/results/lobsters-mysql/ingest.py:16-26 | the lobsters-mysql reader's regex (`IngestNames.ParseMysqlName`) accepts every log name lobsters_mysql.rs writes and recovers its scale |
| IngestNames.MysqlLogsDropped | benchmarks/ingest.py:28-29 | benchmarks/ingest.py hands lobsters-mysql logs to the lobsters reader, whose regex rejects them |
| IngestNames.MigrationTailOf | benchmarks/ingest.py:48 | after group 2 the regex splits off the article text and the distribution ending, uniform or zipf1.08 |
| IngestNames.ReuseGroupsOf | benchmarks/ingest.py:48 | group 2 is read as `stupid` or `reuse`, and the rest as the article text and the distribution |
| IngestNames.MigrationGroupsOf | benchmarks/ingest.py:48 | group 1 is read as `partial` or `no-partial` before the rest is parsed |
| IngestNames.ParseAfterVote | benchmarks/ingest.py:48 | a migration name is `vote-` followed by the four groups |
| IngestNames.MigrationNameRoundTrip | benchmarks/ingest.py:48-57 | `vote_migration_fn` (`IngestNames.ParseMigrationName`) accepts every name of its shape and recovers partial, reuse, the article text and the distribution |
| IngestNames.DispatchLobsters | benchmarks/ingest.py:28-29 | `IngestNames.Dispatch`, the prefix test of `ingest`, sends every basename starting with `lobsters-` to the lobsters reader |
| IngestNames.StartsWithLobsters | benchmarks/ingest.py:28-29 | a log named `lobsters` followed by dash-joined fields goes to the lobsters reader |
| IngestNames.VoteMemDispatch | benchmarks/ingest.py:26-27 | ingest hands every vote_mem.rs log to the `vote` reader |
| IngestNames.RedisDispatch | benchmarks/ingest.py:24-25 | ingest hands every vote_redis.rs log to the `redis` reader |
| IngestNames.HybridUnrecognized | benchmarks/ingest.py:30-31 | vote_hybrid.rs's logs start with `hybrid.`, which no prefix claims, so they are reported as unrecognised |
| IngestNames.LobstersMemDispatch | benchmarks/ingest.py:28-29 | ingest hands every lobsters_noria_mem.rs log to the lobsters reader |
| IngestNames.LastIndex | benchmarks/ingest.py:345 | the index found is the last occurrence of the character, or -1 when there is none |
| IngestNames.SplitExtParts | benchmarks/ingest.py:345 | `splitext`'s root and extension make up the path, and a non-empty extension starts with its dot |
| IngestNames.SplitExtOfLog | benchmarks/ingest.py:345 | a driver log `{dir}/{prefix}.log` splits into `{dir}/{prefix}` and `.log`, and its basename is `{prefix}.log` |
| IngestNames.StatsBesideLog | benchmarks/ingest.py:345 | `mem_stats` reads `{dir}/{prefix}-statistics.json` for the log `{dir}/{prefix}.log` |
| IngestNames.LobstersPrefixShape | benchmarks/orchestration/src/lobsters_noria_mem.rs:128-136 | a lobsters prefix starts with `lobsters` and holds no `/` |
| IngestNames.LobstersLogHist | benchmarks/ingest.py:373-375 | a log with `lobsters` in its basename has its histogram read from `{root}.hist` |
| IngestNames.NamedLobsters | benchmarks/ingest.py:373 | a log whose prefix starts with `lobsters` has `lobsters` in its name |
| IngestNames.LobstersHistIsSaved | benchmarks/orchestration/src/lobsters_noria_mem.rs:354 | for a lobsters_noria_mem.rs log, `extract_hist` reads exactly the `{prefix}.hist` the driver saved beside it |
| IngestNames.ClientHistsMatchGlob | benchmarks/ingest.py:376-377 | for any other log, `extract_hist` uses the `{root}-client*.hist` glob, which matches each `{prefix}-client{i}.hist` a vote driver saves |
| Ingest.GeneratedZeroIff | benchmarks/ingest.py:136-138 | the generated-throughput count is zero exactly when no line is a `#` comment holding `generated ops/s`, and it never exceeds the number of lines |
| Ingest.CountClients | benchmarks/ingest.py:195-201 | the reader's line loop counts exactly the `#` comments holding `generated ops/s` |
| Ingest.BasePlusOther | benchmarks/ingest.py:355-369 | every node's size is counted once, in base memory for base nodes and in other memory for the rest, so the two add up to the total |
| Ingest.SumsBounded | benchmarks/ingest.py:355-369 | with non-negative sizes, reader memory and fully materialised memory are each part of the other memory |
| Ingest.AddDomain | benchmarks/ingest.py:356-369 | the inner loop adds one domain's nodes to the running sums, node by node in map order |
| Ingest.ComputeMemStats | benchmarks/ingest.py:344-370 | `mem_stats` reports the domain count and the four sums over all domains' nodes |
| Ingest.MemStatsMeaning | benchmarks/ingest.py:344-370 | `mem_stats` counts every domain; base and other memory add up to the total size; reader and full-operator memory are bounded by other memory |
| Ingest.KindHasFields | benchmarks/ingest.py:63-84 | every line the migration loop records holds at least one whitespace-separated field, so `fields[0]` exists |
| Ingest.ReadMigration | benchmarks/ingest.py:63-84 | `vote_migration`'s line loop files each line under the first of OLD, NEW, HITF, MIG START and MIG FINISHED it contains |
| Ingest.LastOfKind | benchmarks/ingest.py:79-84 | the index found is a line of the kind, and no later line is of that kind |
| Ingest.MigrationStamps | benchmarks/ingest.py:79-84 | the migration's start and finish are the times of the last `MIG START` and `MIG FINISHED` lines, or 0 when there is none |
| Ingest.MigrationSeries | benchmarks/ingest.py:67-78 | the old, new and hit-fraction series each hold the points of their own lines, in file order, whatever the other lines are |
| Ingest.ReadVote | benchmarks/ingest.py:171-223 | `vote` (`Ingest.VoteRowOf`) skips a name `vote_fn` rejects, an empty file, and a file with no generated-throughput line; any other file raises when its statistics file is missing (`mem_stats` opens it), and otherwise makes one row with the parsed name and `mem_stats` |
| Ingest.ReadRedis | benchmarks/ingest.py:94-138 | `redis` (`Ingest.RedisRowOf`) skips the same three cases and otherwise makes one row with the parsed name |
| Ingest.ReadLobsters | benchmarks/ingest.py:262-312 | the corrected `lobsters_noria` (`Ingest.LobstersRowOf`) skips only a rejected name or an empty file; any other file raises when its statistics file is missing, and otherwise makes one row with the parsed name and `mem_stats` |
| Ingest.ReadVoteMigration | benchmarks/ingest.py:49-57 | `vote_migration` (`Ingest.MigrationRowOf`) skips only a rejected name and otherwise makes one row from the name and the line loop |
| Ingest.RaisesIff | benchmarks/ingest.py:344-346 | with the corrected lobsters reader, a reader raises exactly on a non-empty vote log `vote_fn` accepts with a generated-throughput line, or a non-empty lobsters log `lobsters_noria_fn` accepts, that has no statistics file beside it; the migration and redis readers never raise |
| Ingest.RunIngest | benchmarks/ingest.py:19-31 | the result is `Ingest.IngestOf`: `ingest` visits the logs in glob order and hands each one to the reader its basename prefix selects (`Ingest.RowOf` over `IngestNames.Dispatch`), or reports its name; a reader's exception is not caught, so it ends `ingest` with no result |
| Ingest.AbortPersists | benchmarks/ingest.py:19-31 | once a reader has raised, no later log changes the outcome: `ingest` has no result |
| Ingest.IngestAbortsIff | benchmarks/ingest.py:19-31 | with the corrected lobsters reader, `ingest` ends in an exception exactly when some log makes its reader open a missing statistics file |
| Ingest.LobstersAsWrittenDiffers | benchmarks/ingest.py:261-274 | the as-written lobsters reader (`Ingest.LobstersRowAsWritten`) and the corrected one differ exactly on a non-empty sharded log whose statistics file exists, where the first raises and the second makes a row |
| Ingest.ShardedLogRaisesAsWritten | benchmarks/ingest.py:267-271 | every non-empty log of a sharded lobsters_noria_mem.rs run reaches the lobsters reader and, as written, raises, while the corrected reader keeps it when its statistics file exists |
| Ingest.VoteMemLogWithoutStats | benchmarks/orchestration/src/vote_mem.rs:350-353 | a non-empty vote_mem.rs log with a generated-throughput line whose run wrote no statistics file (a client failed) makes `ingest` raise, wherever the glob lists it |
| Ingest.LobstersMemLogWithoutStats | benchmarks/orchestration/src/lobsters_noria_mem.rs:347-364 | a non-empty lobsters_noria_mem.rs log whose run wrote no statistics file (the client failed) makes `ingest` raise, wherever the glob lists it |
| Ingest.PresentIff | benchmarks/ingest.py:19-31 | a row is in a table exactly when some file contributed it |
| Ingest.KeptAll | benchmarks/ingest.py:19-31 | the contributions list has one entry per file, in file order |
| Ingest.TableIsPresent | benchmarks/ingest.py:19-31 | when `ingest` returns, each table holds the rows its reader made, in file order |
| Ingest.TablesFromReaders | benchmarks/ingest.py:19-31 | when `ingest` returns, a row is in a reader's table exactly when some log dispatched to that reader produced it |
| Ingest.UnrecognizedNames | benchmarks/ingest.py:30-31 | when `ingest` returns, the unrecognised list holds exactly the basenames of the logs no prefix claims |
| Text.Words | benchmarks/orchestration/src/invoke/vote.rs:104 | `split_whitespace` yields non-empty fields that hold no whitespace |
| Text.WordsEmptyIff | benchmarks/orchestration/src/invoke/vote.rs:104-105 | a line has no field, so the `unwrap` of its first one panics, exactly when it holds only whitespace |
| Text.ParseUnsigned | benchmarks/orchestration/src/invoke/vote.rs:110-111 | `parse::<u32>()` accepts exactly an optional `+` and one or more ASCII digits whose value fits the type |
| Text.ParseRendered | benchmarks/orchestration/src/invoke/vote.rs:110-111 | a number rendered in decimal parses back to itself when it fits the type |

## Left out

- The `cliff` crate's searchers (`ExponentialCliffSearcher`, `BinaryMinSearcher`, `LoadIterator`) and the `explore!` scheduler are not part of this model. `Search.Searcher` hands out a fixed sequence of values given as a parameter and logs overload marks. How a real searcher picks its next value from those marks (growth, binary refinement, backfill) is not modelled.
- hdrhistogram is a foreign library. Histograms are bucket-count sequences with pointwise `add` and `max()`. Left out: the interval-log iterator, base64 decoding (each record carries a decoded-or-not flag instead), `add`'s bounds errors, `mean`, `value_at_quantile` and `iter_quantiles`. So the quantile numbers the renderers write are not modelled; which rows are written, and their end times, are.
- The order of the operation names (trawler's `LobstersRequest::all()`) and the iteration order of the timelines' `HashMap` are parameters.
- ExtractHist: window starts `(1 << k) >> 1` are unbounded naturals, so the `u64` shift overflow at `k >= 64` is not modelled.
- Floating-point comparisons are parameters of the run environment, not computed:
  - the throughput checks, through `Rates.low` and `Throughput.low`;
  - `sload1 > 15.5`, through `highLoad`.
- Also not modelled in floating point: the µs-to-ms conversion, the GB conversion of memory limits (ingest keeps bytes), `int(float(...) * 1000000)` of migration article counts (kept as text), the float conversion of migration points, and the float sums in the ingest readers (throughput, load, memory). The `ValueError` that `float` raises on a field that is not a number is not modelled either.
- Rust's `f64` grammar is not modelled. Which throughput field texts fail to parse is a parameter (`Rates.unparsable`, `Throughput.unparsable`). What such a failure does is modelled: a panic in the vote scans (`parse().unwrap()`), an error in the lobsters scans (`parse::<f64>()?`).
- Runs.TargetPerClient: computed as an exact integer ceiling. The `f64` ceiling of the source agrees with it whenever target and client count are below 2^53, and nothing is claimed above that.
- Runs.TargetPerClient: requires at least one client. With no client, `run` panics at `cs[0]` while priming, before the per-client target is used.
- I/O errors (`?` on SSH, sftp and file writes) become the single `Failed` outcome. Where such an error can occur is an environment parameter only for the memory probes.
- Out as I/O and concurrency:
  - machine provisioning, SSH and sftp, the remote binaries, and how `noria_bin` builds commands;
  - the `tokio::select!` race;
  - server start and stop (`server.rs`);
  - the CLI and spawning in `main.rs`;
  - `vote_migration.rs`, whose log format only the ingest side reads.
- The exit signal is one arrival point in the output, not a concurrent event.
- Python's `\d` also matches non-ASCII decimal digits. The name parsers accept ASCII digits only, which is all the drivers write.
- Ingest.RaisesIff, Ingest.IngestAbortsIff, Ingest.RowOf, Ingest.IngestOf and Ingest.RunIngest model the corrected lobsters reader of the Findings row, not the as-written one: as written, benchmarks/ingest.py:271 also raises on every non-empty sharded lobsters log, and that ends `ingest` too. The as-written reader is `Ingest.LobstersRowAsWritten`, and `Ingest.LobstersAsWrittenDiffers` and `Ingest.ShardedLogRaisesAsWritten` state where the two differ.
- `glob` lists files in an order the filesystem decides. `Ingest.RunIngest` takes the files in any given order and keeps that order.
- pandas frames, pickling, the `timelines` call into extract-hist and the `cargo` invocation in `extract_hist` are left out. Each reader's contribution is modelled as one row of its table. A failure of that subprocess, which also ends `ingest`, is not modelled.
- A statistics file that exists but lacks the `domains`, `desc`, `mem_size` or `materialized` keys makes `mem_stats` raise `KeyError`. The model takes every existing statistics file as well formed.
- `mem_stats` reads a node's partial-materialisation flag as a boolean. The model does not check that `materialized` is a dict holding `Partial`.
- `mem_stats` sizes are integers. The JSON file's floats, and the arithmetic on them, are not modelled.
- The ingest scripts under `benchmarks/results/` are not part of this model, except for the lobsters-mysql name regex. They differ from `benchmarks/ingest.py` in more than that regex. For example, `benchmarks/results/lobsters/ingest.py:16` adds a `(_durable)?` group to the lobsters name regex, and `benchmarks/results/vote-migration/ingest.py:16` accepts `zipf1.15` where `benchmarks/ingest.py` accepts `zipf1.08`. Some of them also return early on an empty statistics file (`benchmarks/results/lobsters/ingest.py:111`).
- Plotting code (`graphs/*.py`, `benchmarks/vote-migration/plot.py`, `benchmarks/common.py`) and `formula`/`forumla` are not part of this model.

## Findings

| source | as written | input that shows it | evidently intended | confidence | as-written member | corrected member |
|---|---|---|---|---|---|---|
| benchmarks/ingest.py:271 | `int(match.group(1))`, where group 1 `((?:_)\d+)` includes its leading underscore | a non-empty log `lobsters-direct_2-2000-512m.log`, which lobsters_noria_mem.rs writes for a run with two shards: `int("_2")` raises `ValueError` (an empty one is returned from at line 267 first) | the shard count `2`, read from the digits after the underscore | not executed | IngestNames.ShardedNameRaises | IngestNames.LobstersMemNameRoundTrip |
