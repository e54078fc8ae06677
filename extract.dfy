/**
 * The histogram extractor: decodes the interval-histogram files the
 * benchmark clients write, attributes each interval histogram to an
 * operation and a time window, builds the cross-operation "all" timeline,
 * and lists the rows of its two output modes.
 */
module ExtractHist {
  import opened Wrappers
  import opened Text
  import opened Histogram
  import opened Timelines

  /** An entry of an HdrHistogram interval log; times in nanoseconds. */
  datatype LogEntry =
    | StartTime(t: nat)
    | BaseTime(t: nat)
      /** `decoded` is the deserialized histogram, or None when base64-decoding or deserializing fails. */
    | Interval(start: nat, duration: nat, tag: Option<string>, decoded: Option<Hist>)

  /** An item of the interval-log iterator: an entry, or a line it could not parse. */
  datatype LogItem = Entry(entry: LogEntry) | Unparsable

  /** The metric a tag names; any other tag is unreachable in the source. */
  function MetricOf(tag: string): (r: Option<Metric>)
    ensures r == Some(Sojourn) <==> tag == "sojourn"
    ensures r == Some(Processing) <==> tag == "processing"
  {
    if tag == "sojourn" then Some(Sojourn)
    else if tag == "processing" then Some(Processing)
    else None
  }

  /** `histograms.next()`: the next item and what is left. */
  function Advance(unread: seq<LogItem>): (Option<LogItem>, seq<LogItem>) {
    if |unread| == 0 then (None, []) else (Some(unread[0]), unread[1..])
  }

  /** Where the decode loop for one operation leaves things, or a panic. */
  datatype ExResult = ExDone(view: map<string, Snapshot>, last: Option<LogItem>, unread: seq<LogItem>) | ExPanic

  /** The timeline of `name` in `view`, or the default one when it has none yet. */
  function SnapOf(view: map<string, Snapshot>, name: string): Snapshot {
    if name in view then view[name] else Snapshot([], 0)
  }

  /** The outcome of one turn of the decode loop: stop with a result, or go on from a new state. */
  datatype Turn =
    | Stop(result: ExResult)
    | Go(view: map<string, Snapshot>, last: Option<LogItem>, unread: seq<LogItem>, seenNonZero: bool, i: nat)

  /**
   * One turn of the decode loop for operation `name` on the item taken from
   * the lookahead slot, given whether a histogram with a non-zero start has
   * been seen and the number `i` of histograms accepted so far. A zero-start
   * histogram after a non-zero one is put back in the slot for the next
   * operation; the `i`-th accepted histogram must start where window `i / 2`
   * opens; a histogram that does not deserialize ends the operation and,
   * because the slot is already empty, every later operation too.
   */
  function ExStep(view: map<string, Snapshot>, item: LogItem, unread: seq<LogItem>,
                  name: string, seenNonZero: bool, i: nat): (t: Turn)
    ensures t.Go? ==> (t.last, t.unread) == Advance(unread) && t.i == i + 1
    ensures t.Go? ==> item.Entry? && item.entry.Interval? && item.entry.decoded.Some?
    ensures t == Stop(ExDone(view, Some(item), unread)) <==>
      item.Entry? && item.entry.Interval? && item.entry.start == 0 && seenNonZero
  {
    if item.Unparsable? || !item.entry.Interval? then Stop(ExPanic)
    else
      var e := item.entry;
      if e.start == 0 && seenNonZero then Stop(ExDone(view, Some(item), unread))
      else
        var idx := i / 2;
        var start := WindowStart(idx) * NanosPerSec;
        if e.start != start then Stop(ExPanic)
        else if e.decoded.None? then Stop(ExDone(view, None, unread))
        else if e.tag.None? || MetricOf(e.tag.value).None? then Stop(ExPanic)
        else
          var s := RecordSnap(SnapOf(view, name), idx, start + e.duration, MetricOf(e.tag.value).value, e.decoded.value);
          Go(view[name := s], Advance(unread).0, Advance(unread).1, seenNonZero || e.start != 0, i + 1)
  }

  /** The decode loop for operation `name`: turns until the lookahead slot is empty or a turn stops. */
  function ExLoop(view: map<string, Snapshot>, last: Option<LogItem>, unread: seq<LogItem>,
                  name: string, seenNonZero: bool, i: nat): ExResult
    decreases |unread|, if last.Some? then 1 else 0
  {
    match last
    case None => ExDone(view, None, unread)
    case Some(item) =>
      match ExStep(view, item, unread, name, seenNonZero, i)
      case Stop(r) => r
      case Go(v, l, u, seen, j) => ExLoop(v, l, u, name, seen, j)
  }

  /** The decoding of every operation in `names`, in order, from the same iterator. */
  function ExAll(view: map<string, Snapshot>, last: Option<LogItem>, unread: seq<LogItem>, names: seq<string>): ExResult
    decreases |names|
  {
    if |names| == 0 then ExDone(view, last, unread)
    else
      match ExLoop(view, last, unread, names[0], false, 0)
      case ExPanic => ExPanic
      case ExDone(v, l, u) => ExAll(v, l, u, names[1..])
  }

  /** What decoding one file does to the timelines: a new view, or a panic. */
  datatype FileResult = FileDone(view: map<string, Snapshot>) | FilePanic

  /**
   * One file: a base-time entry first, then the operations of `names` in
   * order, and no histogram may be left in the lookahead slot at the end.
   */
  function FileSpec(view: map<string, Snapshot>, items: seq<LogItem>, names: seq<string>): FileResult {
    if |items| == 0 || items[0].Unparsable? || !items[0].entry.BaseTime? then FilePanic
    else
      var (last, unread) := Advance(items[1..]);
      match ExAll(view, last, unread, names)
      case ExPanic => FilePanic
      case ExDone(v, l, _) => if l.None? then FileDone(v) else FilePanic
  }

  /** The operations a file holds, in the order the benchmark wrote them. */
  function OperationNames(filename: string, lobstersOperations: seq<string>): (names: seq<string>)
    ensures Contains(filename, "lobsters") ==> names == lobstersOperations
    ensures !Contains(filename, "lobsters") ==> names == ["writes", "reads"]
  {
    if Contains(filename, "lobsters") then lobstersOperations else ["writes", "reads"]
  }

  /** A file named on the command line: its name and its items, or None when it cannot be read. */
  datatype InputFile = InputFile(name: string, items: Option<seq<LogItem>>)

  /** What the loop over the files produces: the timelines, an unreadable file (the program returns), or a panic. */
  datatype Gathered = Timelines(view: map<string, Snapshot>) | Unreadable | GatherPanic

  /** How the loop over the files ended. */
  datatype GatherStatus = Read | CannotRead | Panicked

  /** The loop over the command-line files, in order. */
  function GatherSpec(view: map<string, Snapshot>, files: seq<InputFile>, lobstersOperations: seq<string>): Gathered
    decreases |files|
  {
    if |files| == 0 then Timelines(view)
    else if files[0].items.None? then Unreadable
    else
      match FileSpec(view, files[0].items.value, OperationNames(files[0].name, lobstersOperations))
      case FilePanic => GatherPanic
      case FileDone(v) => GatherSpec(v, files[1..], lobstersOperations)
  }

  /** `order` lists every key of the map exactly once: a possible iteration order of the `HashMap`. */
  predicate IsListing(order: seq<string>, keys: set<string>) {
    && (forall k :: 0 <= k < |order| ==> order[k] in keys)
    && (forall n :: n in keys ==> n in order)
    && (forall j, k :: 0 <= j < k < |order| ==> order[j] != order[k])
  }

  /** A listing is empty exactly when the set is. */
  lemma ListingSize(order: seq<string>, keys: set<string>)
    requires IsListing(order, keys)
    ensures |order| == 0 <==> keys == {}
  {
    if keys != {} {
      var n :| n in keys;
      assert n in order;
    }
    if |order| > 0 {
      assert order[0] in keys;
    }
  }

  /** The timelines of `view` in the order `order` visits them. */
  function InOrder(view: map<string, Snapshot>, order: seq<string>): (r: seq<Snapshot>)
    requires forall k :: 0 <= k < |order| ==> order[k] in view
    ensures |r| == |order| && forall k :: 0 <= k < |order| ==> r[k] == view[order[k]]
  {
    seq(|order|, k requires 0 <= k < |order| => view[order[k]])
  }

  /** Windows of the timelines folded together with `Timeline::merge`, first to last. */
  function MergedAll(snaps: seq<Snapshot>): seq<Histograms>
    decreases |snaps|
  {
    if |snaps| == 0 then []
    else if |snaps| == 1 then snaps[0].histograms
    else MergedWindows(MergedAll(snaps[..|snaps| - 1]), snaps[|snaps| - 1].histograms)
  }

  /**
   * The "all" timeline: a clone of the first timeline the map yields, with
   * every other one merged in. `merge` leaves `last_end` alone, so the
   * result keeps the first timeline's.
   */
  function AllOf(snaps: seq<Snapshot>): (r: Snapshot)
    requires |snaps| > 0
    ensures r.lastEnd == snaps[0].lastEnd
  {
    Snapshot(MergedAll(snaps), snaps[0].lastEnd)
  }

  /** Every count of every window of "all" is the sum over all timelines. */
  lemma {:induction false} AllCounts(snaps: seq<Snapshot>, k: nat, m: Metric, v: nat)
    ensures Count(Pick(WindowOr(MergedAll(snaps), k), m), v) == SumOver(snaps, k, m, v)
    decreases |snaps|
  {
    if |snaps| == 1 {
      assert snaps[..0] == [];
    } else if |snaps| > 1 {
      AllCounts(snaps[..|snaps| - 1], k, m, v);
      MergedCounts(MergedAll(snaps[..|snaps| - 1]), snaps[|snaps| - 1].histograms, k, m, v);
    }
  }

  /** The number of samples of value `v` in metric `m` of window `k`, over all timelines. */
  function SumOver(snaps: seq<Snapshot>, k: nat, m: Metric, v: nat): nat
    decreases |snaps|
  {
    if |snaps| == 0 then 0
    else SumOver(snaps[..|snaps| - 1], k, m, v) + Count(Pick(WindowOr(snaps[|snaps| - 1].histograms, k), m), v)
  }

  /** The "all" timeline has as many windows as the longest timeline. */
  lemma {:induction false} AllLength(snaps: seq<Snapshot>)
    ensures forall j :: 0 <= j < |snaps| ==> |snaps[j].histograms| <= |MergedAll(snaps)|
    ensures |snaps| > 0 ==> exists j :: 0 <= j < |snaps| && |MergedAll(snaps)| == |snaps[j].histograms|
    decreases |snaps|
  {
    if |snaps| == 1 {
      assert |MergedAll(snaps)| == |snaps[0].histograms|;
    } else if |snaps| > 1 {
      var p := snaps[..|snaps| - 1];
      AllLength(p);
      assert forall j :: 0 <= j < |p| ==> p[j] == snaps[j];
      var j :| 0 <= j < |p| && |MergedAll(p)| == |p[j].histograms|;
      if |MergedAll(p)| < |snaps[|snaps| - 1].histograms| {
        assert |MergedAll(snaps)| == |snaps[|snaps| - 1].histograms|;
      } else {
        assert |MergedAll(snaps)| == |snaps[j].histograms|;
      }
    }
  }

  // ---------------------------------------------------------------- output

  function Smaller(a: nat, b: nat): nat {
    if a < b then a else b
  }

  /** `end.as_secs()` for window `i`: the window's end, clipped to the latest interval end. */
  function WindowUntil(s: Snapshot, i: nat): (u: nat)
    ensures u <= Pow2(i)
    ensures s.lastEnd >= Pow2(i) * NanosPerSec ==> u == Pow2(i)
    ensures s.lastEnd < Pow2(i) * NanosPerSec ==> u == s.lastEnd / NanosPerSec
  {
    Smaller(s.lastEnd, Pow2(i) * NanosPerSec) / NanosPerSec
  }

  /** One line of timeline output; the statistics printed from `h` are not modelled. */
  datatype TimelineRow = TimelineRow(op: string, until: nat, metric: Metric, h: Hist)

  /** The rows of window `i`: processing, then sojourn, each only if it is not empty. */
  function WindowRows(op: string, s: Snapshot, i: nat): seq<TimelineRow>
    requires i < |s.histograms|
  {
    var p := Pick(s.histograms[i], Processing);
    var j := Pick(s.histograms[i], Sojourn);
    (if Max(p) == 0 then [] else [TimelineRow(op, WindowUntil(s, i), Processing, p)])
    + (if Max(j) == 0 then [] else [TimelineRow(op, WindowUntil(s, i), Sojourn, j)])
  }

  /** The rows of the first `n` windows of one timeline. */
  function TimelineRows(op: string, s: Snapshot, n: nat): seq<TimelineRow>
    requires n <= |s.histograms|
  {
    if n == 0 then [] else TimelineRows(op, s, n - 1) + WindowRows(op, s, n - 1)
  }

  /** Window `i` prints a row for metric `m` exactly when that histogram is not empty. */
  lemma WindowRowsExact(op: string, s: Snapshot, i: nat)
    requires i < |s.histograms|
    ensures forall r :: r in WindowRows(op, s, i) ==>
      r.op == op && Max(r.h) != 0 && r.h == Pick(s.histograms[i], r.metric) && r.until == WindowUntil(s, i)
    ensures forall m :: Max(Pick(s.histograms[i], m)) != 0 ==>
      TimelineRow(op, WindowUntil(s, i), m, Pick(s.histograms[i], m)) in WindowRows(op, s, i)
  {
    forall m | Max(Pick(s.histograms[i], m)) != 0
      ensures TimelineRow(op, WindowUntil(s, i), m, Pick(s.histograms[i], m)) in WindowRows(op, s, i)
    {
      assert m == Processing || m == Sojourn;
    }
  }

  /** Every row of a timeline's output is a non-empty histogram of one of its windows, with that window's time. */
  lemma {:induction false} TimelineRowsSound(op: string, s: Snapshot, n: nat, r: TimelineRow)
    requires n <= |s.histograms| && r in TimelineRows(op, s, n)
    ensures r.op == op && Max(r.h) != 0
    ensures exists i :: 0 <= i < n && r.h == Pick(s.histograms[i], r.metric) && r.until == WindowUntil(s, i)
  {
    if r in TimelineRows(op, s, n - 1) {
      TimelineRowsSound(op, s, n - 1, r);
    } else {
      WindowRowsExact(op, s, n - 1);
      assert r.h == Pick(s.histograms[n - 1], r.metric) && r.until == WindowUntil(s, n - 1);
    }
  }

  /** Every non-empty histogram of every window appears in the timeline's output. */
  lemma {:induction false} TimelineRowsComplete(op: string, s: Snapshot, n: nat, i: nat, m: Metric)
    requires i < n <= |s.histograms| && Max(Pick(s.histograms[i], m)) != 0
    ensures TimelineRow(op, WindowUntil(s, i), m, Pick(s.histograms[i], m)) in TimelineRows(op, s, n)
  {
    if i == n - 1 {
      WindowRowsExact(op, s, i);
    } else {
      TimelineRowsComplete(op, s, n - 1, i, m);
    }
  }

  /** The timeline output: every timeline's rows, in the order the map yields them. */
  function TimelineOutput(view: map<string, Snapshot>, order: seq<string>): seq<TimelineRow>
    requires forall k :: 0 <= k < |order| ==> order[k] in view
  {
    if |order| == 0 then []
    else
      var op := order[|order| - 1];
      TimelineOutput(view, order[..|order| - 1]) + TimelineRows(op, view[op], |view[op].histograms|)
  }

  /** One group of collapsed output: a whole-run histogram; its printed quantiles are not modelled. */
  datatype CollapsedRow = CollapsedRow(op: string, metric: Metric, h: Hist)

  /** The collapsed rows of one timeline: processing, then sojourn, each only if it is not empty. */
  function CollapsedRows(op: string, s: Snapshot): seq<CollapsedRow> {
    var c := Collapsed(s.histograms);
    (if Max(c.processing) == 0 then [] else [CollapsedRow(op, Processing, c.processing)])
    + (if Max(c.sojourn) == 0 then [] else [CollapsedRow(op, Sojourn, c.sojourn)])
  }

  /**
   * The two output modes agree on what they leave out: an operation's metric
   * appears in the collapsed output exactly when some window of it appears in
   * the timeline output.
   */
  lemma CollapsedAgreesWithTimeline(op: string, s: Snapshot, m: Metric)
    ensures (exists r :: r in CollapsedRows(op, s) && r.metric == m)
        <==> (exists r :: r in TimelineRows(op, s, |s.histograms|) && r.metric == m)
  {
    var c := Collapsed(s.histograms);
    CollapsedEmptyIff(s.histograms, m);
    if exists r :: r in TimelineRows(op, s, |s.histograms|) && r.metric == m {
      var r :| r in TimelineRows(op, s, |s.histograms|) && r.metric == m;
      TimelineRowsSound(op, s, |s.histograms|, r);
      assert Max(Pick(c, m)) != 0;
      assert CollapsedRow(op, m, Pick(c, m)) in CollapsedRows(op, s);
    }
    if exists r :: r in CollapsedRows(op, s) && r.metric == m {
      assert Max(Pick(c, m)) != 0;
      var i :| 0 <= i < |s.histograms| && Max(Pick(s.histograms[i], m)) != 0;
      TimelineRowsComplete(op, s, |s.histograms|, i, m);
      assert TimelineRow(op, WindowUntil(s, i), m, Pick(s.histograms[i], m)) in TimelineRows(op, s, |s.histograms|);
    }
  }

  /** The collapsed output: every timeline's rows, in the order the map yields them. */
  function CollapsedOutput(view: map<string, Snapshot>, order: seq<string>): seq<CollapsedRow>
    requires forall k :: 0 <= k < |order| ==> order[k] in view
  {
    if |order| == 0 then []
    else
      var op := order[|order| - 1];
      CollapsedOutput(view, order[..|order| - 1]) + CollapsedRows(op, view[op])
  }

  // ---------------------------------------------------------------- properties of the decoder

  /** The lookahead slot and the unread rest once `j` items of `items` have been taken. */
  function SlotAt(items: seq<LogItem>, j: nat): Option<LogItem> {
    if j < |items| then Some(items[j]) else None
  }

  function RestAt(items: seq<LogItem>, j: nat): seq<LogItem> {
    if j < |items| then items[j + 1..] else []
  }

  lemma AdvanceAt(items: seq<LogItem>, j: nat)
    requires j < |items|
    ensures Advance(RestAt(items, j)) == (SlotAt(items, j + 1), RestAt(items, j + 1))
  {
  }

  /** Only `name`'s timeline changes, and it never loses windows or moves its end earlier. */
  lemma {:induction false} ExLoopFrame(view: map<string, Snapshot>, last: Option<LogItem>, unread: seq<LogItem>,
                                       name: string, seen: bool, i: nat)
    requires ExLoop(view, last, unread, name, seen, i).ExDone?
    ensures var v := ExLoop(view, last, unread, name, seen, i).view;
      && (forall n :: n != name ==> (n in v <==> n in view) && (n in view ==> v[n] == view[n]))
      && |SnapOf(v, name).histograms| >= |SnapOf(view, name).histograms|
      && SnapOf(v, name).lastEnd >= SnapOf(view, name).lastEnd
    decreases |unread|, if last.Some? then 1 else 0
  {
    if last.Some? {
      var t := ExStep(view, last.value, unread, name, seen, i);
      if t.Go? {
        ExLoopFrame(t.view, t.last, t.unread, name, t.seenNonZero, t.i);
      }
    }
  }

  /** A histogram left in the lookahead slot is a zero-start interval: the first of the next operation. */
  lemma {:induction false} ExLoopLeavesZeroStart(view: map<string, Snapshot>, last: Option<LogItem>, unread: seq<LogItem>,
                                                 name: string, seen: bool, i: nat)
    requires ExLoop(view, last, unread, name, seen, i).ExDone?
    ensures var r := ExLoop(view, last, unread, name, seen, i);
      r.last.Some? ==> r.last.value.Entry? && r.last.value.entry.Interval? && r.last.value.entry.start == 0
    decreases |unread|, if last.Some? then 1 else 0
  {
    if last.Some? {
      var t := ExStep(view, last.value, unread, name, seen, i);
      if t.Go? {
        ExLoopLeavesZeroStart(t.view, t.last, t.unread, name, t.seenNonZero, t.i);
      }
    }
  }

  /**
   * A histogram that fails to deserialize ends its operation with the slot
   * already empty, so every later operation of the file decodes nothing and
   * the trailing-histogram check passes: the rest of the file is dropped.
   */
  lemma {:induction false} EmptySlotDecodesNothing(view: map<string, Snapshot>, unread: seq<LogItem>, names: seq<string>)
    ensures ExAll(view, None, unread, names) == ExDone(view, None, unread)
    decreases |names|
  {
    if |names| > 0 {
      EmptySlotDecodesNothing(view, unread, names[1..]);
    }
  }

  /** What a benchmark client writes for one window of one operation: its duration and its histograms. */
  datatype WrittenWindow = WrittenWindow(duration: nat, h: Histograms)

  /** The metric of item `j` of an operation's log: processing first, then sojourn. */
  function WrittenMetric(j: nat): Metric {
    if j % 2 == 0 then Processing else Sojourn
  }

  function IntervalEnd(ws: seq<WrittenWindow>, k: nat): nat
    requires k < |ws|
  {
    WindowStart(k) * NanosPerSec + ws[k].duration
  }

  /** Item `j` of an operation's log: metric `WrittenMetric(j)` of window `j / 2`. */
  function WrittenItem(ws: seq<WrittenWindow>, j: nat): LogItem
    requires j < 2 * |ws|
  {
    var w := ws[j / 2];
    var m := WrittenMetric(j);
    Entry(Interval(WindowStart(j / 2) * NanosPerSec, w.duration,
                   Some(if m == Processing then "processing" else "sojourn"),
                   Some(Pick(w.h, m))))
  }

  /** The interval histograms a client writes for one operation, in order. */
  function Written(ws: seq<WrittenWindow>): (r: seq<LogItem>)
    ensures |r| == 2 * |ws| && forall j :: 0 <= j < 2 * |ws| ==> r[j] == WrittenItem(ws, j)
  {
    seq(2 * |ws|, j requires 0 <= j < 2 * |ws| => WrittenItem(ws, j))
  }

  /** The end of the latest interval among the first `k` windows. */
  function WrittenEnd(ws: seq<WrittenWindow>, k: nat): nat
    requires k <= |ws|
  {
    if k == 0 then 0 else Larger(WrittenEnd(ws, k - 1), IntervalEnd(ws, k - 1))
  }

  /** The histograms of the first `k` written windows, in order. */
  function WindowsOf(ws: seq<WrittenWindow>, k: nat): (r: seq<Histograms>)
    requires k <= |ws|
    ensures |r| == k && forall i :: 0 <= i < k ==> r[i] == ws[i].h
  {
    if k == 0 then [] else WindowsOf(ws, k - 1) + [ws[k - 1].h]
  }

  /** The timeline a freshly decoded operation should get: its windows exactly, ending at its latest interval. */
  function WrittenSnapshot(ws: seq<WrittenWindow>): Snapshot {
    Snapshot(WindowsOf(ws, |ws|), WrittenEnd(ws, |ws|))
  }

  /** The timeline after both histograms of the first `k` windows were recorded on top of `s`. */
  function RecordedWindows(s: Snapshot, ws: seq<WrittenWindow>, k: nat): Snapshot
    requires k <= |ws|
  {
    if k == 0 then s
    else
      var w := ws[k - 1];
      RecordSnap(RecordSnap(RecordedWindows(s, ws, k - 1), k - 1, IntervalEnd(ws, k - 1), Processing, w.h.processing),
                 k - 1, IntervalEnd(ws, k - 1), Sojourn, w.h.sojourn)
  }

  /** The timeline after its first `j` written histograms were recorded on top of `s`. */
  function Recorded(s: Snapshot, ws: seq<WrittenWindow>, j: nat): Snapshot
    requires j <= 2 * |ws|
  {
    if j % 2 == 0 then RecordedWindows(s, ws, j / 2)
    else RecordSnap(RecordedWindows(s, ws, j / 2), j / 2, IntervalEnd(ws, j / 2), Processing, ws[j / 2].h.processing)
  }

  /** Recording one more written histogram. */
  lemma RecordedNext(s: Snapshot, ws: seq<WrittenWindow>, j: nat)
    requires j < 2 * |ws|
    ensures Recorded(s, ws, j + 1)
         == RecordSnap(Recorded(s, ws, j), j / 2, IntervalEnd(ws, j / 2), WrittenMetric(j), Pick(ws[j / 2].h, WrittenMetric(j)))
  {
    if j % 2 == 1 {
      assert (j + 1) / 2 == j / 2 + 1 && (j + 1) % 2 == 0;
    } else {
      assert (j + 1) / 2 == j / 2 && (j + 1) % 2 == 1;
    }
  }

  /** The view once the first `j` written histograms of `name` were accepted. */
  function ViewAfter(view: map<string, Snapshot>, name: string, ws: seq<WrittenWindow>, j: nat): map<string, Snapshot>
    requires j <= 2 * |ws|
  {
    if j == 0 then view else view[name := Recorded(SnapOf(view, name), ws, j)]
  }

  /** What may follow an operation's histograms: nothing, or the next operation's first histogram. */
  predicate NextOperation(next: seq<LogItem>) {
    |next| == 0 || (next[0].Entry? && next[0].entry.Interval? && next[0].entry.start == 0)
  }

  /** Written item `j` is an interval of its window with a decodable histogram of a known metric. */
  lemma WrittenItemShape(ws: seq<WrittenWindow>, j: nat)
    requires j < 2 * |ws|
    ensures var it := WrittenItem(ws, j);
      && it.Entry? && it.entry.Interval? && it.entry.decoded == Some(Pick(ws[j / 2].h, WrittenMetric(j)))
      && it.entry.tag.Some? && MetricOf(it.entry.tag.value) == Some(WrittenMetric(j))
      && it.entry.start == WindowStart(j / 2) * NanosPerSec
      && it.entry.start + it.entry.duration == IntervalEnd(ws, j / 2)
      && (it.entry.start == 0 <==> j < 2)
  {
    if j >= 2 {
      WindowStartsIncrease(0, j / 2);
    }
  }

  /** Turn `j` over a written operation accepts item `j` with the seen flag it should have. */
  lemma WrittenTurn(v: map<string, Snapshot>, name: string, ws: seq<WrittenWindow>, next: seq<LogItem>, j: nat)
    requires j < 2 * |ws|
    ensures var items := Written(ws) + next;
      ExStep(v, items[j], RestAt(items, j), name, j > 2, j)
      == Go(v[name := RecordSnap(SnapOf(v, name), j / 2, IntervalEnd(ws, j / 2), WrittenMetric(j), Pick(ws[j / 2].h, WrittenMetric(j)))],
            SlotAt(items, j + 1), RestAt(items, j + 1), j + 1 > 2, j + 1)
  {
    var items := Written(ws) + next;
    assert items[j] == WrittenItem(ws, j);
    WrittenItemShape(ws, j);
    AdvanceAt(items, j);
  }

  lemma ViewAfterSnap(view: map<string, Snapshot>, name: string, ws: seq<WrittenWindow>, j: nat)
    requires j < 2 * |ws|
    ensures SnapOf(ViewAfter(view, name, ws, j), name) == Recorded(SnapOf(view, name), ws, j)
  {
  }

  lemma ViewAfterNext(view: map<string, Snapshot>, name: string, ws: seq<WrittenWindow>, j: nat)
    requires j < 2 * |ws|
    ensures ViewAfter(view, name, ws, j)[name := RecordSnap(Recorded(SnapOf(view, name), ws, j), j / 2, IntervalEnd(ws, j / 2),
                                                            WrittenMetric(j), Pick(ws[j / 2].h, WrittenMetric(j)))]
         == ViewAfter(view, name, ws, j + 1)
  {
    RecordedNext(SnapOf(view, name), ws, j);
  }

  /** One turn over a written operation moves the decode loop from item `j` to item `j + 1`. */
  lemma DecodeWrittenTurn(view: map<string, Snapshot>, name: string, ws: seq<WrittenWindow>, next: seq<LogItem>, j: nat)
    requires j < 2 * |ws|
    ensures var items := Written(ws) + next;
      ExLoop(ViewAfter(view, name, ws, j), SlotAt(items, j), RestAt(items, j), name, j > 2, j)
      == ExLoop(ViewAfter(view, name, ws, j + 1), SlotAt(items, j + 1), RestAt(items, j + 1), name, j + 1 > 2, j + 1)
  {
    ViewAfterSnap(view, name, ws, j);
    ViewAfterNext(view, name, ws, j);
    WrittenTurn(ViewAfter(view, name, ws, j), name, ws, next, j);
  }

  lemma {:induction false} DecodeWrittenFrom(view: map<string, Snapshot>, name: string, ws: seq<WrittenWindow>,
                                             next: seq<LogItem>, j: nat)
    requires NextOperation(next) && (|ws| >= 2 || |next| == 0)
    requires j <= 2 * |ws|
    ensures var items := Written(ws) + next;
      ExLoop(ViewAfter(view, name, ws, j), SlotAt(items, j), RestAt(items, j), name, j > 2, j)
      == ExDone(ViewAfter(view, name, ws, 2 * |ws|), SlotAt(next, 0), RestAt(next, 0))
    decreases 2 * |ws| - j
  {
    var items := Written(ws) + next;
    if j < 2 * |ws| {
      DecodeWrittenTurn(view, name, ws, next, j);
      DecodeWrittenFrom(view, name, ws, next, j + 1);
    } else {
      assert SlotAt(items, j) == SlotAt(next, 0);
      assert RestAt(items, j) == RestAt(next, 0);
    }
  }

  /** Recording a window's processing and then its sojourn histogram past the last window appends that window. */
  lemma RecordPairAppends(s: Snapshot, k: nat, end: nat, h: Histograms)
    requires |s.histograms| == k
    ensures RecordSnap(RecordSnap(s, k, end, Processing, h.processing), k, end, Sojourn, h.sojourn)
         == Snapshot(s.histograms + [h], Larger(s.lastEnd, end))
  {
    var s1 := RecordSnap(s, k, end, Processing, h.processing);
    var s2 := RecordSnap(s1, k, end, Sojourn, h.sojourn);
    AddEmpty(h.processing);
    AddCommutes(h.processing, Empty());
    AddEmpty(h.sojourn);
    AddCommutes(h.sojourn, Empty());
    assert s2.histograms[k] == h;
    assert s2.histograms == s.histograms + [h];
  }

  /** Once the windows before `k - 1` are in place, recording window `k - 1` appends it. */
  lemma RecordedWindowsAppend(s: Snapshot, ws: seq<WrittenWindow>, k: nat)
    requires 0 < k <= |ws| && |RecordedWindows(s, ws, k - 1).histograms| == k - 1
    ensures var p := RecordedWindows(s, ws, k - 1);
      RecordedWindows(s, ws, k) == Snapshot(p.histograms + [ws[k - 1].h], Larger(p.lastEnd, IntervalEnd(ws, k - 1)))
  {
    RecordPairAppends(RecordedWindows(s, ws, k - 1), k - 1, IntervalEnd(ws, k - 1), ws[k - 1].h);
  }

  /** Recording an operation's windows in order onto an empty timeline reproduces them exactly. */
  lemma {:induction false} RecordedFresh(ws: seq<WrittenWindow>, k: nat)
    requires k <= |ws|
    ensures RecordedWindows(Snapshot([], 0), ws, k) == Snapshot(WindowsOf(ws, k), WrittenEnd(ws, k))
  {
    if k > 0 {
      RecordedFresh(ws, k - 1);
      RecordedWindowsAppend(Snapshot([], 0), ws, k);
    }
  }

  /** All of a written operation recorded onto an empty timeline is its written snapshot. */
  lemma FreshRecordedAll(ws: seq<WrittenWindow>)
    ensures Recorded(Snapshot([], 0), ws, 2 * |ws|) == WrittenSnapshot(ws)
  {
    RecordedFresh(ws, |ws|);
    assert (2 * |ws|) % 2 == 0 && (2 * |ws|) / 2 == |ws|;
  }

  /**
   * Decoding round trip: the histograms a client writes for an operation that
   * has no timeline yet decode to exactly its windows and end, and leave the
   * next operation's first histogram in the slot, provided the operation has
   * at least two windows or is the last in the file.
   */
  lemma DecodeWritten(view: map<string, Snapshot>, name: string, ws: seq<WrittenWindow>, next: seq<LogItem>)
    requires name !in view
    requires NextOperation(next) && (|ws| >= 2 || |next| == 0)
    ensures var items := Written(ws) + next;
      ExLoop(view, SlotAt(items, 0), RestAt(items, 0), name, false, 0)
      == ExDone(if |ws| == 0 then view else view[name := WrittenSnapshot(ws)], SlotAt(next, 0), RestAt(next, 0))
  {
    DecodeWrittenFrom(view, name, ws, next, 0);
    FreshRecordedAll(ws);
  }

  /**
   * An operation that wrote only window 0 and is followed by another
   * operation makes the extractor panic: the next operation's zero-start
   * histogram is taken as window 1 of this one and fails the start check.
   */
  lemma SingleWindowThenNextPanics(view: map<string, Snapshot>, name: string, w: WrittenWindow, next: seq<LogItem>)
    requires |next| > 0 && NextOperation(next)
    ensures var items := Written([w]) + next;
      ExLoop(view, SlotAt(items, 0), RestAt(items, 0), name, false, 0) == ExPanic
  {
    var items := Written([w]) + next;
    var v2 := ViewAfter(view, name, [w], 2);
    DecodeWrittenTurn(view, name, [w], next, 0);
    DecodeWrittenTurn(view, name, [w], next, 1);
    assert SlotAt(items, 2) == Some(next[0]);
    WindowsTile(1);
    assert ExStep(v2, next[0], RestAt(items, 2), name, false, 2) == Stop(ExPanic);
  }

  /** The extractor's timelines by operation; each file's iterator lives in the caller, as in the source. */
  class Extractor {
    var timelines: map<string, Timeline>
    /** The value of every timeline, by operation. */
    ghost var view: map<string, Snapshot>
    ghost var Repr: set<object>

    ghost predicate Valid()
      reads this, Repr
    {
      && view.Keys == timelines.Keys
      && (forall n :: n in timelines ==> timelines[n] in Repr && timelines[n].Snap() == view[n])
      && (forall n, n' :: n in timelines && n' in timelines && n != n' ==> timelines[n] != timelines[n'])
    }

    constructor ()
      ensures Valid() && view == map[] && fresh(Repr)
    {
      timelines := map[];
      view := map[];
      Repr := {};
    }

    /** The loop over the command-line files. */
    method Gather(files: seq<InputFile>, lobstersOperations: seq<string>) returns (status: GatherStatus)
      requires Valid()
      modifies this, Repr
      ensures Valid() && old(Repr) <= Repr && fresh(Repr - old(Repr))
      ensures status == GatherStatus.Read ==> GatherSpec(old(view), files, lobstersOperations) == Timelines(view)
      ensures status == GatherStatus.CannotRead ==> GatherSpec(old(view), files, lobstersOperations) == Unreadable
      ensures status == GatherStatus.Panicked ==> GatherSpec(old(view), files, lobstersOperations) == GatherPanic
    {
      var f := 0;
      while f < |files|
        invariant f <= |files|
        invariant Valid() && old(Repr) <= Repr && fresh(Repr - old(Repr))
        invariant GatherSpec(view, files[f..], lobstersOperations) == GatherSpec(old(view), files, lobstersOperations)
      {
        assert files[f..][0] == files[f] && files[f..][1..] == files[f + 1..];
        if files[f].items.None? {
          return CannotRead;
        }
        var names := OperationNames(files[f].name, lobstersOperations);
        var panicked := ExtractFile(files[f].items.value, names);
        if panicked {
          return Panicked;
        }
        f := f + 1;
      }
      return Read;
    }

    /** One file: the base-time entry, every operation in order, then the trailing-histogram check. */
    method ExtractFile(items: seq<LogItem>, names: seq<string>) returns (panicked: bool)
      requires Valid()
      modifies this, Repr
      ensures Valid() && old(Repr) <= Repr && fresh(Repr - old(Repr))
      ensures panicked <==> FileSpec(old(view), items, names) == FilePanic
      ensures !panicked ==> FileSpec(old(view), items, names) == FileDone(view)
    {
      if |items| == 0 || items[0].Unparsable? || !items[0].entry.BaseTime? {
        return true;
      }
      var last, unread := Advance(items[1..]).0, Advance(items[1..]).1;
      var k := 0;
      while k < |names|
        invariant k <= |names|
        invariant Valid() && old(Repr) <= Repr && fresh(Repr - old(Repr))
        invariant ExAll(view, last, unread, names[k..]) == ExAll(old(view), Advance(items[1..]).0, Advance(items[1..]).1, names)
      {
        assert names[k..][0] == names[k] && names[k..][1..] == names[k + 1..];
        var p;
        p, last, unread := Ex(names[k], last, unread);
        if p {
          return true;
        }
        k := k + 1;
      }
      assert names[k..] == [];
      return last.Some?;
    }

    /** Construct the "all" entry from the timelines in the order the map yields them. */
    method BuildAll(order: seq<string>) returns (panicked: bool)
      requires Valid() && IsListing(order, view.Keys)
      modifies this
      ensures Valid() && old(Repr) <= Repr && fresh(Repr - old(Repr))
      ensures panicked <==> |old(view)| == 0
      ensures !panicked ==> |order| > 0 && view == old(view)["all" := AllOf(InOrder(old(view), order))]
    {
      ListingSize(order, view.Keys);
      if |order| == 0 {
        return true;
      }
      assert order[0] in view.Keys;
      var all := FoldAll(order);
      Insert("all", all);
      return false;
    }

    /** `timelines.insert(name, tl)` for a timeline not yet held, replacing any timeline of that name. */
    method Insert(name: string, tl: Timeline)
      requires Valid() && tl !in Repr
      modifies this
      ensures Valid() && Repr == old(Repr) + {tl}
      ensures view == old(view)[name := tl.Snap()]
    {
      timelines := timelines[name := tl];
      view := view[name := tl.Snap()];
      Repr := Repr + {tl};
    }

    /** The `values.fold` that merges every timeline into a clone of the first. */
    method FoldAll(order: seq<string>) returns (all: Timeline)
      requires Valid() && |order| > 0 && forall k :: 0 <= k < |order| ==> order[k] in view
      ensures fresh(all) && all.Snap() == AllOf(InOrder(view, order))
    {
      all := new Timeline.Clone(timelines[order[0]]);
      var k := 1;
      while k < |order|
        invariant 1 <= k <= |order|
        invariant fresh(all)
        invariant all.Snap() == AllOf(InOrder(view, order[..k]))
      {
        assert InOrder(view, order[..k + 1])[..k] == InOrder(view, order[..k]);
        all.Merge(timelines[order[k]]);
        k := k + 1;
      }
      assert order[..k] == order;
    }

    /**
     * The `ex!` macro for operation `name`, from the lookahead slot `last` and
     * the unread items; returns where it leaves both.
     */
    method Ex(name: string, last: Option<LogItem>, unread: seq<LogItem>)
      returns (panicked: bool, last': Option<LogItem>, unread': seq<LogItem>)
      requires Valid()
      modifies this, Repr
      ensures Valid() && old(Repr) <= Repr && fresh(Repr - old(Repr))
      ensures panicked <==> ExLoop(old(view), last, unread, name, false, 0) == ExPanic
      ensures !panicked ==> ExLoop(old(view), last, unread, name, false, 0) == ExDone(view, last', unread')
    {
      last', unread' := last, unread;
      var seenNonZero := false;
      var i := 0;
      while last'.Some?
        invariant Valid() && old(Repr) <= Repr && fresh(Repr - old(Repr))
        invariant ExLoop(view, last', unread', name, seenNonZero, i) == ExLoop(old(view), last, unread, name, false, 0)
        decreases |unread'|, if last'.Some? then 1 else 0
      {
        var stop;
        stop, panicked, last', unread', seenNonZero := Turn(name, last'.value, unread', seenNonZero, i);
        if stop {
          return;
        }
        i := i + 1;
      }
      return false, last', unread';
    }

    /** One turn of the `ex!` loop on the item just taken from the lookahead slot. */
    method Turn(name: string, item: LogItem, unread: seq<LogItem>, seenNonZero: bool, i: nat)
      returns (stop: bool, panicked: bool, last': Option<LogItem>, unread': seq<LogItem>, seen': bool)
      requires Valid()
      modifies this, Repr
      ensures Valid() && old(Repr) <= Repr && fresh(Repr - old(Repr))
      ensures stop && panicked ==> ExLoop(old(view), Some(item), unread, name, seenNonZero, i) == ExPanic
      ensures stop && !panicked ==> ExLoop(old(view), Some(item), unread, name, seenNonZero, i) == ExDone(view, last', unread')
      ensures !stop ==> ExLoop(old(view), Some(item), unread, name, seenNonZero, i) == ExLoop(view, last', unread', name, seen', i + 1)
      ensures !stop ==> (last', unread') == Advance(unread)
    {
      last', unread', seen' := None, unread, seenNonZero;
      if item.Unparsable? || !item.entry.Interval? {
        return true, true, last', unread', seen';
      }
      var e := item.entry;
      if e.start == 0 {
        if seenNonZero {
          last' := Some(item);
          return true, false, last', unread', seen';
        }
      } else {
        seen' := true;
      }
      var idx := i / 2;
      var start := WindowStart(idx) * NanosPerSec;
      if e.start != start {
        return true, true, last', unread', seen';
      }
      if e.decoded.None? {
        return true, false, last', unread', seen';
      }
      if e.tag.None? || MetricOf(e.tag.value).None? {
        return true, true, last', unread', seen';
      }
      last', unread' := Admit(name, item, unread, seenNonZero, i);
      return false, false, last', unread', seen';
    }

    /** The accepting branch of a turn: record the histogram, then take the next item into the slot. */
    method Admit(name: string, item: LogItem, unread: seq<LogItem>, seenNonZero: bool, i: nat)
      returns (last': Option<LogItem>, unread': seq<LogItem>)
      requires Valid()
      requires item.Entry? && item.entry.Interval? && !(item.entry.start == 0 && seenNonZero)
      requires item.entry.start == WindowStart(i / 2) * NanosPerSec
      requires item.entry.decoded.Some? && item.entry.tag.Some? && MetricOf(item.entry.tag.value).Some?
      modifies this, Repr
      ensures Valid() && old(Repr) <= Repr && fresh(Repr - old(Repr))
      ensures ExStep(old(view), item, unread, name, seenNonZero, i)
           == Go(view, last', unread', seenNonZero || item.entry.start != 0, i + 1)
      ensures (last', unread') == Advance(unread)
    {
      var e := item.entry;
      Accept(name, i / 2, e.start + e.duration, MetricOf(e.tag.value).value, e.decoded.value);
      last', unread' := Advance(unread).0, Advance(unread).1;
    }

    /** `timelines.entry(name).or_default()`, then record one histogram into it. */
    method Accept(name: string, idx: nat, end: nat, m: Metric, h: Hist)
      requires Valid()
      modifies this, Repr
      ensures Valid() && old(Repr) <= Repr && fresh(Repr - old(Repr))
      ensures view == old(view)[name := RecordSnap(SnapOf(old(view), name), idx, end, m, h)]
    {
      var tl := EntryOrDefault(name);
      RecordInto(name, tl, idx, end, m, h);
    }

    /** `Timeline::record` on the timeline of `name`, keeping the view in step. */
    method RecordInto(name: string, tl: Timeline, idx: nat, end: nat, m: Metric, h: Hist)
      requires Valid() && name in timelines && tl == timelines[name]
      modifies this, tl
      ensures Valid() && Repr == old(Repr)
      ensures view == old(view)[name := RecordSnap(old(view)[name], idx, end, m, h)]
    {
      assert forall n :: n in timelines && n != name ==> timelines[n] != tl;
      tl.Record(idx, end, m, h);
      view := view[name := tl.Snap()];
    }

    /** `timelines.entry(name).or_default()`: the timeline of `name`, created empty when there is none. */
    method EntryOrDefault(name: string) returns (tl: Timeline)
      requires Valid()
      modifies this
      ensures Valid() && old(Repr) <= Repr && fresh(Repr - old(Repr))
      ensures name in timelines && tl == timelines[name] && tl in Repr
      ensures view == old(view)[name := SnapOf(old(view), name)]
    {
      if name in timelines {
        tl := timelines[name];
      } else {
        tl := new Timeline();
        timelines := timelines[name := tl];
        view := view[name := tl.Snap()];
        Repr := Repr + {tl};
      }
    }
  }
}
