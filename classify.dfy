/**
 * The stdout line classifiers of the benchmark runs. The vote client prints one
 * latency line per operation and percentile (`<op> <pct> <sojourn>`) and `#`-comment
 * lines with throughput; the lobsters client prints lines such as
 * `Submit sojourn 95 4484`. The classifiers decide which lines count as parsed output
 * and which signal overload; a few malformed lines make the run panic.
 *
 * Floating-point throughput fields are not parsed here: which field texts fail to parse as
 * an `f64` and which values are judged too low are parameters (`Rates`, `Throughput`).
 */
module Classify {
  import opened Wrappers
  import opened Text

  // ------------------------------------------------------------ a client's output, line by line

  /** Each line read on its own, in order. */
  function MapLines<T>(f: string -> T, lines: seq<string>): (r: seq<T>)
    ensures |r| == |lines|
  {
    if |lines| == 0 then [] else MapLines(f, lines[..|lines| - 1]) + [f(lines[|lines| - 1])]
  }

  lemma {:induction false} MapLinesAt<T>(f: string -> T, lines: seq<string>, i: nat)
    requires i < |lines|
    ensures MapLines(f, lines)[i] == f(lines[i])
    decreases |lines|
  {
    if i < |lines| - 1 {
      MapLinesAt(f, lines[..|lines| - 1], i);
    }
  }

  // ------------------------------------------------------------ vote client output

  /** How the vote-style stdout loop reads one line. */
  datatype VoteLine =
    | Sample(op: string, pct: nat, sjrn: nat)  // a latency line: sets `got_lines`
    | BadLine                                  // logged as "bad line" and otherwise ignored
    | RateLine(rate: string)                   // `# generated ops/s` / `# actual ops/s`: the last field
    | OtherComment                             // any other `#` line
    | NoFields                                 // `fields.next().unwrap()` on a line without fields panics

  /**
   * A non-`#` line whose second and third fields both parse as `u32` is a latency sample;
   * other non-`#` lines are bad, except that one without any field panics. Of the `#` lines
   * only the two throughput lines are read.
   */
  function ClassifyVote(line: string): VoteLine {
    if StartsWith(line, "#") then CommentLine(line) else FieldsLine(Words(line, RustSpace))
  }

  /** Which lines are samples, which panic and which are throughput lines. */
  lemma ClassifyVoteMeaning(line: string)
    ensures ClassifyVote(line).Sample? ==>
      ClassifyVote(line).pct < U32Limit && ClassifyVote(line).sjrn < U32Limit && !StartsWith(line, "#")
    ensures ClassifyVote(line).NoFields? <==> !StartsWith(line, "#") && Blank(line, RustSpace)
    ensures ClassifyVote(line).RateLine? <==> StartsWith(line, "# generated ops/s") || StartsWith(line, "# actual ops/s")
  {
    WordsEmptyIff(line, RustSpace);
    assert StartsWith(line, "# generated ops/s") || StartsWith(line, "# actual ops/s") ==> line[..1] == "#";
  }

  /** A `#` line: only the two throughput lines are read, for their last field. */
  function CommentLine(line: string): (c: VoteLine)
    requires StartsWith(line, "#")
    ensures c.RateLine? || c.OtherComment?
    ensures c.RateLine? <==> StartsWith(line, "# generated ops/s") || StartsWith(line, "# actual ops/s")
  {
    if StartsWith(line, "# generated ops/s") || StartsWith(line, "# actual ops/s") then
      var fields := Words(line, RustSpace);
      NonSpaceGivesWord(line, RustSpace, 0);
      RateLine(fields[|fields| - 1])
    else OtherComment
  }

  /** The fields of a line that does not start with `#`. */
  function FieldsLine(fields: seq<string>): (c: VoteLine)
    ensures c.Sample? || c.BadLine? || c.NoFields?
    ensures c.NoFields? <==> |fields| == 0
    ensures c.Sample? ==> c.pct < U32Limit && c.sjrn < U32Limit
  {
    if |fields| == 0 then NoFields
    else if |fields| >= 3 && ParseUnsigned(fields[1], U32Limit).Some? && ParseUnsigned(fields[2], U32Limit).Some? then
      Sample(fields[0], ParseUnsigned(fields[1], U32Limit).value, ParseUnsigned(fields[2], U32Limit).value)
    else BadLine
  }

  /** The latency rule of each vote-style run. */
  datatype SojournRule =
    | VoteMemRule     // vote_mem.rs: median above 200 ms, or zero
    | VoteSweepRule   // vote.rs: median above 100 ms, or zero
    | InvokeVoteRule  // invoke/vote.rs: 90th percentile above 20 ms

  predicate HighSojourn(rule: SojournRule, pct: nat, sjrn: nat) {
    match rule
    case VoteMemRule => pct == 50 && (sjrn > 200_000 || sjrn == 0)
    case VoteSweepRule => pct == 50 && (sjrn > 100_000 || sjrn == 0)
    case InvokeVoteRule => pct == 90 && sjrn > 20_000
  }

  /** The state of a stdout scan: a panic, or whether a line parsed and how many overload signals were raised. */
  datatype Scan = ScanPanic | Scanned(gotLines: bool, overloads: nat)

  /**
   * How a run judges rate fields: `unparsable` are the texts that fail to parse as an `f64`
   * (`parse().unwrap()` then panics), `low` those whose value is too low for the run's target.
   */
  datatype Rates = Rates(low: set<string>, unparsable: set<string>)

  /** The lines that panic: one without fields, or a rate line whose last field is not a number. */
  predicate Panics(rates: Rates, c: VoteLine) {
    c.NoFields? || (c.RateLine? && c.rate in rates.unparsable)
  }

  /** What one classified line does to the scan. */
  function VoteEffect(rule: SojournRule, rates: Rates, st: Scan, c: VoteLine): (st': Scan)
    requires st.Scanned?
    ensures st'.ScanPanic? <==> Panics(rates, c)
  {
    match c
    case NoFields => ScanPanic
    case Sample(_, pct, sjrn) => Scanned(true, st.overloads + if HighSojourn(rule, pct, sjrn) then 1 else 0)
    case RateLine(rate) =>
      if rate in rates.unparsable then ScanPanic
      else Scanned(st.gotLines, st.overloads + if rate in rates.low then 1 else 0)
    case _ => st
  }

  /** Each line classified on its own. */
  function ClassifyLines(lines: seq<string>): (cs: seq<VoteLine>)
    ensures |cs| == |lines|
  {
    MapLines(ClassifyVote, lines)
  }

  lemma ClassifyLinesAt(lines: seq<string>, i: nat)
    requires i < |lines|
    ensures ClassifyLines(lines)[i] == ClassifyVote(lines[i])
  {
    MapLinesAt(ClassifyVote, lines, i);
  }

  /** The scan of the classified lines in order (the clients' outputs one after the other). */
  function VoteScan(rule: SojournRule, rates: Rates, cs: seq<VoteLine>): Scan
    decreases |cs|
  {
    if |cs| == 0 then Scanned(false, 0)
    else
      var st := VoteScan(rule, rates, cs[..|cs| - 1]);
      if st.ScanPanic? then ScanPanic else VoteEffect(rule, rates, st, cs[|cs| - 1])
  }

  /** The vote-style stdout loop: `got_lines` and one overload signal per high-latency or low-rate line. */
  method ScanVoteLines(rule: SojournRule, rates: Rates, lines: seq<string>) returns (r: Scan)
    ensures r == VoteScan(rule, rates, ClassifyLines(lines))
  {
    ghost var cs := ClassifyLines(lines);
    var gotLines := false;
    var overloads := 0;
    var i := 0;
    while i < |lines|
      invariant i <= |lines| && VoteScan(rule, rates, cs[..i]) == Scanned(gotLines, overloads)
    {
      var c := ClassifyVote(lines[i]);
      ClassifyLinesAt(lines, i);
      VoteScanStep(rule, rates, cs, i);
      if Panics(rates, c) {
        ScanPanicLater(rule, rates, cs, i + 1);
        return ScanPanic;
      }
      gotLines, overloads := AbsorbVote(rule, rates, gotLines, overloads, c);
      i := i + 1;
    }
    assert cs[..i] == cs;
    r := Scanned(gotLines, overloads);
  }

  /** The loop body for a line that does not panic: a sample sets `got_lines`; high latency or low throughput signals overload. */
  method AbsorbVote(rule: SojournRule, rates: Rates, gotLines: bool, overloads: nat, c: VoteLine)
    returns (gotLines': bool, overloads': nat)
    requires !Panics(rates, c)
    ensures Scanned(gotLines', overloads') == VoteEffect(rule, rates, Scanned(gotLines, overloads), c)
  {
    gotLines', overloads' := gotLines, overloads;
    match c {
      case Sample(_, pct, sjrn) =>
        gotLines' := true;
        if HighSojourn(rule, pct, sjrn) {
          overloads' := overloads' + 1;
        }
      case RateLine(rate) =>
        if rate in rates.low {
          overloads' := overloads' + 1;
        }
      case _ =>
    }
  }

  /** One more line of output: the scan so far, then that line's effect. */
  lemma VoteScanStep(rule: SojournRule, rates: Rates, cs: seq<VoteLine>, i: nat)
    requires i < |cs|
    ensures VoteScan(rule, rates, cs[..i + 1])
         == var st := VoteScan(rule, rates, cs[..i]);
            if st.ScanPanic? then ScanPanic else VoteEffect(rule, rates, st, cs[i])
  {
    assert cs[..i + 1][..i] == cs[..i];
  }

  /** Once the scan has panicked, later lines do not matter. */
  lemma {:induction false} ScanPanicLater(rule: SojournRule, rates: Rates, cs: seq<VoteLine>, n: nat)
    requires n <= |cs| && VoteScan(rule, rates, cs[..n]).ScanPanic?
    ensures VoteScan(rule, rates, cs).ScanPanic?
    decreases |cs| - n
  {
    if n < |cs| {
      assert cs[..n + 1][..n] == cs[..n];
      ScanPanicLater(rule, rates, cs, n + 1);
    } else {
      assert cs[..n] == cs;
    }
  }

  /** The overload signals the lines raise: high-latency samples and low throughput lines. */
  function VoteSignals(rule: SojournRule, rates: Rates, cs: seq<VoteLine>): nat
    decreases |cs|
  {
    if |cs| == 0 then 0
    else
      var c := cs[|cs| - 1];
      VoteSignals(rule, rates, cs[..|cs| - 1])
        + if (c.Sample? && HighSojourn(rule, c.pct, c.sjrn)) || (c.RateLine? && c.rate in rates.low) then 1 else 0
  }

  /**
   * The scan panics exactly when some line has no fields or an unparsable rate; otherwise `got_lines` says whether
   * some line was a sample, and every high-latency sample and low throughput line signals once.
   */
  lemma {:induction false} VoteScanMeaning(rule: SojournRule, rates: Rates, cs: seq<VoteLine>)
    ensures VoteScan(rule, rates, cs).ScanPanic? <==> exists i :: 0 <= i < |cs| && Panics(rates, cs[i])
    ensures VoteScan(rule, rates, cs).Scanned? ==>
      (VoteScan(rule, rates, cs).gotLines <==> exists i :: 0 <= i < |cs| && cs[i].Sample?)
    ensures VoteScan(rule, rates, cs).Scanned? ==> VoteScan(rule, rates, cs).overloads == VoteSignals(rule, rates, cs)
    decreases |cs|
  {
    if |cs| > 0 {
      var init := cs[..|cs| - 1];
      VoteScanMeaning(rule, rates, init);
      assert forall i :: 0 <= i < |init| ==> init[i] == cs[i];
    }
  }

  /** No line signals exactly when no sample has a high latency and no rate line is low. */
  lemma {:induction false} VoteSignalsZeroIff(rule: SojournRule, rates: Rates, cs: seq<VoteLine>)
    ensures VoteSignals(rule, rates, cs) == 0 <==>
      forall i :: 0 <= i < |cs| ==> !(cs[i].Sample? && HighSojourn(rule, cs[i].pct, cs[i].sjrn)) && !(cs[i].RateLine? && cs[i].rate in rates.low)
    decreases |cs|
  {
    if |cs| > 0 {
      var init := cs[..|cs| - 1];
      VoteSignalsZeroIff(rule, rates, init);
      assert forall i :: 0 <= i < |init| ==> init[i] == cs[i];
    }
  }

  /** The vote client's latency line `<op>\t<pct>\t<sojourn>` reads back as that sample. */
  lemma RenderedSample(op: string, pct: nat, sjrn: nat)
    requires IsWord(op, RustSpace) && op[0] != '#'
    requires pct < U32Limit && sjrn < U32Limit
    ensures ClassifyVote(op + "\t" + NatToString(pct) + "\t" + NatToString(sjrn)) == Sample(op, pct, sjrn)
  {
    var p, j := NatToString(pct), NatToString(sjrn);
    var line := op + "\t" + p + "\t" + j;
    DigitsAreWord(p, RustSpace);
    DigitsAreWord(j, RustSpace);
    WordsOfThree(op, p, j, '\t', RustSpace);
    assert Words(line, RustSpace) == [op, p, j];
    assert !StartsWith(line, "#") by {
      assert line[0] == op[0];
    }
    ParseRendered(pct, U32Limit);
    ParseRendered(sjrn, U32Limit);
    assert FieldsLine([op, p, j]) == Sample(op, pct, sjrn);
  }

  // ------------------------------------------------------------ lobsters client output

  /** How the lobsters stdout loop reads one line's latency part. */
  datatype SojournLine =
    | NotSojourn                             // the line does not contain "sojourn"
    | Ignored                                // Login/Logout, a processing line, or a percentile other than 95
    | Malformed                              // a missing or unparsable field: logged as "bad line"
    | Latency(endpoint: string, value: nat)  // the 95th-percentile sojourn time of one endpoint
    | AssertFails                            // a metric other than sojourn/processing, or an unexpected percentile

  /**
   * Lines containing "sojourn" are trimmed and split; the first field always exists, since
   * "sojourn" starts with a non-whitespace character.
   */
  function ClassifyLobsters(line: string): SojournLine {
    if !Contains(line, "sojourn") then NotSojourn
    else
      ContainsGivesWord(line, "sojourn", RustSpace);
      WordsOfTrim(line);
      SojournFields(Words(Trim(line), RustSpace))
  }

  /** Only lines containing "sojourn" are read; a latency is an in-range value of an endpoint other than Login/Logout. */
  lemma ClassifyLobstersMeaning(line: string)
    ensures ClassifyLobsters(line).NotSojourn? <==> !Contains(line, "sojourn")
    ensures ClassifyLobsters(line).Latency? ==>
      ClassifyLobsters(line).value < U64Limit && ClassifyLobsters(line).endpoint != "Login" && ClassifyLobsters(line).endpoint != "Logout"
    ensures ClassifyLobsters(line).Latency? ==>
      |Words(line, RustSpace)| >= 4 && Words(line, RustSpace)[..3] == [ClassifyLobsters(line).endpoint, "sojourn", "95"]
  {
    WordsOfTrim(line);
  }

  /** The fields of a trimmed line that contains "sojourn": endpoint, metric, percentile, value. */
  function SojournFields(fields: seq<string>): (c: SojournLine)
    requires |fields| > 0
    ensures !c.NotSojourn?
    ensures c.Latency? ==> c.value < U64Limit && c.endpoint != "Login" && c.endpoint != "Logout"
    ensures c.Latency? ==> |fields| >= 4 && fields[..3] == [c.endpoint, "sojourn", "95"]
  {
    if fields[0] == "Login" || fields[0] == "Logout" then Ignored
    else if |fields| < 2 then Malformed
    else if fields[1] != "sojourn" then (if fields[1] == "processing" then Ignored else AssertFails)
    else if |fields| < 3 then Malformed
    else if fields[2] != "95" then (if fields[2] == "50" || fields[2] == "99" || fields[2] == "100" then Ignored else AssertFails)
    else if |fields| < 4 then Malformed
    else match ParseUnsigned(fields[3], U64Limit)
      case None => Malformed
      case Some(v) => Latency(fields[0], v)
  }

  /** The lobsters client's line `<endpoint> sojourn 95 <value>` reads back as that endpoint's latency. */
  lemma RenderedLatency(endpoint: string, value: nat)
    requires IsWord(endpoint, RustSpace) && endpoint != "Login" && endpoint != "Logout"
    requires value < U64Limit
    ensures ClassifyLobsters(endpoint + " sojourn 95 " + NatToString(value)) == Latency(endpoint, value)
  {
    var v := NatToString(value);
    var line := endpoint + " sojourn 95 " + v;
    LatencyLineWords(endpoint, v);
    LatencyLineContains(endpoint, v);
    SojournLineFields(line);
    ParseRendered(value, U64Limit);
    LatencyFields(endpoint, v, value);
  }

  /** A line with "sojourn" is classified by its fields. */
  lemma SojournLineFields(line: string)
    requires Contains(line, "sojourn")
    ensures |Words(line, RustSpace)| > 0 && ClassifyLobsters(line) == SojournFields(Words(line, RustSpace))
  {
    WordsOfTrim(line);
    ContainsGivesWord(line, "sojourn", RustSpace);
  }

  lemma LatencyFields(endpoint: string, v: string, value: nat)
    requires endpoint != "Login" && endpoint != "Logout" && ParseUnsigned(v, U64Limit) == Some(value)
    ensures SojournFields([endpoint, "sojourn", "95", v]) == Latency(endpoint, value)
  {
  }

  lemma LatencyLineWords(endpoint: string, v: string)
    requires IsWord(endpoint, RustSpace) && |v| > 0 && AllDigits(v)
    ensures Words(endpoint + " sojourn 95 " + v, RustSpace) == [endpoint, "sojourn", "95", v]
  {
    var rest := "sojourn" + [' '] + "95" + [' '] + v;
    assert endpoint + " sojourn 95 " + v == endpoint + [' '] + rest;
    DigitsAreWord(v, RustSpace);
    SojournIsWord();
    WordsCons(endpoint, ' ', rest, RustSpace);
    WordsOfThree("sojourn", "95", v, ' ', RustSpace);
  }

  lemma SojournIsWord()
    ensures IsWord("sojourn", RustSpace) && IsWord("95", RustSpace)
  {
    var w := "sojourn";
    assert w[0] == 's' && w[1] == 'o' && w[2] == 'j' && w[3] == 'o' && w[4] == 'u' && w[5] == 'r' && w[6] == 'n';
  }

  lemma LatencyLineContains(endpoint: string, v: string)
    ensures Contains(endpoint + " sojourn 95 " + v, "sojourn")
  {
    assert endpoint + " sojourn 95 " + v == endpoint + " " + "sojourn" + (" 95 " + v);
    ContainsInside(endpoint + " ", "sojourn", " 95 " + v);
  }

  /**
   * The throughput field of a lobsters line, `line.rsplitn(2, ' ').next()`: the text after
   * the last space, or the whole line when it has none.
   */
  function AfterLastSpace(line: string): (r: string)
    ensures |r| <= |line| && line[|line| - |r|..] == r
    ensures forall k :: 0 <= k < |r| ==> r[k] != ' '
    ensures |r| < |line| ==> line[|line| - |r| - 1] == ' '
  {
    if |line| == 0 || line[|line| - 1] == ' ' then ""
    else AfterLastSpace(line[..|line| - 1]) + [line[|line| - 1]]
  }

  /**
   * What the lobsters stdout loop looks at in one line: the two throughput prefixes, the
   * throughput field and the latency part.
   */
  datatype LobstersLine = LobstersLine(target: bool, generated: bool, rate: string, sojourn: SojournLine)

  function ReadLobsters(line: string): LobstersLine {
    LobstersLine(StartsWith(line, "# target ops/s"), StartsWith(line, "# generated ops/s"),
                 AfterLastSpace(line), ClassifyLobsters(line))
  }

  /** No line starts with both throughput prefixes. */
  lemma ReadLobstersExclusive(line: string)
    ensures !(ReadLobsters(line).target && ReadLobsters(line).generated)
  {
    PrefixesExclusive(line);
  }

  lemma PrefixesExclusive(line: string)
    ensures !(StartsWith(line, "# target ops/s") && StartsWith(line, "# generated ops/s"))
  {
    if StartsWith(line, "# target ops/s") {
      assert line[2] == 't';
    }
  }

  /** Each line read on its own. */
  function ReadLines(lines: seq<string>): (ls: seq<LobstersLine>)
    ensures |ls| == |lines|
  {
    MapLines(ReadLobsters, lines)
  }

  lemma ReadLinesAt(lines: seq<string>, i: nat)
    requires i < |lines|
    ensures ReadLines(lines)[i] == ReadLobsters(lines[i])
  {
    MapLinesAt(ReadLobsters, lines, i);
  }

  predicate Exclusive(ls: seq<LobstersLine>) {
    forall i :: 0 <= i < |ls| ==> !(ls[i].target && ls[i].generated)
  }

  /**
   * How a run judges the throughput fields: `unparsable` are the texts that fail to parse as
   * an `f64`, `low` whether the generated rate is below four fifths of the target once both
   * are read.
   */
  datatype Throughput = Throughput(low: bool, unparsable: set<string>)

  /**
   * The lobsters scan state: whether the target and generated throughput lines were seen, and
   * the signals so far; or a panic (a failed assertion), or an error (a throughput field that
   * does not parse, returned by `?`).
   */
  datatype LobstersState = LobstersState(target: bool, actual: bool, overloads: nat) | LobstersPanic | LobstersError

  /**
   * One line: while a throughput value is missing, the two throughput lines are parsed and
   * recorded, and the low-throughput check runs once, when the second one arrives; then the
   * latency part, where a value above `limit` signals overload.
   */
  function LobstersEffect(limit: nat, tp: Throughput, st: LobstersState, l: LobstersLine): LobstersState
    requires st.LobstersState?
  {
    var st' := ThroughputEffect(tp, st, l.target, l.generated, l.rate);
    if st'.LobstersError? then LobstersError else LatencyEffect(limit, st', l.sojourn)
  }

  /** The latency part of one line: an assertion failure panics, a value above `limit` signals overload. */
  function LatencyEffect(limit: nat, st: LobstersState, c: SojournLine): (st': LobstersState)
    requires st.LobstersState?
    ensures st'.LobstersPanic? <==> c.AssertFails?
    ensures !st'.LobstersError?
  {
    match c
    case AssertFails => LobstersPanic
    case Latency(_, value) => LobstersState(st.target, st.actual, st.overloads + if value > limit then 1 else 0)
    case _ => st
  }

  /** The throughput part of one line. */
  function ThroughputEffect(tp: Throughput, st: LobstersState, isTarget: bool, isGenerated: bool, rate: string)
    : (st': LobstersState)
    requires st.LobstersState?
    ensures !st'.LobstersPanic?
    ensures st'.LobstersError? <==> !(st.target && st.actual) && (isTarget || isGenerated) && rate in tp.unparsable
  {
    if st.target && st.actual then st
    else if (isTarget || isGenerated) && rate in tp.unparsable then LobstersError
    else
      var t := st.target || isTarget;
      var a := st.actual || (!isTarget && isGenerated);
      LobstersState(t, a, st.overloads + if t && a && tp.low then 1 else 0)
  }

  /** The scan of the lines in order; it stops at the first panic or error. */
  function LobstersScan(limit: nat, tp: Throughput, ls: seq<LobstersLine>): LobstersState
    decreases |ls|
  {
    if |ls| == 0 then LobstersState(false, false, 0)
    else
      var st := LobstersScan(limit, tp, ls[..|ls| - 1]);
      if !st.LobstersState? then st else LobstersEffect(limit, tp, st, ls[|ls| - 1])
  }

  /** The lobsters-style stdout loop. */
  method ScanLobstersLines(limit: nat, tp: Throughput, lines: seq<string>) returns (r: LobstersState)
    ensures r == LobstersScan(limit, tp, ReadLines(lines))
  {
    ghost var ls := ReadLines(lines);
    var target, actual := false, false;
    var overloads := 0;
    var i := 0;
    while i < |lines|
      invariant i <= |lines| && LobstersScan(limit, tp, ls[..i]) == LobstersState(target, actual, overloads)
    {
      ReadLinesAt(lines, i);
      LobstersScanStep(limit, tp, ls, i);
      var st := AbsorbLobsters(limit, tp, target, actual, overloads, lines[i]);
      if !st.LobstersState? {
        LobstersStopLater(limit, tp, ls, i + 1);
        return st;
      }
      target, actual, overloads := st.target, st.actual, st.overloads;
      i := i + 1;
    }
    assert ls[..i] == ls;
    r := LobstersState(target, actual, overloads);
  }

  /** The loop body: the throughput checks, which may fail to parse, then the latency part, which may fail an assertion. */
  method AbsorbLobsters(limit: nat, tp: Throughput, target: bool, actual: bool, overloads: nat, line: string)
    returns (st: LobstersState)
    ensures st == LobstersEffect(limit, tp, LobstersState(target, actual, overloads), ReadLobsters(line))
  {
    var noted := NoteThroughput(tp, target, actual, overloads, line);
    if noted.LobstersError? {
      return LobstersError;
    }
    var c := ClassifyLobsters(line);
    var panicked, overloads' := AbsorbLatency(limit, noted.target, noted.actual, noted.overloads, c);
    st := if panicked then LobstersPanic else LobstersState(noted.target, noted.actual, overloads');
  }

  /** The latency part: an assertion failure, or one more signal for a value above `limit`. */
  method AbsorbLatency(limit: nat, target: bool, actual: bool, overloads: nat, c: SojournLine) returns (panicked: bool, overloads': nat)
    ensures var st := LatencyEffect(limit, LobstersState(target, actual, overloads), c);
      if panicked then st.LobstersPanic? else st == LobstersState(target, actual, overloads')
  {
    panicked := c.AssertFails?;
    overloads' := overloads;
    if c.Latency? && c.value > limit {
      overloads' := overloads' + 1;
    }
  }

  /** The throughput checks, made only while one of the two throughput values is missing. */
  method NoteThroughput(tp: Throughput, target: bool, actual: bool, overloads: nat, line: string)
    returns (st: LobstersState)
    ensures st == ThroughputEffect(tp, LobstersState(target, actual, overloads),
                                   StartsWith(line, "# target ops/s"), StartsWith(line, "# generated ops/s"),
                                   AfterLastSpace(line))
  {
    if target && actual {
      return LobstersState(target, actual, overloads);
    }
    var target', actual' := target, actual;
    if StartsWith(line, "# target ops/s") {
      if AfterLastSpace(line) in tp.unparsable {
        return LobstersError;
      }
      target' := true;
    } else if StartsWith(line, "# generated ops/s") {
      if AfterLastSpace(line) in tp.unparsable {
        return LobstersError;
      }
      actual' := true;
    }
    var overloads' := overloads;
    if target' && actual' && tp.low {
      overloads' := overloads' + 1;
    }
    st := LobstersState(target', actual', overloads');
  }

  /** One more line of output: the scan so far, then that line's effect. */
  lemma LobstersScanStep(limit: nat, tp: Throughput, ls: seq<LobstersLine>, i: nat)
    requires i < |ls|
    ensures LobstersScan(limit, tp, ls[..i + 1])
         == var st := LobstersScan(limit, tp, ls[..i]);
            if !st.LobstersState? then st else LobstersEffect(limit, tp, st, ls[i])
  {
    assert ls[..i + 1][..i] == ls[..i];
  }

  /** Once the scan has stopped, later lines do not matter. */
  lemma {:induction false} LobstersStopLater(limit: nat, tp: Throughput, ls: seq<LobstersLine>, n: nat)
    requires n <= |ls| && !LobstersScan(limit, tp, ls[..n]).LobstersState?
    ensures LobstersScan(limit, tp, ls) == LobstersScan(limit, tp, ls[..n])
    decreases |ls| - n
  {
    if n < |ls| {
      assert ls[..n + 1][..n] == ls[..n];
      LobstersStopLater(limit, tp, ls, n + 1);
    } else {
      assert ls[..n] == ls;
    }
  }

  /** The number of lines whose latency part reports a value above `limit`. */
  function HighLatencies(limit: nat, ls: seq<LobstersLine>): nat
    decreases |ls|
  {
    if |ls| == 0 then 0
    else
      var c := ls[|ls| - 1].sojourn;
      HighLatencies(limit, ls[..|ls| - 1]) + if c.Latency? && c.value > limit then 1 else 0
  }

  /** No line reports a high latency exactly when no line's latency part exceeds `limit`. */
  lemma {:induction false} HighLatenciesZeroIff(limit: nat, ls: seq<LobstersLine>)
    ensures HighLatencies(limit, ls) == 0 <==> forall i :: 0 <= i < |ls| ==> !(ls[i].sojourn.Latency? && ls[i].sojourn.value > limit)
    decreases |ls|
  {
    if |ls| > 0 {
      var init := ls[..|ls| - 1];
      HighLatenciesZeroIff(limit, init);
      assert forall i :: 0 <= i < |init| ==> init[i] == ls[i];
    }
  }

  /**
   * While the scan runs, each throughput line was seen exactly when some line starts with it,
   * and the overload signals are the high latencies plus at most one low-throughput signal.
   */
  lemma {:induction false} LobstersScanMeaning(limit: nat, tp: Throughput, ls: seq<LobstersLine>)
    requires Exclusive(ls) && LobstersScan(limit, tp, ls).LobstersState?
    ensures LobstersScan(limit, tp, ls).target <==> exists i :: 0 <= i < |ls| && ls[i].target
    ensures LobstersScan(limit, tp, ls).actual <==> exists i :: 0 <= i < |ls| && ls[i].generated
    ensures LobstersScan(limit, tp, ls).overloads
         == HighLatencies(limit, ls)
            + if LobstersScan(limit, tp, ls).target && LobstersScan(limit, tp, ls).actual && tp.low then 1 else 0
    decreases |ls|
  {
    if |ls| > 0 {
      var init := ls[..|ls| - 1];
      assert forall i :: 0 <= i < |init| ==> init[i] == ls[i];
      LobstersScanMeaning(limit, tp, init);
    }
  }

  /** Both throughput lines appear among the first `n` lines. */
  predicate BothSeen(ls: seq<LobstersLine>, n: nat)
    requires n <= |ls|
  {
    (exists j :: 0 <= j < n && ls[j].target) && (exists j :: 0 <= j < n && ls[j].generated)
  }

  /** Line `i` is a throughput line read while a value is missing, and its field does not parse. */
  predicate RateFails(tp: Throughput, ls: seq<LobstersLine>, i: nat)
    requires i < |ls|
  {
    (ls[i].target || ls[i].generated) && ls[i].rate in tp.unparsable && !BothSeen(ls, i)
  }

  /** Line `i` ends the scan, if the scan gets that far: its throughput field fails to parse, or its latency part an assertion. */
  predicate StopsAt(tp: Throughput, ls: seq<LobstersLine>, i: nat)
    requires i < |ls|
  {
    RateFails(tp, ls, i) || ls[i].sojourn.AssertFails?
  }

  /** Whether a line stops the scan depends only on that line and the ones before it. */
  lemma StopsAtPrefix(tp: Throughput, ls: seq<LobstersLine>, m: nat, i: nat)
    requires i < m <= |ls|
    ensures StopsAt(tp, ls[..m], i) == StopsAt(tp, ls, i)
  {
    assert forall j :: 0 <= j < i ==> ls[..m][j] == ls[j];
  }

  /** The scan runs to the end exactly when no line stops it. */
  lemma {:induction false} LobstersRunningIff(limit: nat, tp: Throughput, ls: seq<LobstersLine>)
    requires Exclusive(ls)
    ensures LobstersScan(limit, tp, ls).LobstersState? <==> forall i :: 0 <= i < |ls| ==> !StopsAt(tp, ls, i)
    decreases |ls|
  {
    if |ls| > 0 {
      var n := |ls| - 1;
      var init := ls[..n];
      assert Exclusive(init) by {
        assert forall i :: 0 <= i < n ==> init[i] == ls[i];
      }
      LobstersRunningIff(limit, tp, init);
      forall i | 0 <= i < n
        ensures StopsAt(tp, init, i) == StopsAt(tp, ls, i)
      {
        StopsAtPrefix(tp, ls, n, i);
      }
      if LobstersScan(limit, tp, init).LobstersState? {
        LobstersScanMeaning(limit, tp, init);
        assert forall j :: 0 <= j < n ==> init[j] == ls[j];
        assert LobstersScan(limit, tp, init).target && LobstersScan(limit, tp, init).actual <==> BothSeen(ls, n);
        assert ls[..n] == init;
        assert LobstersScan(limit, tp, ls) == LobstersEffect(limit, tp, LobstersScan(limit, tp, init), ls[n]);
        assert LobstersScan(limit, tp, ls).LobstersState? <==> !StopsAt(tp, ls, n);
      }
    }
  }

  /**
   * The first line that stops the scan decides how it ends: an error when its throughput field
   * does not parse (checked before the latency part), a panic otherwise.
   */
  lemma LobstersFirstStop(limit: nat, tp: Throughput, ls: seq<LobstersLine>, i: nat)
    requires Exclusive(ls) && i < |ls| && StopsAt(tp, ls, i)
    requires forall j :: 0 <= j < i ==> !StopsAt(tp, ls, j)
    ensures LobstersScan(limit, tp, ls) == if RateFails(tp, ls, i) then LobstersError else LobstersPanic
  {
    var pre := ls[..i];
    assert Exclusive(pre) by {
      assert forall j :: 0 <= j < i ==> pre[j] == ls[j];
    }
    forall j | 0 <= j < i
      ensures !StopsAt(tp, pre, j)
    {
      StopsAtPrefix(tp, ls, i, j);
    }
    LobstersRunningIff(limit, tp, pre);
    LobstersScanMeaning(limit, tp, pre);
    assert forall j :: 0 <= j < i ==> pre[j] == ls[j];
    assert LobstersScan(limit, tp, pre).target && LobstersScan(limit, tp, pre).actual <==> BothSeen(ls, i);
    LobstersScanStep(limit, tp, ls, i);
    LobstersStopLater(limit, tp, ls, i + 1);
  }

  /** The lines of a client's output, read one by one, never start with both throughput prefixes. */
  lemma ReadLinesExclusive(lines: seq<string>)
    ensures Exclusive(ReadLines(lines))
  {
    var ls := ReadLines(lines);
    forall i | 0 <= i < |lines|
      ensures !(ls[i].target && ls[i].generated)
    {
      ReadLinesAt(lines, i);
      ReadLobstersExclusive(lines[i]);
    }
  }
}
