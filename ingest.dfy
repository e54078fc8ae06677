/**
 * The content side of benchmarks/ingest.py: the `# generated ops/s` count that
 * decides whether a vote or redis log is kept, `mem_stats`' sums over the
 * dataflow nodes of the statistics file, `vote_migration`'s line
 * classification, each reader's accept/skip decisions, and `ingest`'s loop
 * over the log files. A reader that keeps a file appends one row here where
 * the script appends that file's frame rows; the float sums, the pandas
 * frames and the `extract-hist` call are not modelled.
 */
module Ingest {
  import opened Wrappers
  import opened Text
  import opened IngestNames
  import opened Names

  // ---------------------------------------------------------------- header lines

  /** A comment line with one client's generated throughput. */
  predicate GeneratedLine(line: string) {
    StartsWith(line, "#") && Contains(line, "generated ops/s")
  }

  /** The number of `# ... generated ops/s ...` lines. */
  function Generated(lines: seq<string>): nat {
    if |lines| == 0 then 0
    else Generated(lines[..|lines| - 1]) + (if GeneratedLine(lines[|lines| - 1]) then 1 else 0)
  }

  /** The count is zero exactly when no line is such a comment, and never exceeds the number of lines. */
  lemma {:induction false} GeneratedZeroIff(lines: seq<string>)
    ensures Generated(lines) == 0 <==> forall i :: 0 <= i < |lines| ==> !GeneratedLine(lines[i])
    ensures Generated(lines) <= |lines|
  {
    if |lines| > 0 {
      var init := lines[..|lines| - 1];
      GeneratedZeroIff(init);
      assert forall i :: 0 <= i < |init| ==> init[i] == lines[i];
    }
  }

  /** The `client += 1` loop of `redis` and `vote`; the other comment lines feed float sums. */
  method CountClients(lines: seq<string>) returns (client: nat)
    ensures client == Generated(lines)
  {
    client := 0;
    var i := 0;
    while i < |lines|
      invariant 0 <= i <= |lines|
      invariant client == Generated(lines[..i])
    {
      assert lines[..i + 1][..i] == lines[..i];
      if StartsWith(lines[i], "#") {
        if Contains(lines[i], "generated ops/s") {
          client := client + 1;
        }
      }
      i := i + 1;
    }
    assert lines[..i] == lines;
  }

  // ------------------------------------------------------------------- mem_stats

  /**
   * One node of a domain in `{root}-statistics.json`: its `desc`, whether its
   * `materialized` entry is a dict with a `Partial` key, and its `mem_size`.
   */
  datatype Node = Node(desc: string, partialState: bool, memSize: int)

  /** A domain's node map (`dinfo[1]`), in iteration order. */
  datatype Domain = Domain(nodes: seq<Node>)

  datatype MemStats = MemStats(ndomains: nat, baseMem: int, otherMem: int, readerMem: int, fullOpMem: int)

  datatype Sums = Sums(base: int, other: int, reader: int, fullOp: int)

  predicate IsBase(n: Node) {
    n.desc == "B"
  }

  predicate IsReaderNode(n: Node) {
    n.desc == "reader node"
  }

  /** One node's contribution to the four sums. */
  function AddNode(t: Sums, n: Node): Sums {
    if IsBase(n) then Sums(t.base + n.memSize, t.other, t.reader, t.fullOp)
    else Sums(t.base, t.other + n.memSize,
              t.reader + (if IsReaderNode(n) then n.memSize else 0),
              t.fullOp + (if n.partialState then 0 else n.memSize))
  }

  function NodeSums(nodes: seq<Node>): Sums {
    if |nodes| == 0 then Sums(0, 0, 0, 0) else AddNode(NodeSums(nodes[..|nodes| - 1]), nodes[|nodes| - 1])
  }

  /** Every domain's nodes, domain after domain. */
  function AllNodes(domains: seq<Domain>): seq<Node> {
    if |domains| == 0 then [] else AllNodes(domains[..|domains| - 1]) + domains[|domains| - 1].nodes
  }

  function MemStatsOf(domains: seq<Domain>): MemStats {
    var t := NodeSums(AllNodes(domains));
    MemStats(|domains|, t.base, t.other, t.reader, t.fullOp)
  }

  function TotalSize(nodes: seq<Node>): int {
    if |nodes| == 0 then 0 else TotalSize(nodes[..|nodes| - 1]) + nodes[|nodes| - 1].memSize
  }

  predicate SizesNonNegative(nodes: seq<Node>) {
    forall i :: 0 <= i < |nodes| ==> nodes[i].memSize >= 0
  }

  /** Base and other memory split the total: every node is counted in exactly one of them. */
  lemma {:induction false} BasePlusOther(nodes: seq<Node>)
    ensures NodeSums(nodes).base + NodeSums(nodes).other == TotalSize(nodes)
  {
    if |nodes| > 0 {
      BasePlusOther(nodes[..|nodes| - 1]);
    }
  }

  /** With non-negative sizes, reader and fully materialised memory are parts of the other memory. */
  lemma {:induction false} SumsBounded(nodes: seq<Node>)
    requires SizesNonNegative(nodes)
    ensures 0 <= NodeSums(nodes).reader <= NodeSums(nodes).other
    ensures 0 <= NodeSums(nodes).fullOp <= NodeSums(nodes).other
    ensures 0 <= NodeSums(nodes).base
  {
    if |nodes| > 0 {
      var init := nodes[..|nodes| - 1];
      assert forall i :: 0 <= i < |init| ==> init[i] == nodes[i];
      SumsBounded(init);
      assert nodes[|nodes| - 1].memSize >= 0;
    }
  }

  lemma NodeSumsSnoc(nodes: seq<Node>, n: Node)
    ensures NodeSums(nodes + [n]) == AddNode(NodeSums(nodes), n)
  {
    assert (nodes + [n])[..|nodes|] == nodes;
  }

  lemma AllNodesSnoc(domains: seq<Domain>, d: nat)
    requires d < |domains|
    ensures AllNodes(domains[..d + 1]) == AllNodes(domains[..d]) + domains[d].nodes
  {
    assert domains[..d + 1][..d] == domains[..d];
  }

  /** The inner loop of `mem_stats`: one domain's nodes added to the running sums. */
  method AddDomain(t: Sums, nodes: seq<Node>, ghost before: seq<Node>) returns (u: Sums)
    requires t == NodeSums(before)
    ensures u == NodeSums(before + nodes)
  {
    var base, other, reader, fullOp := t.base, t.other, t.reader, t.fullOp;
    var k := 0;
    assert before + nodes[..0] == before;
    while k < |nodes|
      invariant 0 <= k <= |nodes|
      invariant Sums(base, other, reader, fullOp) == NodeSums(before + nodes[..k])
    {
      var n := nodes[k];
      ghost var s := Sums(base, other, reader, fullOp);
      if n.desc == "B" {
        base := base + n.memSize;
      } else {
        if !n.partialState {
          fullOp := fullOp + n.memSize;
        }
        if n.desc == "reader node" {
          reader := reader + n.memSize;
          other := other + n.memSize;
        } else {
          other := other + n.memSize;
        }
      }
      assert Sums(base, other, reader, fullOp) == AddNode(s, n);
      NodeSumsSnoc(before + nodes[..k], n);
      assert before + nodes[..k + 1] == (before + nodes[..k]) + [n];
      k := k + 1;
    }
    assert nodes[..k] == nodes;
    u := Sums(base, other, reader, fullOp);
  }

  /** `mem_stats` over the parsed statistics file. */
  method ComputeMemStats(domains: seq<Domain>) returns (m: MemStats)
    ensures m == MemStatsOf(domains)
  {
    var t := Sums(0, 0, 0, 0);
    var d := 0;
    while d < |domains|
      invariant 0 <= d <= |domains|
      invariant t == NodeSums(AllNodes(domains[..d]))
    {
      t := AddDomain(t, domains[d].nodes, AllNodes(domains[..d]));
      AllNodesSnoc(domains, d);
      d := d + 1;
    }
    assert domains[..d] == domains;
    m := MemStats(|domains|, t.base, t.other, t.reader, t.fullOp);
  }

  /** What `mem_stats` reports: the domain count, base and other splitting the total, and the bounds. */
  lemma MemStatsMeaning(domains: seq<Domain>)
    requires SizesNonNegative(AllNodes(domains))
    ensures MemStatsOf(domains).ndomains == |domains|
    ensures MemStatsOf(domains).baseMem + MemStatsOf(domains).otherMem == TotalSize(AllNodes(domains))
    ensures 0 <= MemStatsOf(domains).readerMem <= MemStatsOf(domains).otherMem
    ensures 0 <= MemStatsOf(domains).fullOpMem <= MemStatsOf(domains).otherMem
  {
    BasePlusOther(AllNodes(domains));
    SumsBounded(AllNodes(domains));
  }

  // ---------------------------------------------------------------- vote_migration

  datatype MigrationLine = OldLine | NewLine | HitfLine | StartLine | FinishLine | OtherLine

  /** The first of the five substrings the line contains decides its kind. */
  function LineKind(line: string): MigrationLine {
    if Contains(line, "OLD") then OldLine
    else if Contains(line, "NEW") then NewLine
    else if Contains(line, "HITF") then HitfLine
    else if Contains(line, "MIG START") then StartLine
    else if Contains(line, "MIG FINISHED") then FinishLine
    else OtherLine
  }

  /** A line of any kind but the last holds a whitespace-separated field, so `fields[0]` exists. */
  lemma KindHasFields(line: string)
    requires LineKind(line) != OtherLine
    ensures |Words(line, PythonSpace)| > 0
  {
    if Contains(line, "OLD") {
      ContainsGivesWord(line, "OLD", PythonSpace);
    } else if Contains(line, "NEW") {
      ContainsGivesWord(line, "NEW", PythonSpace);
    } else if Contains(line, "HITF") {
      ContainsGivesWord(line, "HITF", PythonSpace);
    } else if Contains(line, "MIG START") {
      ContainsGivesWord(line, "MIG START", PythonSpace);
    } else {
      ContainsGivesWord(line, "MIG FINISHED", PythonSpace);
    }
  }

  /** `(fields[0], fields[-1])` of `line.split()`, as text; their float conversion is not modelled. */
  datatype Point = Point(time: string, value: string)

  /** A component of `migration`: still the initial 0, or the time field of a line. */
  datatype Stamp = Zero | At(time: string)

  datatype Migration = Migration(oldSeries: seq<Point>, newSeries: seq<Point>, hitfSeries: seq<Point>, start: Stamp, finish: Stamp)

  function PointOf(line: string): Point
    requires LineKind(line) != OtherLine
  {
    KindHasFields(line);
    var fields := Words(line, PythonSpace);
    Point(fields[0], fields[|fields| - 1])
  }

  /** One line's effect. */
  function MigrationStep(m: Migration, line: string): Migration {
    match LineKind(line)
    case OldLine => m.(oldSeries := m.oldSeries + [PointOf(line)])
    case NewLine => m.(newSeries := m.newSeries + [PointOf(line)])
    case HitfLine => m.(hitfSeries := m.hitfSeries + [PointOf(line)])
    case StartLine => m.(start := At(PointOf(line).time))
    case FinishLine => m.(finish := At(PointOf(line).time))
    case OtherLine => m
  }

  function MigrationOf(lines: seq<string>): Migration {
    if |lines| == 0 then Migration([], [], [], Zero, Zero)
    else MigrationStep(MigrationOf(lines[..|lines| - 1]), lines[|lines| - 1])
  }

  /** `vote_migration`'s line loop. */
  method ReadMigration(lines: seq<string>) returns (m: Migration)
    ensures m == MigrationOf(lines)
  {
    var olds, news, hitfs := [], [], [];
    var start, finish := Zero, Zero;
    var i := 0;
    while i < |lines|
      invariant 0 <= i <= |lines|
      invariant Migration(olds, news, hitfs, start, finish) == MigrationOf(lines[..i])
    {
      assert lines[..i + 1][..i] == lines[..i];
      var line := lines[i];
      var fields := Words(line, PythonSpace);
      if Contains(line, "OLD") {
        KindHasFields(line);
        olds := olds + [Point(fields[0], fields[|fields| - 1])];
      } else if Contains(line, "NEW") {
        KindHasFields(line);
        news := news + [Point(fields[0], fields[|fields| - 1])];
      } else if Contains(line, "HITF") {
        KindHasFields(line);
        hitfs := hitfs + [Point(fields[0], fields[|fields| - 1])];
      } else if Contains(line, "MIG START") {
        KindHasFields(line);
        start := At(fields[0]);
      } else if Contains(line, "MIG FINISHED") {
        KindHasFields(line);
        finish := At(fields[0]);
      }
      i := i + 1;
    }
    assert lines[..i] == lines;
    m := Migration(olds, news, hitfs, start, finish);
  }

  /** The last index below `n` of a line of kind `k`, or -1. */
  function LastOfKind(lines: seq<string>, k: MigrationLine, n: nat): (r: int)
    requires n <= |lines|
    ensures -1 <= r < n
    ensures r >= 0 ==> LineKind(lines[r]) == k
    ensures forall i :: r < i < n ==> LineKind(lines[i]) != k
  {
    if n == 0 then -1 else if LineKind(lines[n - 1]) == k then n - 1 else LastOfKind(lines, k, n - 1)
  }

  /**
   * `migration[0]` is the time of the last `MIG START` line (one with none of the
   * earlier substrings), or still 0 when there is none; `migration[1]` likewise
   * for `MIG FINISHED`. START lines never touch the second component and
   * FINISHED lines never the first.
   */
  lemma {:induction false} MigrationStamps(lines: seq<string>)
    ensures var s := LastOfKind(lines, StartLine, |lines|);
      MigrationOf(lines).start == if s < 0 then Zero else At(PointOf(lines[s]).time)
    ensures var f := LastOfKind(lines, FinishLine, |lines|);
      MigrationOf(lines).finish == if f < 0 then Zero else At(PointOf(lines[f]).time)
  {
    if |lines| > 0 {
      var init := lines[..|lines| - 1];
      MigrationStamps(init);
      LastOfKindPrefix(lines, StartLine);
      LastOfKindPrefix(lines, FinishLine);
    }
  }

  lemma {:induction false} LastOfKindPrefix(lines: seq<string>, k: MigrationLine)
    requires |lines| > 0
    ensures LineKind(lines[|lines| - 1]) != k ==>
      LastOfKind(lines, k, |lines|) == LastOfKind(lines[..|lines| - 1], k, |lines| - 1)
  {
    var init := lines[..|lines| - 1];
    if LineKind(lines[|lines| - 1]) != k {
      LastOfKindSame(lines, init, k, |lines| - 1);
    }
  }

  lemma {:induction false} LastOfKindSame(a: seq<string>, b: seq<string>, k: MigrationLine, n: nat)
    requires n <= |a| && n <= |b| && a[..n] == b[..n]
    ensures LastOfKind(a, k, n) == LastOfKind(b, k, n)
  {
    if n > 0 {
      assert a[n - 1] == a[..n][n - 1] == b[..n][n - 1] == b[n - 1];
      assert a[..n - 1] == a[..n][..n - 1];
      assert b[..n - 1] == b[..n][..n - 1];
      LastOfKindSame(a, b, k, n - 1);
    }
  }

  /** The points of the lines of kind `k`, in file order. */
  function PointsOf(lines: seq<string>, k: MigrationLine): seq<Point>
    requires k != OtherLine
  {
    if |lines| == 0 then []
    else PointsOf(lines[..|lines| - 1], k) + (if LineKind(lines[|lines| - 1]) == k then [PointOf(lines[|lines| - 1])] else [])
  }

  /** The three series each keep their own lines' points in file order, whatever the other lines are. */
  lemma {:induction false} MigrationSeries(lines: seq<string>)
    ensures MigrationOf(lines).oldSeries == PointsOf(lines, OldLine)
    ensures MigrationOf(lines).newSeries == PointsOf(lines, NewLine)
    ensures MigrationOf(lines).hitfSeries == PointsOf(lines, HitfLine)
  {
    if |lines| > 0 {
      MigrationSeries(lines[..|lines| - 1]);
    }
  }

  // ----------------------------------------------------------------------- readers

  /**
   * A log as the readers see it: its basename, its size in bytes, its lines and
   * the domains of its `-statistics.json`, or None when no such file was written.
   */
  datatype LogFile = LogFile(base: string, size: nat, lines: seq<string>, stats: Option<seq<Domain>>)

  /** What one accepted file contributes to its table. */
  datatype Row =
    | VoteRow(vote: VoteName, mem: MemStats)
    | RedisRow(redis: RedisName)
    | LobstersRow(lobsters: LobstersName, mem: MemStats)
    | MigrationRow(migration: MigrationName, data: Migration)

  /**
   * What a reader does with one file: leaves the frame unchanged, appends a
   * row, or raises (opening a statistics file that is not there).
   */
  datatype Read = Skipped | Made(row: Row) | Raised

  /**
   * `vote`: a name `vote_fn` rejects, an empty file, or a file without a
   * generated-throughput line leaves the frame unchanged; any other file needs
   * its statistics file.
   */
  function VoteRowOf(f: LogFile): Read {
    match ParseVoteName(f.base)
    case None => Skipped
    case Some(n) =>
      if f.size == 0 || Generated(f.lines) == 0 then Skipped
      else if f.stats.None? then Raised
      else Made(VoteRow(n, MemStatsOf(f.stats.value)))
  }

  /** `redis`: the same three skips, and no statistics file. */
  function RedisRowOf(f: LogFile): Read {
    match ParseRedisName(f.base)
    case None => Skipped
    case Some(n) => if f.size == 0 || Generated(f.lines) == 0 then Skipped else Made(RedisRow(n))
  }

  /**
   * `lobsters_noria`, with the shard count read correctly: only a rejected name
   * or an empty file is skipped, and any other file needs its statistics file.
   */
  function LobstersRowOf(f: LogFile): Read {
    match ParseLobstersName(f.base)
    case None => Skipped
    case Some(n) =>
      if f.size == 0 then Skipped
      else if f.stats.None? then Raised
      else Made(LobstersRow(n, MemStatsOf(f.stats.value)))
  }

  /**
   * `lobsters_noria` as written: the empty-file return comes before the shard
   * count is read, and reading it raises `ValueError` for a sharded name.
   */
  function LobstersRowAsWritten(f: LogFile): Read {
    match ParseLobstersNameAsWritten(f.base)
    case NoMatch => Skipped
    case Raises => if f.size == 0 then Skipped else Raised
    case Fields(n) =>
      if f.size == 0 then Skipped
      else if f.stats.None? then Raised
      else Made(LobstersRow(n, MemStatsOf(f.stats.value)))
  }

  /**
   * The as-written and the corrected lobsters readers differ exactly on a
   * non-empty sharded log whose statistics file exists: the first raises, the
   * second makes a row.
   */
  lemma LobstersAsWrittenDiffers(f: LogFile)
    ensures LobstersRowAsWritten(f) != LobstersRowOf(f)
        <==> f.size > 0 && f.stats.Some? && ParseLobstersNameAsWritten(f.base).Raises?
    ensures LobstersRowAsWritten(f) != LobstersRowOf(f) ==> LobstersRowAsWritten(f) == Raised && LobstersRowOf(f).Made?
  {
  }

  /**
   * Every non-empty log of a sharded lobsters_noria_mem.rs run ends the
   * as-written `ingest`, statistics file or not, while the corrected reader
   * keeps it when its statistics file exists.
   */
  lemma ShardedLogRaisesAsWritten(f: LogFile, nshards: nat, partial: bool, scale: nat, limit: nat)
    requires nshards > 0
    requires f.base == LogName(LobstersMemPrefix(nshards, partial, scale, limit)) && f.size > 0
    ensures Dispatch(f.base) == LobstersReader && LobstersRowAsWritten(f) == Raised
    ensures f.stats.Some? ==> RowOf(f) == Made(LobstersRow(LobstersName(nshards, partial, scale, limit), MemStatsOf(f.stats.value)))
  {
    ShardedNameRaises(nshards, partial, scale, limit);
    LobstersMemNameRoundTrip(nshards, partial, scale, limit);
    LobstersMemDispatch(nshards, partial, scale, limit);
  }

  /** `vote_migration`: only a rejected name is skipped; the file's size is not checked. */
  function MigrationRowOf(f: LogFile): Read {
    match ParseMigrationName(f.base)
    case None => Skipped
    case Some(n) => Made(MigrationRow(n, MigrationOf(f.lines)))
  }

  method ReadVote(f: LogFile) returns (read: Read)
    ensures read == VoteRowOf(f)
  {
    var name := ParseVoteName(f.base);
    if name.None? {
      return Skipped;
    }
    if f.size == 0 {
      return Skipped;
    }
    var client := CountClients(f.lines);
    if client == 0 {
      return Skipped;
    }
    if f.stats.None? {
      // opening the missing statistics file raises FileNotFoundError
      return Raised;
    }
    var mem := ComputeMemStats(f.stats.value);
    read := Made(VoteRow(name.value, mem));
  }

  method ReadRedis(f: LogFile) returns (read: Read)
    ensures read == RedisRowOf(f)
  {
    var name := ParseRedisName(f.base);
    if name.None? {
      return Skipped;
    }
    if f.size == 0 {
      return Skipped;
    }
    var client := CountClients(f.lines);
    if client == 0 {
      return Skipped;
    }
    read := Made(RedisRow(name.value));
  }

  method ReadLobsters(f: LogFile) returns (read: Read)
    ensures read == LobstersRowOf(f)
  {
    var name := ParseLobstersName(f.base);
    if name.None? {
      return Skipped;
    }
    if f.size == 0 {
      return Skipped;
    }
    if f.stats.None? {
      // opening the missing statistics file raises FileNotFoundError
      return Raised;
    }
    var mem := ComputeMemStats(f.stats.value);
    read := Made(LobstersRow(name.value, mem));
  }

  method ReadVoteMigration(f: LogFile) returns (read: Read)
    ensures read == MigrationRowOf(f)
  {
    var name := ParseMigrationName(f.base);
    if name.None? {
      return Skipped;
    }
    var m := ReadMigration(f.lines);
    read := Made(MigrationRow(name.value, m));
  }

  /** The reader `ingest` hands a file to, and what it makes of it. */
  function RowOf(f: LogFile): Read {
    match Dispatch(f.base)
    case MigrationReader => MigrationRowOf(f)
    case RedisReader => RedisRowOf(f)
    case VoteReader => VoteRowOf(f)
    case LobstersReader => LobstersRowOf(f)
    case Unrecognized => Skipped
  }

  /**
   * A file that makes its reader raise: a non-empty vote log that `vote_fn`
   * accepts and that has a generated-throughput line, or a non-empty lobsters
   * log that `lobsters_noria_fn` accepts, without a statistics file beside it.
   */
  predicate MissesStats(f: LogFile) {
    && f.stats.None?
    && f.size > 0
    && ((Dispatch(f.base) == VoteReader && ParseVoteName(f.base).Some? && Generated(f.lines) > 0)
        || (Dispatch(f.base) == LobstersReader && ParseLobstersName(f.base).Some?))
  }

  /** A reader raises exactly on the files `MissesStats` describes; the migration and redis readers never do. */
  lemma RaisesIff(f: LogFile)
    ensures RowOf(f).Raised? <==> MissesStats(f)
    ensures Dispatch(f.base) in {MigrationReader, RedisReader, Unrecognized} ==> !RowOf(f).Raised?
  {
  }

  // ------------------------------------------------------------------------ ingest

  /** `ingest`'s four tables, and the basenames it reports as unrecognised. */
  datatype Results = Results(vote: seq<Row>, redis: seq<Row>, migrations: seq<Row>, lobsters: seq<Row>,
                             unrecognized: seq<string>)

  function Table(r: Results, k: Reader): seq<Row> {
    match k
    case MigrationReader => r.migrations
    case RedisReader => r.redis
    case VoteReader => r.vote
    case LobstersReader => r.lobsters
    case Unrecognized => []
  }

  function Extra(read: Read): seq<Row> {
    if read.Made? then [read.row] else []
  }

  /** One file's effect on the results; None when its reader raises, which ends `ingest`. */
  function IngestStep(r: Results, f: LogFile): Option<Results> {
    if RowOf(f).Raised? then None
    else match Dispatch(f.base)
      case MigrationReader => Some(r.(migrations := r.migrations + Extra(MigrationRowOf(f))))
      case RedisReader => Some(r.(redis := r.redis + Extra(RedisRowOf(f))))
      case VoteReader => Some(r.(vote := r.vote + Extra(VoteRowOf(f))))
      case LobstersReader => Some(r.(lobsters := r.lobsters + Extra(LobstersRowOf(f))))
      case Unrecognized => Some(r.(unrecognized := r.unrecognized + [f.base]))
  }

  /** The results after the files in order, or None once a reader has raised. */
  function IngestOf(files: seq<LogFile>): Option<Results> {
    if |files| == 0 then Some(Results([], [], [], [], []))
    else match IngestOf(files[..|files| - 1])
      case None => None
      case Some(r) => IngestStep(r, files[|files| - 1])
  }

  /** Once a prefix of the files has raised, so has the whole list. */
  lemma {:induction false} AbortPersists(files: seq<LogFile>, n: nat)
    requires n <= |files| && IngestOf(files[..n]).None?
    ensures IngestOf(files).None?
    decreases |files| - n
  {
    if n < |files| {
      assert files[..n + 1][..n] == files[..n];
      AbortPersists(files, n + 1);
    } else {
      assert files[..n] == files;
    }
  }

  /**
   * `ingest`'s loop over the `*.log` files, in the order the glob lists them.
   * An exception from a reader is not caught: it ends the loop, and nothing is
   * returned.
   */
  method RunIngest(files: seq<LogFile>) returns (r: Option<Results>)
    ensures r == IngestOf(files)
  {
    var res := Results([], [], [], [], []);
    var i := 0;
    while i < |files|
      invariant 0 <= i <= |files|
      invariant IngestOf(files[..i]) == Some(res)
    {
      assert files[..i + 1][..i] == files[..i];
      var f := files[i];
      if StartsWith(f.base, "vote-") {
        var read := ReadVoteMigration(f);
        res := res.(migrations := res.migrations + Extra(read));
      } else if StartsWith(f.base, "redis.") {
        var read := ReadRedis(f);
        res := res.(redis := res.redis + Extra(read));
      } else if StartsWith(f.base, "full.") || StartsWith(f.base, "partial.") {
        var read := ReadVote(f);
        if read.Raised? {
          AbortPersists(files, i + 1);
          return None;
        }
        res := res.(vote := res.vote + Extra(read));
      } else if StartsWith(f.base, "lobsters-") {
        var read := ReadLobsters(f);
        if read.Raised? {
          AbortPersists(files, i + 1);
          return None;
        }
        res := res.(lobsters := res.lobsters + Extra(read));
      } else {
        res := res.(unrecognized := res.unrecognized + [f.base]);
      }
      i := i + 1;
    }
    assert files[..i] == files;
    r := Some(res);
  }

  /** `ingest` ends in an exception exactly when some file misses its statistics file. */
  lemma {:induction false} IngestAbortsIff(files: seq<LogFile>)
    ensures IngestOf(files).None? <==> exists i :: 0 <= i < |files| && MissesStats(files[i])
  {
    if |files| > 0 {
      var n := |files| - 1;
      var init := files[..n];
      IngestAbortsIff(init);
      RaisesIff(files[n]);
      assert forall i :: 0 <= i < n ==> init[i] == files[i];
    }
  }

  /**
   * A log vote_mem.rs wrote that has a generated-throughput line but whose run
   * did not write a statistics file (some client failed) ends `ingest`, wherever
   * it sits in the directory listing.
   */
  lemma VoteMemLogWithoutStats(files: seq<LogFile>, i: nat, partial: bool, target: nat, writeEvery: nat,
                               clients: nat, limit: nat, distribution: string)
    requires IsDistribution(distribution) && i < |files|
    requires files[i].base == LogName(VoteMemPrefix(partial, target, writeEvery, clients, limit, distribution))
    requires files[i].size > 0 && Generated(files[i].lines) > 0 && files[i].stats.None?
    ensures IngestOf(files).None?
  {
    VoteMemNameRoundTrip(partial, target, writeEvery, clients, limit, distribution);
    VoteMemDispatch(partial, target, writeEvery, clients, limit, distribution);
    assert MissesStats(files[i]);
    IngestAbortsIff(files);
  }

  /** The same for a non-empty log lobsters_noria_mem.rs wrote after a failed run. */
  lemma LobstersMemLogWithoutStats(files: seq<LogFile>, i: nat, nshards: nat, partial: bool, scale: nat, limit: nat)
    requires i < |files|
    requires files[i].base == LogName(LobstersMemPrefix(nshards, partial, scale, limit))
    requires files[i].size > 0 && files[i].stats.None?
    ensures IngestOf(files).None?
  {
    LobstersMemNameRoundTrip(nshards, partial, scale, limit);
    LobstersMemDispatch(nshards, partial, scale, limit);
    assert MissesStats(files[i]);
    IngestAbortsIff(files);
  }

  /** What file `f` adds to table `k`. */
  function Kept(f: LogFile, k: Reader): Read {
    if Dispatch(f.base) == k then RowOf(f) else Skipped
  }

  /** The rows of the made entries, in order. */
  function Present(kept: seq<Read>): seq<Row> {
    if |kept| == 0 then [] else Present(kept[..|kept| - 1]) + Extra(kept[|kept| - 1])
  }

  lemma {:induction false} PresentIff(kept: seq<Read>, x: Row)
    ensures x in Present(kept) <==> exists i :: 0 <= i < |kept| && kept[i] == Made(x)
  {
    if |kept| > 0 {
      var n := |kept| - 1;
      PresentIff(kept[..n], x);
      if exists i :: 0 <= i < |kept| && kept[i] == Made(x) {
        var i :| 0 <= i < |kept| && kept[i] == Made(x);
        if i < n {
          assert kept[..n][i] == kept[i];
        }
      }
      if exists i :: 0 <= i < n && kept[..n][i] == Made(x) {
        var i :| 0 <= i < n && kept[..n][i] == Made(x);
        assert kept[i] == Made(x);
      }
    }
  }

  /** A step that does not raise adds to table `k` exactly what the file contributes to it. */
  lemma StepTable(r: Results, f: LogFile, k: Reader)
    requires k != Unrecognized && IngestStep(r, f).Some?
    ensures Table(IngestStep(r, f).value, k) == Table(r, k) + Extra(Kept(f, k))
  {
  }

  function KeptAll(files: seq<LogFile>, k: Reader): (kept: seq<Read>)
    ensures |kept| == |files|
    ensures forall i :: 0 <= i < |files| ==> kept[i] == Kept(files[i], k)
  {
    seq(|files|, i requires 0 <= i < |files| => Kept(files[i], k))
  }

  lemma {:induction false} TableIsPresent(files: seq<LogFile>, k: Reader)
    requires k != Unrecognized && IngestOf(files).Some?
    ensures Table(IngestOf(files).value, k) == Present(KeptAll(files, k))
  {
    if |files| > 0 {
      var n := |files| - 1;
      assert IngestOf(files[..n]).Some?;
      TableIsPresent(files[..n], k);
      StepTable(IngestOf(files[..n]).value, files[n], k);
      assert KeptAll(files, k)[..n] == KeptAll(files[..n], k);
    }
  }

  /**
   * When `ingest` returns, each table holds exactly the rows its reader makes
   * of the files dispatched to it.
   */
  lemma TablesFromReaders(files: seq<LogFile>, k: Reader, x: Row)
    requires k != Unrecognized
    ensures IngestOf(files).Some? ==>
      (x in Table(IngestOf(files).value, k) <==>
       exists i :: 0 <= i < |files| && Dispatch(files[i].base) == k && RowOf(files[i]) == Made(x))
  {
    if IngestOf(files).Some? {
      TableIsPresent(files, k);
      PresentIff(KeptAll(files, k), x);
    }
  }

  /** When `ingest` returns, the unrecognised list holds exactly the names no reader claims. */
  lemma {:induction false} UnrecognizedNames(files: seq<LogFile>, b: string)
    ensures IngestOf(files).Some? ==>
      (b in IngestOf(files).value.unrecognized <==>
       exists i :: 0 <= i < |files| && files[i].base == b && Dispatch(b) == Unrecognized)
  {
    if |files| > 0 && IngestOf(files).Some? {
      var init := files[..|files| - 1];
      assert IngestOf(init).Some?;
      UnrecognizedNames(init, b);
      assert forall i :: 0 <= i < |init| ==> init[i] == files[i];
    }
  }
}
