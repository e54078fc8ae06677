/**
 * The drivers' run bodies: what one benchmark run at one probe (a target, a scale or a
 * memory limit) does between the probe loop's exit check and the next `next()`, and
 * how many times it calls the overload callback. The remote machines are an oracle
 * here: whether priming (and warming) succeeds, the clients' stdout lines, whether and
 * when the exit signal arrives, each client's exit status and which memory probes fail.
 * A run's outcome is the probe loop's `Outcome`: the number of overload signals, an
 * error (`Failed`), or a panic.
 */
module Runs {
  import opened Wrappers
  import opened Text
  import opened Classify
  import opened ProbeLoop

  // ------------------------------------------------------------ clients

  /** Every client exited successfully. */
  predicate AllSucceeded(statuses: seq<bool>) {
    forall i :: 0 <= i < |statuses| ==> statuses[i]
  }

  /** The number of clients that exited unsuccessfully: each one signals overload once. */
  function Failures(statuses: seq<bool>): nat
    decreases |statuses|
  {
    if |statuses| == 0 then 0
    else Failures(statuses[..|statuses| - 1]) + if statuses[|statuses| - 1] then 0 else 1
  }

  /** The indices of the clients that exited successfully. */
  function Succeeded(statuses: seq<bool>): seq<nat>
    decreases |statuses|
  {
    if |statuses| == 0 then []
    else Succeeded(statuses[..|statuses| - 1]) + if statuses[|statuses| - 1] then [|statuses| - 1] else []
  }

  /** No client failed exactly when all succeeded; every client either failed or succeeded. */
  lemma {:induction false} FailuresMeaning(statuses: seq<bool>)
    ensures Failures(statuses) == 0 <==> AllSucceeded(statuses)
    ensures Failures(statuses) + |Succeeded(statuses)| == |statuses|
    decreases |statuses|
  {
    if |statuses| > 0 {
      var init := statuses[..|statuses| - 1];
      FailuresMeaning(init);
      assert forall i :: 0 <= i < |init| ==> init[i] == statuses[i];
    }
  }

  /** `Succeeded` lists exactly the successful clients, in increasing order. */
  lemma {:induction false} SucceededMeaning(statuses: seq<bool>)
    ensures forall x: nat :: x in Succeeded(statuses) <==> x < |statuses| && statuses[x]
    ensures forall i, j :: 0 <= i < j < |Succeeded(statuses)| ==> Succeeded(statuses)[i] < Succeeded(statuses)[j]
    decreases |statuses|
  {
    if |statuses| > 0 {
      var init := statuses[..|statuses| - 1];
      SucceededMeaning(init);
      assert forall i :: 0 <= i < |init| ==> init[i] == statuses[i];
      var earlier := Succeeded(init);
      forall i | 0 <= i < |earlier|
        ensures earlier[i] < |init|
      {
        assert earlier[i] in earlier;
      }
    }
  }

  lemma FailuresStep(statuses: seq<bool>, i: nat)
    requires i < |statuses|
    ensures Failures(statuses[..i + 1]) == Failures(statuses[..i]) + if statuses[i] then 0 else 1
    ensures Succeeded(statuses[..i + 1]) == Succeeded(statuses[..i]) + if statuses[i] then [i] else []
    ensures AllSucceeded(statuses[..i + 1]) == (AllSucceeded(statuses[..i]) && statuses[i])
  {
    assert statuses[..i + 1][..i] == statuses[..i];
    assert statuses[..i + 1][i] == statuses[i];
  }

  /**
   * The loop that waits for every client: a client that exited unsuccessfully signals
   * overload and clears `all_ok`.
   */
  method AwaitClients(statuses: seq<bool>) returns (allOk: bool, failures: nat)
    ensures failures == Failures(statuses)
    ensures allOk == AllSucceeded(statuses)
  {
    allOk, failures := true, 0;
    var i := 0;
    while i < |statuses|
      invariant i <= |statuses| && failures == Failures(statuses[..i])
      invariant allOk == AllSucceeded(statuses[..i])
    {
      FailuresStep(statuses, i);
      if !statuses[i] {
        failures := failures + 1;
        allOk := false;
      }
      i := i + 1;
    }
    assert statuses[..i] == statuses;
  }

  /** The loop that copies the histograms: a client that exited unsuccessfully is skipped. */
  method SaveHistograms(statuses: seq<bool>) returns (saved: seq<nat>)
    ensures saved == Succeeded(statuses)
  {
    saved := [];
    var i := 0;
    while i < |statuses|
      invariant i <= |statuses| && saved == Succeeded(statuses[..i])
    {
      FailuresStep(statuses, i);
      if !statuses[i] {
        i := i + 1;
        continue;
      }
      saved := saved + [i];
      i := i + 1;
    }
    assert statuses[..i] == statuses;
  }

  // ------------------------------------------------------------ arguments

  /** invoke/vote.rs's backends. */
  datatype Backend = Netsoup(join: bool) | Redis | Hybrid

  /** The sub-command of the vote binary that selects the backend. */
  function BackendName(b: Backend): string {
    match b
    case Netsoup(_) => "netsoup"
    case Redis => "redis"
    case Hybrid => "hybrid"
  }

  /**
   * `vote_client`: the vote binary's own arguments first, then the backend's. Every backend
   * names the server's private address, and `None` stands for the `expect` that panics
   * when the server has none.
   */
  method VoteClient(b: Backend, privateIp: Option<string>, voteArgs: seq<string>) returns (cmd: Option<seq<string>>)
    ensures cmd.None? <==> privateIp.None?
    ensures cmd.Some? ==> |cmd.value| > |voteArgs| + 2 && cmd.value[..|voteArgs|] == voteArgs
                          && cmd.value[|voteArgs|] == BackendName(b)
    ensures cmd.Some? && b.Netsoup? ==> (cmd.value[|cmd.value| - 1] == "--no-join" <==> !b.join)
    ensures cmd.Some? && b.Netsoup? ==> cmd.value[|cmd.value| - (if b.join then 1 else 2)] == privateIp.value + ":2181"
    ensures cmd.Some? && !b.Netsoup? ==> cmd.value[|cmd.value| - 1] == privateIp.value
  {
    if privateIp.None? {
      return None;
    }
    var ip := privateIp.value;
    var args := voteArgs;
    match b {
      case Netsoup(join) =>
        args := args + ["netsoup", "--deployment", "benchmark", "--zookeeper", ip + ":2181"];
        assert (ip + ":2181")[|ip + ":2181"| - 1] == '1';
        if !join {
          args := args + ["--no-join"];
        }
      case Redis =>
        args := args + ["redis", "--address", ip];
      case Hybrid =>
        args := args + ["hybrid", "--mysql-address", "vote@" + ip + "/soup", "--redis-address", ip];
    }
    cmd := Some(args);
  }

  /**
   * The per-client target: the least whole number of operations per second that, given
   * to each client, adds up to at least the target.
   */
  function TargetPerClient(target: nat, clients: nat): (r: nat)
    requires clients > 0
    ensures r * clients >= target
    ensures r == 0 || (r - 1) * clients < target
  {
    CeilingDivision(target, clients);
    (target + clients - 1) / clients
  }

  lemma CeilingDivision(a: nat, b: nat)
    requires b > 0
    ensures ((a + b - 1) / b) * b >= a
    ensures (a + b - 1) / b == 0 || ((a + b - 1) / b - 1) * b < a
  {
    var q, m := (a + b - 1) / b, (a + b - 1) % b;
    assert a + b - 1 == q * b + m && 0 <= m < b;
    assert (q - 1) * b == q * b - b;
  }

  // ------------------------------------------------------------ vote-style runs

  /** The vote-style runs: vote_mem.rs's and vote.rs's inline bodies, and invoke/vote.rs's `run`. */
  datatype VoteRun = VoteMemRun | VoteSweepRun | InvokeVoteRun(backend: Backend)

  function Rule(run: VoteRun): SojournRule {
    match run
    case VoteMemRun => VoteMemRule
    case VoteSweepRun => VoteSweepRule
    case InvokeVoteRun(_) => InvokeVoteRule
  }

  /** vote.rs's body never looks at the exit signal; the other two do. */
  predicate Watches(run: VoteRun) {
    !run.VoteSweepRun?
  }

  /** The server-side processes whose memory use is measured: `noria-server`, `redis-server` and `mysqld`. */
  datatype Process = NoriaServer | RedisServer | Mysqld

  /** The process whose memory use is reported as the server's, and one measured before it. */
  datatype Measured = Measured(before: Option<Process>, server: Process)

  /** `vmrss_for`: the process measured for each backend (hybrid measures MySQL first). */
  function VmrssFor(b: Backend): Measured {
    match b
    case Netsoup(_) => Measured(None, NoriaServer)
    case Redis => Measured(None, RedisServer)
    case Hybrid => Measured(Some(Mysqld), RedisServer)
  }

  /**
   * What the remote side does during a vote-style run: whether priming succeeds; whether
   * the exit flag is set right after priming; the clients' stdout lines, one client after
   * the other; which rate fields fail to parse and which are too low for the per-client
   * target; `Some(n)` when
   * the exit signal arrives after `n` lines were read (at or beyond the last line it is the
   * flag seen set once the output ended); each client's exit status; whether the server's
   * one-minute load is high; the processes whose memory probe fails; whether the
   * connection check after such a failure passes; whether fetching the server stats times out.
   */
  datatype VoteEnv = VoteEnv(
    primeOk: bool, exitAfterPrime: bool,
    lines: seq<string>, rates: Rates, interrupt: Option<nat>,
    statuses: seq<bool>, highLoad: bool,
    unreadable: set<Process>, connected: bool, statsTimedOut: bool)

  /** The probe loop's outcome, the clients whose histograms were copied, and whether the stats file was written. */
  datatype VoteResult = VoteResult(outcome: Outcome, histograms: seq<nat>, stats: bool)

  /** How many lines of output are read: all of them, unless the exit signal arrives first. */
  function Cut(watches: bool, interrupt: Option<nat>, n: nat): (c: nat)
    ensures c <= n
    ensures !watches || interrupt.None? ==> c == n
  {
    if watches && interrupt.Some? && interrupt.value < n then interrupt.value else n
  }

  predicate Interrupted(run: VoteRun, env: VoteEnv) {
    Watches(run) && env.interrupt.Some?
  }

  function VoteRead(run: VoteRun, env: VoteEnv): seq<string> {
    env.lines[..Cut(Watches(run), env.interrupt, |env.lines|)]
  }

  /**
   * The memory probes once the clients are done: `None` when one returns an error,
   * otherwise the number of overload signals they raise. Only invoke/vote.rs tolerates a
   * failed server probe, as an overload, when the connection check still passes.
   */
  function MemorySignals(run: VoteRun, env: VoteEnv): Option<nat> {
    if !run.InvokeVoteRun? then (if NoriaServer in env.unreadable then None else Some(0))
    else
      var m := VmrssFor(run.backend);
      if m.before.Some? && m.before.value in env.unreadable then None
      else if m.server !in env.unreadable then Some(0)
      else if env.connected then Some(1)
      else None
  }

  /** The server stats are written only when every client succeeded, and by invoke/vote.rs only for Noria. */
  predicate WritesStats(run: VoteRun, statuses: seq<bool>) {
    AllSucceeded(statuses) && (run.InvokeVoteRun? ==> run.backend.Netsoup?)
  }

  /** The signals of invoke/vote.rs's wrap-up other than the clients': high load, a lost server, a stats timeout. */
  function WrapUpSignals(run: VoteRun, env: VoteEnv, memory: nat): nat {
    if !run.InvokeVoteRun? then memory
    else (if env.highLoad then 1 else 0) + memory + if WritesStats(run, env.statuses) && env.statsTimedOut then 1 else 0
  }

  /** What a vote-style run reports. */
  function VoteReport(run: VoteRun, env: VoteEnv): VoteResult {
    if !env.primeOk then VoteResult(Ran(1), [], false)
    else if Watches(run) && env.exitAfterPrime then VoteResult(Ran(0), [], false)
    else VoteAfterScan(run, env, VoteScan(Rule(run), env.rates, ClassifyLines(VoteRead(run, env))))
  }

  /** What is left once the output is read: a panic, an interruption, or the wrap-up. */
  function VoteAfterScan(run: VoteRun, env: VoteEnv, scan: Scan): VoteResult {
    if scan.ScanPanic? then VoteResult(Panicked, [], false)
    else if Interrupted(run, env) then VoteResult(Ran(scan.overloads), [], false)
    else VoteWrapUp(run, env, scan.overloads + if scan.gotLines then 0 else 1)
  }

  /** The wrap-up after `k` signals: the clients' statuses, the memory probes, the histograms and the stats. */
  function VoteWrapUp(run: VoteRun, env: VoteEnv, k: nat): VoteResult {
    var memory := MemorySignals(run, env);
    if memory.None? then VoteResult(Failed, [], false)
    else VoteResult(Ran(k + Failures(env.statuses) + WrapUpSignals(run, env, memory.value)),
                    Succeeded(env.statuses), WritesStats(run, env.statuses))
  }

  /** The memory probes, in the order the run makes them. */
  method ProbeMemory(run: VoteRun, env: VoteEnv) returns (signals: Option<nat>)
    ensures signals == MemorySignals(run, env)
  {
    if !run.InvokeVoteRun? {
      return if NoriaServer in env.unreadable then None else Some(0);
    }
    var m := VmrssFor(run.backend);
    if m.before.Some? && m.before.value in env.unreadable {
      return None;
    }
    if m.server !in env.unreadable {
      return Some(0);
    }
    // the server process probably crashed: an error unless the connection is still good
    return if env.connected then Some(1) else None;
  }

  /** One vote-style run, step by step. */
  method VoteRunBody(run: VoteRun, env: VoteEnv) returns (r: VoteResult)
    ensures r == VoteReport(run, env)
  {
    if !env.primeOk {
      return VoteResult(Ran(1), [], false);
    }
    if Watches(run) && env.exitAfterPrime {
      return VoteResult(Ran(0), [], false);
    }
    var read := env.lines[..Cut(Watches(run), env.interrupt, |env.lines|)];
    var scan := ScanVoteLines(Rule(run), env.rates, read);
    r := FinishVote(run, env, scan);
  }

  /** The run once the output is read. */
  method FinishVote(run: VoteRun, env: VoteEnv, scan: Scan) returns (r: VoteResult)
    ensures r == VoteAfterScan(run, env, scan)
  {
    if scan.ScanPanic? {
      return VoteResult(Panicked, [], false);
    }
    var overloads := scan.overloads;
    if Interrupted(run, env) {
      return VoteResult(Ran(overloads), [], false);
    }
    if !scan.gotLines {
      overloads := overloads + 1;
    }
    r := WrapUpVote(run, env, overloads);
  }

  /** The wrap-up, step by step. */
  method WrapUpVote(run: VoteRun, env: VoteEnv, k: nat) returns (r: VoteResult)
    ensures r == VoteWrapUp(run, env, k)
  {
    var allOk, failures := AwaitClients(env.statuses);
    var load := if run.InvokeVoteRun? && env.highLoad then 1 else 0;
    var memory := ProbeMemory(run, env);
    if memory.None? {
      return VoteResult(Failed, [], false);
    }
    var saved := SaveHistograms(env.statuses);
    var stats := allOk && (run.InvokeVoteRun? ==> run.backend.Netsoup?);
    var timedOut := if stats && run.InvokeVoteRun? && env.statsTimedOut then 1 else 0;
    assert stats == WritesStats(run, env.statuses);
    assert load + memory.value + timedOut == WrapUpSignals(run, env, memory.value);
    r := VoteResult(Ran(k + failures + load + memory.value + timedOut), saved, stats);
    assert VoteWrapUp(run, env, k) == VoteResult(Ran(k + Failures(env.statuses) + WrapUpSignals(run, env, memory.value)), Succeeded(env.statuses), WritesStats(run, env.statuses));
  }

  /**
   * Histograms are copied only for clients that exited successfully, in client order, and
   * the stats file is written only when every client succeeded; neither happens unless
   * priming succeeded and the run read all of its output.
   */
  lemma VoteSavedMeaning(run: VoteRun, env: VoteEnv)
    ensures var r := VoteReport(run, env);
      && (r.stats ==> AllSucceeded(env.statuses))
      && (forall x :: x in r.histograms ==> x < |env.statuses| && env.statuses[x])
      && (forall i, j :: 0 <= i < j < |r.histograms| ==> r.histograms[i] < r.histograms[j])
      && (r.histograms != [] || r.stats ==> r.outcome.Ran? && env.primeOk && !Interrupted(run, env))
  {
    SucceededMeaning(env.statuses);
  }

  /** The run reads every line, none of them panics, and the memory probes return. */
  predicate VoteCompletes(run: VoteRun, env: VoteEnv) {
    && env.primeOk && !(Watches(run) && env.exitAfterPrime) && !Interrupted(run, env)
    && (forall i :: 0 <= i < |ClassifyLines(env.lines)| ==> !Panics(env.rates, ClassifyLines(env.lines)[i]))
    && MemorySignals(run, env).Some?
  }

  /**
   * A completed run signals once per high-latency sample and low rate line, once more when
   * no sample parsed, once per failed client, and (invoke/vote.rs) for high load, a lost
   * server and a stats timeout.
   */
  lemma VoteSignalSources(run: VoteRun, env: VoteEnv)
    requires VoteCompletes(run, env)
    ensures var cs := ClassifyLines(env.lines);
      VoteReport(run, env).outcome
      == Ran(VoteSignals(Rule(run), env.rates, cs)
             + (if exists i :: 0 <= i < |cs| && cs[i].Sample? then 0 else 1)
             + Failures(env.statuses)
             + WrapUpSignals(run, env, MemorySignals(run, env).value))
  {
    assert VoteRead(run, env) == env.lines;
    VoteScanMeaning(Rule(run), env.rates, ClassifyLines(env.lines));
  }

  /**
   * A completed run raises no overload signal exactly when some sample parsed, no sample
   * has a high latency, no rate line is low, every client succeeded and, for invoke/vote.rs,
   * the load is normal, the server's memory was read and the stats did not time out.
   */
  lemma VoteCleanIff(run: VoteRun, env: VoteEnv)
    requires VoteCompletes(run, env)
    ensures var cs := ClassifyLines(env.lines);
      VoteReport(run, env).outcome == Ran(0)
      <==> && (exists i :: 0 <= i < |cs| && cs[i].Sample?)
           && (forall i :: 0 <= i < |cs| ==> !(cs[i].Sample? && HighSojourn(Rule(run), cs[i].pct, cs[i].sjrn)))
           && (forall i :: 0 <= i < |cs| ==> !(cs[i].RateLine? && cs[i].rate in env.rates.low))
           && AllSucceeded(env.statuses)
           && (run.InvokeVoteRun? ==>
                 !env.highLoad && VmrssFor(run.backend).server !in env.unreadable
                 && !(WritesStats(run, env.statuses) && env.statsTimedOut))
  {
    VoteSignalSources(run, env);
    FailuresMeaning(env.statuses);
    VoteSignalsZeroIff(Rule(run), env.rates, ClassifyLines(env.lines));
  }

  /**
   * Once priming is done, a run panics exactly when a line it reads has no fields or a rate
   * field that does not parse; the wrap-up never panics.
   */
  lemma VotePanicIff(run: VoteRun, env: VoteEnv)
    requires env.primeOk && !(Watches(run) && env.exitAfterPrime)
    ensures var cs := ClassifyLines(VoteRead(run, env));
      VoteReport(run, env).outcome == Panicked <==> exists i :: 0 <= i < |cs| && Panics(env.rates, cs[i])
  {
    VoteScanMeaning(Rule(run), env.rates, ClassifyLines(VoteRead(run, env)));
  }

  /**
   * A run cut short by the exit signal saves nothing and skips the later overload paths: it
   * reports only the signals of the lines read so far (or the panic one of them causes).
   */
  lemma VoteInterruptedSignals(run: VoteRun, env: VoteEnv)
    requires env.primeOk && !env.exitAfterPrime && Interrupted(run, env)
    ensures var cs := ClassifyLines(VoteRead(run, env));
      VoteReport(run, env)
      == if exists i :: 0 <= i < |cs| && Panics(env.rates, cs[i]) then VoteResult(Panicked, [], false)
         else VoteResult(Ran(VoteSignals(Rule(run), env.rates, cs)), [], false)
  {
    VoteScanMeaning(Rule(run), env.rates, ClassifyLines(VoteRead(run, env)));
  }

  /**
   * vote_mem.rs: a run cut short by the exit signal before any overload signal does not clear
   * the pending slot, so when `next()` yields again the interrupted limit is committed and is
   * the result once the top-of-loop exit check fires.
   */
  lemma InterruptedLimitCommitted(target: nat, searched: seq<nat>, rounds: seq<Round>, j: nat, env: VoteEnv)
    requires |rounds| == |Probes(VoteMem(target), searched)|
    requires j + 1 < |Probes(VoteMem(target), searched)| && j < FirstHalt(VoteMem(target), Probes(VoteMem(target), searched), rounds, 0)
    requires !Bypassed(VoteMem(target), Probes(VoteMem(target), searched)[j])
    requires rounds[j] == Round(false, VoteReport(VoteMemRun, env).outcome)
    requires env.primeOk && !env.exitAfterPrime && env.interrupt.Some?
    requires var cs := ClassifyLines(VoteRead(VoteMemRun, env));
      forall i :: 0 <= i < |cs| ==>
        !Panics(env.rates, cs[i]) && !(cs[i].Sample? && HighSojourn(VoteMemRule, cs[i].pct, cs[i].sjrn)) && !(cs[i].RateLine? && cs[i].rate in env.rates.low)
    requires !Bypassed(VoteMem(target), Probes(VoteMem(target), searched)[j + 1]) && rounds[j + 1].exiting
    ensures Explored(VoteMem(target), searched, rounds).verdict == LastGood(Probes(VoteMem(target), searched)[j])
  {
    var cs := ClassifyLines(VoteRead(VoteMemRun, env));
    VoteInterruptedSignals(VoteMemRun, env);
    VoteSignalsZeroIff(VoteMemRule, env.rates, cs);
    assert rounds[j] == Round(false, Ran(0));
    CommittedBeforeExit(VoteMem(target), searched, rounds, j);
  }

  // ------------------------------------------------------------ lobsters-style runs

  /** invoke/lobsters.rs's `run`, lobsters_noria_mem.rs's inline body and lobsters_noria.rs's. */
  datatype LobstersRun = InvokeLobstersRun | LobstersMemRun | LobstersSweepRun

  /** The 95th-percentile sojourn time above which a run is overloaded (µs; lobsters_noria.rs reads ms). */
  function Limit(run: LobstersRun): nat {
    if run.LobstersSweepRun? then 200 else 200_000
  }

  /** lobsters_noria.rs's body never looks at the exit signal and also warms up after priming. */
  predicate WatchesLobsters(run: LobstersRun) {
    !run.LobstersSweepRun?
  }

  /**
   * What the remote side does during a lobsters-style run: whether the exit signal arrives
   * while priming; whether priming and warming succeed; the client's stdout lines; which
   * throughput fields fail to parse and whether the throughput is low once both throughput
   * lines are read; `Some(n)` when the exit
   * signal arrives after `n` lines; the client's exit status; the processes whose memory
   * probe fails.
   */
  datatype LobstersEnv = LobstersEnv(
    exitDuringPrime: bool, primeOk: bool, warmOk: bool,
    lines: seq<string>, throughput: Throughput, interrupt: Option<nat>,
    statusOk: bool, unreadable: set<Process>)

  /** The probe loop's outcome, and whether the histogram and the server stats were saved. */
  datatype LobstersResult = LobstersResult(outcome: Outcome, saved: bool)

  predicate LobstersInterrupted(run: LobstersRun, env: LobstersEnv) {
    WatchesLobsters(run) && env.interrupt.Some?
  }

  function LobstersRead(run: LobstersRun, env: LobstersEnv): seq<string> {
    env.lines[..Cut(WatchesLobsters(run), env.interrupt, |env.lines|)]
  }

  /** What a lobsters-style run reports. */
  function LobstersReport(run: LobstersRun, env: LobstersEnv): LobstersResult {
    if WatchesLobsters(run) && env.exitDuringPrime then LobstersResult(Ran(0), false)
    else if !env.primeOk || (run.LobstersSweepRun? && !env.warmOk) then LobstersResult(Ran(1), false)
    else LobstersAfterScan(run, env, LobstersScan(Limit(run), env.throughput, ReadLines(LobstersRead(run, env))))
  }

  /** What is left once the output is read: a panic, an error, an interruption, or the throughput and status checks. */
  function LobstersAfterScan(run: LobstersRun, env: LobstersEnv, st: LobstersState): LobstersResult {
    if st.LobstersPanic? then LobstersResult(Panicked, false)
    else if st.LobstersError? then LobstersResult(Failed, false)
    else if LobstersInterrupted(run, env) then LobstersResult(Ran(st.overloads), false)
    else if NoriaServer in env.unreadable then LobstersResult(Failed, false)
    else
      var k := st.overloads + (if st.target && st.actual then 0 else 1) + (if env.statusOk then 0 else 1);
      LobstersResult(Ran(k), env.statusOk)
  }

  /** One lobsters-style run, step by step. */
  method LobstersRunBody(run: LobstersRun, env: LobstersEnv) returns (r: LobstersResult)
    ensures r == LobstersReport(run, env)
  {
    if WatchesLobsters(run) && env.exitDuringPrime {
      return LobstersResult(Ran(0), false);
    }
    if !env.primeOk {
      return LobstersResult(Ran(1), false);
    }
    if run.LobstersSweepRun? && !env.warmOk {
      return LobstersResult(Ran(1), false);
    }
    var read := env.lines[..Cut(WatchesLobsters(run), env.interrupt, |env.lines|)];
    var st := ScanLobstersLines(Limit(run), env.throughput, read);
    r := FinishLobsters(run, env, st);
  }

  /** The run once the output is read. */
  method FinishLobsters(run: LobstersRun, env: LobstersEnv, st: LobstersState) returns (r: LobstersResult)
    ensures r == LobstersAfterScan(run, env, st)
  {
    if st.LobstersPanic? {
      return LobstersResult(Panicked, false);
    }
    if st.LobstersError? {
      return LobstersResult(Failed, false);
    }
    var overloads := st.overloads;
    if LobstersInterrupted(run, env) {
      return LobstersResult(Ran(overloads), false);
    }
    if !st.target || !st.actual {
      overloads := overloads + 1;
    }
    if !env.statusOk {
      overloads := overloads + 1;
    }
    if NoriaServer in env.unreadable {
      return LobstersResult(Failed, false);
    }
    r := LobstersResult(Ran(overloads), env.statusOk);
  }

  /** The run gets past priming, reads every line, no line stops the scan, and the memory probe returns. */
  predicate LobstersCompletes(run: LobstersRun, env: LobstersEnv) {
    && !(WatchesLobsters(run) && env.exitDuringPrime) && env.primeOk && (run.LobstersSweepRun? ==> env.warmOk)
    && !LobstersInterrupted(run, env)
    && (forall i :: 0 <= i < |ReadLines(env.lines)| ==> !StopsAt(env.throughput, ReadLines(env.lines), i))
    && NoriaServer !in env.unreadable
  }

  /**
   * A completed run raises no overload signal exactly when both throughput lines appear,
   * the throughput is not low, no 95th-percentile sojourn time exceeds the limit and the
   * client exits successfully; the histogram is saved exactly when the client succeeded.
   */
  lemma LobstersCleanIff(run: LobstersRun, env: LobstersEnv)
    requires LobstersCompletes(run, env)
    ensures var ls := ReadLines(env.lines);
      LobstersReport(run, env).outcome == Ran(0)
      <==> && (exists i :: 0 <= i < |ls| && ls[i].target)
           && (exists i :: 0 <= i < |ls| && ls[i].generated)
           && !env.throughput.low
           && (forall i :: 0 <= i < |ls| ==> !(ls[i].sojourn.Latency? && ls[i].sojourn.value > Limit(run)))
           && env.statusOk
    ensures LobstersReport(run, env).saved == env.statusOk
  {
    var ls := ReadLines(env.lines);
    assert LobstersRead(run, env) == env.lines;
    ReadLinesExclusive(env.lines);
    LobstersRunningIff(Limit(run), env.throughput, ls);
    LobstersScanMeaning(Limit(run), env.throughput, ls);
    HighLatenciesZeroIff(Limit(run), ls);
  }

  /**
   * Once priming (and warming) is done, the first line read that stops the scan decides the
   * outcome: an unparsable throughput field makes the run an error, a failed assertion a panic.
   */
  lemma LobstersStopOutcome(run: LobstersRun, env: LobstersEnv, i: nat)
    requires !(WatchesLobsters(run) && env.exitDuringPrime) && env.primeOk && (run.LobstersSweepRun? ==> env.warmOk)
    requires var ls := ReadLines(LobstersRead(run, env));
      i < |ls| && StopsAt(env.throughput, ls, i) && forall j :: 0 <= j < i ==> !StopsAt(env.throughput, ls, j)
    ensures LobstersReport(run, env).outcome == if RateFails(env.throughput, ReadLines(LobstersRead(run, env)), i) then Failed else Panicked
  {
    var ls := ReadLines(LobstersRead(run, env));
    ReadLinesExclusive(LobstersRead(run, env));
    var st := LobstersScan(Limit(run), env.throughput, ls);
    assert st == if RateFails(env.throughput, ls, i) then LobstersError else LobstersPanic by {
      LobstersFirstStop(Limit(run), env.throughput, ls, i);
    }
    assert LobstersReport(run, env) == LobstersAfterScan(run, env, st);
  }

  /** The exit signal during priming, or a failed prime or warm-up, ends the run before the benchmark. */
  lemma LobstersEarlyEnd(run: LobstersRun, env: LobstersEnv)
    ensures WatchesLobsters(run) && env.exitDuringPrime ==> LobstersReport(run, env) == LobstersResult(Ran(0), false)
    ensures !(WatchesLobsters(run) && env.exitDuringPrime) && (!env.primeOk || (run.LobstersSweepRun? && !env.warmOk))
            ==> LobstersReport(run, env) == LobstersResult(Ran(1), false)
    ensures run.LobstersSweepRun? ==> LobstersReport(run, env) == LobstersReport(run, env.(exitDuringPrime := !env.exitDuringPrime, interrupt := None))
  {
  }
}
