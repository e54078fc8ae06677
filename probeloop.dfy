/**
 * The probe loop shared by the adaptive experiment drivers (vote_mem, lobsters_noria_mem,
 * vote_hybrid, vote_redis, lobsters_mysql): each value the searcher hands out is first
 * recorded as the pending success; the previous pending value, if it survived, is
 * committed as the last good one at the top of the next iteration; some values are
 * skipped; the exit flag is checked; then the probe runs, and every overload signal it
 * raises marks the searcher and clears the pending slot.
 *
 * A run is an oracle here: per iteration, whether the exit flag is set at the check and
 * what the run did (how many overload signals it raised, or that it failed with an error
 * or a panic). The drivers' run bodies are modelled in the Runs module.
 */
module ProbeLoop {
  import opened Wrappers
  import opened Search
  import Timelines

  /** The drivers with a pending/last-good loop, with the parameter their skip rule reads. */
  datatype Driver =
    | VoteMem(target: nat)      // vote_mem.rs: probes memory limits for one target
    | LobstersMem(scale: nat)   // lobsters_noria_mem.rs: probes memory limits for one scale
    | Hybrid                    // vote_hybrid.rs: probes targets
    | Redis                     // vote_redis.rs: probes targets
    | Mysql                     // lobsters_mysql.rs: probes scales

  /** What one run did: raised `overloads` overload signals and returned, or returned an error, or panicked. */
  datatype Outcome = Ran(overloads: nat) | Failed | Panicked

  /** What the environment does in one iteration: the exit flag at the check, and the run's outcome. */
  datatype Round = Round(exiting: bool, outcome: Outcome)

  /** What `one` returns: `Ok(last_good)`, an error, or no value at all because of a panic. */
  datatype Verdict = LastGood(value: nat) | Errored | Aborted

  /** The searcher values and the overload log of one exploration. */
  datatype Trace = Trace(verdict: Verdict, marks: seq<nat>)

  /** Rust's `usize::is_power_of_two` (0 is not a power of two). */
  predicate IsPowerOfTwo(n: nat)
    decreases n
  {
    n == 1 || (n >= 2 && n % 2 == 0 && IsPowerOfTwo(n / 2))
  }

  /** `IsPowerOfTwo` holds exactly for the values `2^k`. */
  lemma PowerOfTwoIff(n: nat)
    ensures IsPowerOfTwo(n) <==> exists k: nat :: n == Timelines.Pow2(k)
  {
    if IsPowerOfTwo(n) {
      var k := Log2(n);
      assert n == Timelines.Pow2(k);
    }
    if exists k: nat :: n == Timelines.Pow2(k) {
      var k: nat :| n == Timelines.Pow2(k);
      PowersOfTwo(k);
      assert IsPowerOfTwo(n);
    }
  }

  /** The exponent of a power of two. */
  function Log2(n: nat): (k: nat)
    requires IsPowerOfTwo(n)
    ensures Timelines.Pow2(k) == n
    decreases n
  {
    if n == 1 then 0 else Log2(n / 2) + 1
  }

  lemma {:induction false} PowersOfTwo(k: nat)
    ensures IsPowerOfTwo(Timelines.Pow2(k))
  {
    if k > 0 {
      PowersOfTwo(k - 1);
      assert Timelines.Pow2(k) / 2 == Timelines.Pow2(k - 1);
    }
  }

  /** The memory-limit drivers try the unlimited probe 0 before anything the searcher hands out. */
  predicate ZeroFirst(d: Driver) {
    d.VoteMem? || d.LobstersMem?
  }

  /** The probes of one exploration, in order, given the values the searcher hands out. */
  function Probes(d: Driver, searched: seq<nat>): (r: seq<nat>)
    ensures ZeroFirst(d) ==> |r| == |searched| + 1 && r[0] == 0 && r[1..] == searched
    ensures !ZeroFirst(d) ==> r == searched
  {
    if ZeroFirst(d) then [0] + searched else searched
  }

  /** Probes skipped with `continue` and without an overload signal: results the authors already had. */
  predicate Skipped(d: Driver, p: nat) {
    match d
    case VoteMem(target) => p == 0 && target % 1000 == 0 && IsPowerOfTwo(target / 1000)
    case LobstersMem(scale) => p == 0 && scale % 500 == 0 && IsPowerOfTwo(scale / 500)
    case Hybrid => p == 100_000 || p == 200_000 || p == 400_000 || p == 800_000 || p == 1_200_000
    case Redis => false
    case Mysql => false
  }

  /** Hybrid targets known to fail: the searcher is marked, but the pending slot is kept. */
  predicate KnownBad(d: Driver, p: nat) {
    d.Hybrid? && (p == 1_600_000 || p == 1_400_000)
  }

  /** Both kinds of `continue` come before the exit check. */
  predicate Bypassed(d: Driver, p: nat) {
    Skipped(d, p) || KnownBad(d, p)
  }

  /** The searcher's `served` count while iteration `i` is under way. */
  function ServedAt(d: Driver, i: nat): nat {
    if ZeroFirst(d) then i else i + 1
  }

  function Repeat(x: nat, k: nat): (r: seq<nat>)
    ensures |r| == k && forall j :: 0 <= j < k ==> r[j] == x
  {
    seq(k, _ => x)
  }

  function Prepend(pre: seq<nat>, t: Trace): Trace {
    Trace(t.verdict, pre + t.marks)
  }

  /** What one iteration does: end the loop with a verdict, or signal overload some times and go on. */
  datatype Step = Halt(verdict: Verdict) | Continue(signals: seq<nat>, lastGood: nat, pending: Option<nat>)

  /**
   * One iteration for probe `p`, with `served` values handed out so far and `lastGood` and
   * `pending` as they are at its top: commit the pending probe, then the two kinds of
   * `continue`, the exit check, and the run with its overload callback.
   */
  function Iteration(d: Driver, p: nat, served: nat, round: Round, lastGood: nat, pending: Option<nat>): Step {
    var committed := Committed(lastGood, pending);
    if Skipped(d, p) then Continue([], committed, Some(p))
    else if KnownBad(d, p) then Continue([served], committed, Some(p))
    else if round.exiting then Halt(LastGood(committed))
    else match round.outcome
      case Failed => Halt(Errored)
      case Panicked => Halt(Aborted)
      case Ran(k) => Continue(Repeat(served, k), committed, if k > 0 then None else Some(p))
  }

  /** The value committed at the top of an iteration. */
  function Committed(lastGood: nat, pending: Option<nat>): nat {
    if pending.Some? then pending.value else lastGood
  }

  /**
   * The loop from iteration `i` on, with the committed `lastGood` and the `pending` slot
   * as they are at the top of that iteration.
   */
  function Drive(d: Driver, probes: seq<nat>, rounds: seq<Round>, i: nat, lastGood: nat, pending: Option<nat>): (t: Trace)
    requires i <= |probes| == |rounds|
    decreases |probes| - i
  {
    if i == |probes| then Trace(LastGood(lastGood), [])
    else match Iteration(d, probes[i], ServedAt(d, i), rounds[i], lastGood, pending)
      case Halt(v) => Trace(v, [])
      case Continue(signals, lastGood', pending') => Prepend(signals, Drive(d, probes, rounds, i + 1, lastGood', pending'))
  }

  /** The whole exploration: nothing committed and nothing pending before the first iteration. */
  function Explored(d: Driver, searched: seq<nat>, rounds: seq<Round>): Trace
    requires |rounds| == |Probes(d, searched)|
  {
    Drive(d, Probes(d, searched), rounds, 0, 0, None)
  }

  // ------------------------------------------------------------ reference characterisation

  /** Iteration `j` leaves its probe in the pending slot: it was skipped, or it ran to completion without an overload signal. */
  predicate Commits(d: Driver, probes: seq<nat>, rounds: seq<Round>, j: nat)
    requires j < |probes| == |rounds|
  {
    Bypassed(d, probes[j]) || rounds[j] == Round(false, Ran(0))
  }

  /** Iteration `j` ends the loop: the exit check fires, or the run fails. */
  predicate Halts(d: Driver, probes: seq<nat>, rounds: seq<Round>, j: nat)
    requires j < |probes| == |rounds|
  {
    !Bypassed(d, probes[j]) && (rounds[j].exiting || !rounds[j].outcome.Ran?)
  }

  /** The first iteration at or after `i` that ends the loop, or `|probes|` when none does. */
  function FirstHalt(d: Driver, probes: seq<nat>, rounds: seq<Round>, i: nat): (h: nat)
    requires i <= |probes| == |rounds|
    ensures i <= h <= |probes|
    ensures h < |probes| ==> Halts(d, probes, rounds, h)
    ensures forall j :: i <= j < h ==> !Halts(d, probes, rounds, j)
    decreases |probes| - i
  {
    if i == |probes| || Halts(d, probes, rounds, i) then i else FirstHalt(d, probes, rounds, i + 1)
  }

  /** The probe of the latest committing iteration before `n`, or 0 when there is none. */
  function LastCommit(d: Driver, probes: seq<nat>, rounds: seq<Round>, n: nat): nat
    requires n <= |probes| == |rounds|
  {
    if n == 0 then 0
    else if Commits(d, probes, rounds, n - 1) then probes[n - 1]
    else LastCommit(d, probes, rounds, n - 1)
  }

  /**
   * What the loop returns when started at iteration `i`, stated without the loop: the first
   * iteration that ends it decides; an exit returns the latest committing probe before it;
   * running out of probes returns the latest committing probe before the final one.
   */
  function Expected(d: Driver, probes: seq<nat>, rounds: seq<Round>, i: nat): Verdict
    requires i <= |probes| == |rounds|
  {
    var h := FirstHalt(d, probes, rounds, i);
    if h == |probes| then LastGood(LastCommit(d, probes, rounds, if h == 0 then 0 else h - 1))
    else if rounds[h].exiting then LastGood(LastCommit(d, probes, rounds, h))
    else if rounds[h].outcome.Failed? then Errored
    else Aborted
  }

  /** An iteration that does not end the loop hands on its commit and its pending slot. */
  lemma DriveStep(d: Driver, probes: seq<nat>, rounds: seq<Round>, i: nat, lastGood: nat, pending: Option<nat>)
    requires i < |probes| == |rounds| && !Halts(d, probes, rounds, i)
    ensures Drive(d, probes, rounds, i, lastGood, pending).verdict
         == Drive(d, probes, rounds, i + 1, Committed(lastGood, pending),
                  if Commits(d, probes, rounds, i) then Some(probes[i]) else None).verdict
  {
  }

  /** An iteration that ends the loop decides the verdict. */
  lemma DriveHalt(d: Driver, probes: seq<nat>, rounds: seq<Round>, i: nat, lastGood: nat, pending: Option<nat>)
    requires i < |probes| == |rounds| && Halts(d, probes, rounds, i)
    ensures Drive(d, probes, rounds, i, lastGood, pending).verdict
         == if rounds[i].exiting then LastGood(Committed(lastGood, pending))
            else if rounds[i].outcome.Failed? then Errored else Aborted
  {
  }

  /** The commit state the earlier iterations leave commits the latest committing probe before `i`. */
  lemma CommittedIsLastCommit(d: Driver, probes: seq<nat>, rounds: seq<Round>, i: nat, lastGood: nat, pending: Option<nat>)
    requires i <= |probes| == |rounds|
    requires lastGood == LastCommit(d, probes, rounds, if i == 0 then 0 else i - 1)
    requires pending == if i > 0 && Commits(d, probes, rounds, i - 1) then Some(probes[i - 1]) else None
    ensures Committed(lastGood, pending) == LastCommit(d, probes, rounds, i)
  {
  }

  /** The reference from an iteration that does not end the loop is the reference from the next one. */
  lemma ExpectedStep(d: Driver, probes: seq<nat>, rounds: seq<Round>, i: nat)
    requires i < |probes| == |rounds| && !Halts(d, probes, rounds, i)
    ensures Expected(d, probes, rounds, i) == Expected(d, probes, rounds, i + 1)
  {
  }

  /** The reference from an iteration that ends the loop. */
  lemma ExpectedHalt(d: Driver, probes: seq<nat>, rounds: seq<Round>, i: nat)
    requires i < |probes| == |rounds| && Halts(d, probes, rounds, i)
    ensures Expected(d, probes, rounds, i)
         == if rounds[i].exiting then LastGood(LastCommit(d, probes, rounds, i))
            else if rounds[i].outcome.Failed? then Errored else Aborted
  {
  }

  /** The loop from iteration `i` agrees with the reference, given the commit state the earlier iterations leave. */
  lemma {:induction false} DriveFollowsReference(d: Driver, probes: seq<nat>, rounds: seq<Round>, i: nat, lastGood: nat, pending: Option<nat>)
    requires i <= |probes| == |rounds|
    requires lastGood == LastCommit(d, probes, rounds, if i == 0 then 0 else i - 1)
    requires pending == if i > 0 && Commits(d, probes, rounds, i - 1) then Some(probes[i - 1]) else None
    ensures Drive(d, probes, rounds, i, lastGood, pending).verdict == Expected(d, probes, rounds, i)
    decreases |probes| - i
  {
    if i < |probes| {
      CommittedIsLastCommit(d, probes, rounds, i, lastGood, pending);
      if Halts(d, probes, rounds, i) {
        DriveHalt(d, probes, rounds, i, lastGood, pending);
        ExpectedHalt(d, probes, rounds, i);
      } else {
        DriveStep(d, probes, rounds, i, lastGood, pending);
        ExpectedStep(d, probes, rounds, i);
        DriveFollowsReference(d, probes, rounds, i + 1, Committed(lastGood, pending),
                              if Commits(d, probes, rounds, i) then Some(probes[i]) else None);
      }
    }
  }

  /** The exploration returns exactly the reference verdict. */
  lemma ExploredIsExpected(d: Driver, searched: seq<nat>, rounds: seq<Round>)
    requires |rounds| == |Probes(d, searched)|
    ensures Explored(d, searched, rounds).verdict == Expected(d, Probes(d, searched), rounds, 0)
  {
    DriveFollowsReference(d, Probes(d, searched), rounds, 0, 0, None);
  }

  /** `LastCommit` is the probe of the latest committing iteration, and 0 when no iteration commits. */
  lemma {:induction false} LastCommitIsLatest(d: Driver, probes: seq<nat>, rounds: seq<Round>, n: nat)
    requires n <= |probes| == |rounds|
    ensures (forall j :: 0 <= j < n ==> !Commits(d, probes, rounds, j)) ==> LastCommit(d, probes, rounds, n) == 0
    ensures (exists j :: 0 <= j < n && Commits(d, probes, rounds, j)) ==>
      exists j :: 0 <= j < n && Commits(d, probes, rounds, j) && LastCommit(d, probes, rounds, n) == probes[j]
        && forall k :: j < k < n ==> !Commits(d, probes, rounds, k)
  {
    if n > 0 && !Commits(d, probes, rounds, n - 1) {
      LastCommitIsLatest(d, probes, rounds, n - 1);
    }
  }

  /**
   * The value returned is 0 or the probe of an iteration that committed and was followed by
   * another iteration before the loop ended: the final probe is never committed.
   */
  lemma VerdictIsCommittedProbe(d: Driver, searched: seq<nat>, rounds: seq<Round>, x: nat)
    requires |rounds| == |Probes(d, searched)|
    requires Explored(d, searched, rounds).verdict == LastGood(x)
    ensures x == 0 || exists j :: 0 <= j && j + 1 < |Probes(d, searched)| && j < FirstHalt(d, Probes(d, searched), rounds, 0)
                                  && Commits(d, Probes(d, searched), rounds, j) && x == Probes(d, searched)[j]
  {
    var probes := Probes(d, searched);
    ExploredIsExpected(d, searched, rounds);
    var h := FirstHalt(d, probes, rounds, 0);
    var n := if h == |probes| then (if h == 0 then 0 else h - 1) else h;
    LastCommitIsLatest(d, probes, rounds, n);
  }

  /**
   * A committing iteration followed by an iteration whose exit check fires is the result —
   * in particular a run cut short by exit (no overload signal), and a skipped probe.
   */
  lemma CommittedBeforeExit(d: Driver, searched: seq<nat>, rounds: seq<Round>, j: nat)
    requires |rounds| == |Probes(d, searched)|
    requires j + 1 < |Probes(d, searched)| && j < FirstHalt(d, Probes(d, searched), rounds, 0)
    requires Commits(d, Probes(d, searched), rounds, j)
    requires !Bypassed(d, Probes(d, searched)[j + 1]) && rounds[j + 1].exiting
    ensures Explored(d, searched, rounds).verdict == LastGood(Probes(d, searched)[j])
  {
    var probes := Probes(d, searched);
    ExploredIsExpected(d, searched, rounds);
    assert Halts(d, probes, rounds, j + 1);
    assert FirstHalt(d, probes, rounds, 0) == j + 1;
  }

  /** A run that raises an overload signal never becomes the result through its own iteration. */
  lemma ClearedProbeNotCommitted(d: Driver, probes: seq<nat>, rounds: seq<Round>, j: nat)
    requires j < |probes| == |rounds|
    requires !Bypassed(d, probes[j]) && rounds[j].outcome.Ran? && rounds[j].outcome.overloads > 0
    ensures !Commits(d, probes, rounds, j)
  {
  }

  // ------------------------------------------------------------ the drivers' loop

  /**
   * The `while let Some(p) = …next()` loop of `one`: the searcher hands out `searched`,
   * and `rounds[i]` says what happens in iteration `i`. Returns the verdict and the
   * searcher's overload log.
   */
  method Explore(d: Driver, searched: seq<nat>, rounds: seq<Round>) returns (v: Verdict, marks: seq<nat>)
    requires |rounds| == |Probes(d, searched)|
    ensures Trace(v, marks) == Explored(d, searched, rounds)
  {
    ghost var probes := Probes(d, searched);
    var s := new Searcher(searched);
    var lastGood := 0;
    var pending: Option<nat> := None;
    var zero: Option<nat> := if ZeroFirst(d) then Some(0) else None;
    var i := 0;
    while true
      invariant i <= |probes|
      invariant zero == (if ZeroFirst(d) && i == 0 then Some(0) else None)
      invariant s.served + (if ZeroFirst(d) && i > 0 then 1 else 0) == i
      invariant s.served <= |searched| && s.queue == searched[s.served..]
      invariant Prepend(s.marks, Drive(d, probes, rounds, i, lastGood, pending)) == Explored(d, searched, rounds)
      decreases |s.queue| + (if zero.Some? then 1 else 0)
    {
      var p: nat;
      if zero.Some? {
        p := zero.value;
        zero := None;
      } else {
        var next := s.Next();
        if next.None? {
          break;
        }
        p := next.value;
      }
      assert p == probes[i] && s.served == ServedAt(d, i);
      ghost var before, lastGood0, pending0 := s.marks, lastGood, pending;
      var stop;
      stop, v, lastGood, pending := Iterate(d, s, p, rounds[i], lastGood, pending);
      DriveUnfolds(d, probes, rounds, i, lastGood0, pending0, before);
      if stop {
        marks := s.marks;
        return;
      }
      i := i + 1;
    }
    v, marks := LastGood(lastGood), s.marks;
  }

  /** The loop from iteration `i`: that iteration's step, then (unless it halts) the loop from `i + 1`. */
  lemma DriveUnfolds(d: Driver, probes: seq<nat>, rounds: seq<Round>, i: nat, lastGood: nat, pending: Option<nat>, before: seq<nat>)
    requires i < |probes| == |rounds|
    ensures var step := Iteration(d, probes[i], ServedAt(d, i), rounds[i], lastGood, pending);
      Prepend(before, Drive(d, probes, rounds, i, lastGood, pending))
      == if step.Halt? then Trace(step.verdict, before)
         else Prepend(before + step.signals, Drive(d, probes, rounds, i + 1, step.lastGood, step.pending))
  {
    var step := Iteration(d, probes[i], ServedAt(d, i), rounds[i], lastGood, pending);
    if step.Halt? {
      assert before + [] == before;
    } else {
      var rest := Drive(d, probes, rounds, i + 1, step.lastGood, step.pending).marks;
      assert before + (step.signals + rest) == before + step.signals + rest;
    }
  }

  /** The body of one iteration, after `next()` handed out `p`. */
  method Iterate(d: Driver, s: Searcher, p: nat, round: Round, lastGood: nat, pending: Option<nat>)
    returns (stop: bool, v: Verdict, lastGood': nat, pending': Option<nat>)
    modifies s
    ensures s.queue == old(s.queue) && s.served == old(s.served)
    ensures var step := Iteration(d, p, old(s.served), round, lastGood, pending);
      if stop then step == Halt(v) && s.marks == old(s.marks)
      else step.Continue? && s.marks == old(s.marks) + step.signals && step.lastGood == lastGood' && step.pending == pending'
  {
    lastGood' := lastGood;
    if pending.Some? {
      // the previous probe survived: commit it
      lastGood' := pending.value;
    }
    pending' := Some(p);
    stop, v := false, LastGood(lastGood');
    if Skipped(d, p) {
      return;
    }
    if KnownBad(d, p) {
      s.Overloaded();
      return;
    }
    if round.exiting {
      stop := true;
      return;
    }
    match round.outcome
    case Failed =>
      stop, v := true, Errored;
    case Panicked =>
      stop, v := true, Aborted;
    case Ran(k) =>
      // the overload callback, once per signal: mark the searcher and clear the pending slot
      Signal(s, k);
      if k > 0 {
        pending' := None;
      }
  }

  /** `k` calls of the overload callback's `overloaded()` on the searcher. */
  method Signal(s: Searcher, k: nat)
    modifies s
    ensures s.marks == old(s.marks) + Repeat(old(s.served), k)
    ensures s.queue == old(s.queue) && s.served == old(s.served)
  {
    var c := 0;
    while c < k
      invariant c <= k && s.marks == old(s.marks) + Repeat(s.served, c)
      invariant s.queue == old(s.queue) && s.served == old(s.served)
    {
      s.Overloaded();
      assert Repeat(s.served, c + 1) == Repeat(s.served, c) + [s.served];
      c := c + 1;
    }
  }

  /** lobsters_mysql.rs: one receive on the exit channel before anything starts; only `Some(false)` goes on. */
  method MysqlOne(firstRecv: Option<bool>, searched: seq<nat>, rounds: seq<Round>) returns (v: Verdict, marks: seq<nat>)
    requires |rounds| == |searched|
    ensures firstRecv != Some(false) ==> v == LastGood(0) && marks == []
    ensures firstRecv == Some(false) ==> Trace(v, marks) == Explored(Mysql, searched, rounds)
  {
    if firstRecv != Some(false) {
      return LastGood(0), [];
    }
    v, marks := Explore(Mysql, searched, rounds);
  }

  /** The memory-limit drivers skip the unlimited probe exactly for the base values times a power of two. */
  lemma ZeroSkippedIff(d: Driver)
    requires ZeroFirst(d)
    ensures d.VoteMem? ==> (Skipped(d, 0) <==> exists k: nat :: d.target == 1000 * Timelines.Pow2(k))
    ensures d.LobstersMem? ==> (Skipped(d, 0) <==> exists k: nat :: d.scale == 500 * Timelines.Pow2(k))
  {
    var base := if d.VoteMem? then 1000 else 500;
    var n := if d.VoteMem? then d.target else d.scale;
    PowerOfTwoIff(n / base);
    if exists k: nat :: n == base * Timelines.Pow2(k) {
      var k: nat :| n == base * Timelines.Pow2(k);
      assert n % base == 0 && n / base == Timelines.Pow2(k);
    }
    if Skipped(d, 0) {
      var k: nat :| n / base == Timelines.Pow2(k);
      assert n == base * Timelines.Pow2(k);
    }
  }

  /**
   * A known-bad hybrid target marks the searcher once, with the number of values handed out
   * so far, yet stays pending: its iteration commits. So it is the result when the next
   * iteration's exit check fires, and when the next target is the last one and does not
   * end the loop.
   */
  lemma KnownBadBecomesLastGood(searched: seq<nat>, rounds: seq<Round>, j: nat, lastGood: nat, pending: Option<nat>)
    requires |rounds| == |searched| && j < |searched| && j < FirstHalt(Hybrid, searched, rounds, 0)
    requires KnownBad(Hybrid, searched[j])
    ensures Commits(Hybrid, searched, rounds, j)
    ensures Iteration(Hybrid, searched[j], ServedAt(Hybrid, j), rounds[j], lastGood, pending)
         == Continue([ServedAt(Hybrid, j)], Committed(lastGood, pending), Some(searched[j]))
    ensures j + 1 < |searched| && !Bypassed(Hybrid, searched[j + 1]) && rounds[j + 1].exiting
            ==> Explored(Hybrid, searched, rounds).verdict == LastGood(searched[j])
    ensures j + 2 == |searched| && !Halts(Hybrid, searched, rounds, j + 1)
            ==> Explored(Hybrid, searched, rounds).verdict == LastGood(searched[j])
  {
    assert Probes(Hybrid, searched) == searched;
    if j + 1 < |searched| && !Bypassed(Hybrid, searched[j + 1]) && rounds[j + 1].exiting {
      CommittedBeforeExit(Hybrid, searched, rounds, j);
    }
    if j + 2 == |searched| && !Halts(Hybrid, searched, rounds, j + 1) {
      ExploredIsExpected(Hybrid, searched, rounds);
      assert FirstHalt(Hybrid, searched, rounds, 0) == |searched|;
    }
  }

  // ------------------------------------------------------------ drivers without a last-good value

  /** What vote.rs and lobsters_noria.rs's `one` returns: `Ok(())`, an error, or a panic. */
  datatype Finish = Succeeded | Erred | Crashed

  /** The result of a sweep and the searcher's overload log. */
  datatype Ending = Ending(finish: Finish, marks: seq<nat>)

  /** The plain sweep of vote.rs and lobsters_noria.rs: run every value the searcher hands out. */
  function Swept(searched: seq<nat>, outcomes: seq<Outcome>, i: nat): (r: Ending)
    requires i <= |searched| == |outcomes|
    decreases |searched| - i
  {
    if i == |searched| then Ending(Succeeded, [])
    else match outcomes[i]
      case Failed => Ending(Erred, [])
      case Panicked => Ending(Crashed, [])
      case Ran(k) => var rest := Swept(searched, outcomes, i + 1); Ending(rest.finish, Repeat(i + 1, k) + rest.marks)
  }

  /** The sum of the overload signals of the runs from `i` on. */
  function Signals(outcomes: seq<Outcome>, i: nat): nat
    requires i <= |outcomes|
    decreases |outcomes| - i
  {
    if i == |outcomes| then 0
    else (if outcomes[i].Ran? then outcomes[i].overloads else 0) + Signals(outcomes, i + 1)
  }

  /** A sweep succeeds exactly when every run returns, and then every overload signal reached the searcher. */
  lemma {:induction false} SweptIff(searched: seq<nat>, outcomes: seq<Outcome>, i: nat)
    requires i <= |searched| == |outcomes|
    ensures Swept(searched, outcomes, i).finish == Succeeded <==> forall j :: i <= j < |outcomes| ==> outcomes[j].Ran?
    ensures Swept(searched, outcomes, i).finish == Succeeded ==> |Swept(searched, outcomes, i).marks| == Signals(outcomes, i)
    decreases |searched| - i
  {
    if i < |searched| {
      SweptIff(searched, outcomes, i + 1);
    }
  }

  /** vote.rs / lobsters_noria.rs `one`'s `while let Some(p) = searcher.next()` loop. */
  method Sweep(searched: seq<nat>, outcomes: seq<Outcome>) returns (f: Finish, marks: seq<nat>)
    requires |outcomes| == |searched|
    ensures Ending(f, marks) == Swept(searched, outcomes, 0)
  {
    var s := new Searcher(searched);
    var i := 0;
    assert [] + Swept(searched, outcomes, 0).marks == Swept(searched, outcomes, 0).marks;
    while true
      invariant i <= |searched| && s.served == i && s.queue == searched[i..]
      invariant Ending(Swept(searched, outcomes, i).finish, s.marks + Swept(searched, outcomes, i).marks) == Swept(searched, outcomes, 0)
      decreases |s.queue|
    {
      var next := s.Next();
      if next.None? {
        break;
      }
      match outcomes[i]
      case Failed =>
        assert s.marks + [] == s.marks;
        return Erred, s.marks;
      case Panicked =>
        assert s.marks + [] == s.marks;
        return Crashed, s.marks;
      case Ran(k) =>
        Signal(s, k);
      i := i + 1;
    }
    assert s.marks + [] == s.marks;
    f, marks := Succeeded, s.marks;
  }

  /**
   * vote.rs `main`: all runs are awaited, then their results are surfaced in list order;
   * the first one that is not a success decides (a panicked task panics `main`).
   */
  method SurfaceFirst(results: seq<Finish>) returns (r: Finish)
    ensures r == Succeeded <==> forall i :: 0 <= i < |results| ==> results[i] == Succeeded
    ensures r != Succeeded ==> exists i :: 0 <= i < |results| && results[i] == r
                                 && forall j :: 0 <= j < i ==> results[j] == Succeeded
  {
    var i := 0;
    while i < |results|
      invariant i <= |results| && forall j :: 0 <= j < i ==> results[j] == Succeeded
    {
      if results[i] != Succeeded {
        return results[i];
      }
      i := i + 1;
    }
    return Succeeded;
  }
}
