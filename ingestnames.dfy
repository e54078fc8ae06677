/**
 * The file-name side of benchmarks/ingest.py: which reader a log goes to, the
 * `fullmatch` of each reader's name regex as a parser, and the paths of the
 * histogram and statistics files that belong to a log. Each regex is written
 * out as what it accepts; where its groups cannot hold the separator a
 * split on that separator gives exactly the regex's fields.
 */
module IngestNames {
  import opened Wrappers
  import opened Text
  import opened Names

  predicate EndsWith(s: string, suffix: string) {
    |suffix| <= |s| && s[|s| - |suffix|..] == suffix
  }

  // --------------------------------------------------------------- dispatch

  datatype Reader = MigrationReader | RedisReader | VoteReader | LobstersReader | Unrecognized

  /** `ingest`'s choice of reader by the first matching basename prefix. */
  function Dispatch(base: string): Reader {
    if StartsWith(base, "vote-") then MigrationReader
    else if StartsWith(base, "redis.") then RedisReader
    else if StartsWith(base, "full.") || StartsWith(base, "partial.") then VoteReader
    else if StartsWith(base, "lobsters-") then LobstersReader
    else Unrecognized
  }

  // ------------------------------------------------------- `(\d+)` + a unit

  /** A field `(\d+)u`: decimal digits followed by the unit letter. */
  function Untag(part: string, unit: char): (r: Option<nat>)
    ensures r.Some? ==> |part| >= 2 && part[|part| - 1] == unit
  {
    if |part| >= 2 && part[|part| - 1] == unit && AllDigits(part[..|part| - 1])
    then Some(DigitsValue(part[..|part| - 1]))
    else None
  }

  lemma UntagTagged(n: nat, unit: char)
    ensures Untag(Tagged(n, unit), unit) == Some(n)
  {
    var d := NatToString(n);
    assert Tagged(n, unit)[..|d|] == d;
    NatToStringRoundTrip(n);
  }

  lemma TaggedFree(n: nat, unit: char, sep: char)
    requires !IsDigit(sep) && unit != sep
    ensures Free(Tagged(n, unit), sep)
  {
    var s := Tagged(n, unit);
    assert forall k :: 0 <= k < |s| - 1 ==> s[..|s| - 1][k] == s[k];
  }

  predicate IsDistribution(d: string) {
    d == "uniform" || d == "skewed"
  }

  // ----------------------------------------------------------------- vote_fn

  datatype VoteName = VoteName(partial: bool, articles: nat, target: nat, writeEvery: nat,
                               clients: nat, memlimit: nat, distribution: string)

  /**
   * `vote_fn.fullmatch`:
   * `(full|partial)\.(\d+)a\.(\d+)t\.(\d+)r\.(\d+)c\.(\d+)m\.(uniform|skewed)\.log`.
   * Its groups hold no `.`, so a name matches exactly when its eight dot-separated
   * pieces match the groups one by one. `partial` is whether group 1 is "partial";
   * the memory limit is kept in bytes.
   */
  function ParseVoteName(base: string): Option<VoteName> {
    var p := Split(base, '.');
    if |p| == 8 && (p[0] == "full" || p[0] == "partial")
       && Untag(p[1], 'a').Some? && Untag(p[2], 't').Some? && Untag(p[3], 'r').Some?
       && Untag(p[4], 'c').Some? && Untag(p[5], 'm').Some? && IsDistribution(p[6]) && p[7] == "log"
    then Some(VoteName(p[0] == "partial", Untag(p[1], 'a').value, Untag(p[2], 't').value,
                       Untag(p[3], 'r').value, Untag(p[4], 'c').value, Untag(p[5], 'm').value, p[6]))
    else None
  }

  lemma LogNameJoin(parts: seq<string>, sep: char)
    requires |parts| > 0
    ensures LogName(Join(parts, sep)) == Join(parts, sep) + ['.'] + "log"
  {
    assert ".log" == ['.'] + "log";
  }

  /** The fields of a vote_mem.rs prefix, then "log". */
  lemma VoteMemPieces(partial: bool, target: nat, writeEvery: nat, clients: nat, limit: nat, distribution: string)
    requires IsDistribution(distribution)
    ensures Split(LogName(VoteMemPrefix(partial, target, writeEvery, clients, limit, distribution)), '.')
         == [VoteBackend(partial), Tagged(Articles, 'a'), Tagged(target, 't'), Tagged(writeEvery, 'r'),
             Tagged(clients, 'c'), Tagged(limit, 'm'), distribution, "log"]
  {
    var fields := [VoteBackend(partial), Tagged(Articles, 'a'), Tagged(target, 't'), Tagged(writeEvery, 'r'),
                   Tagged(clients, 'c'), Tagged(limit, 'm'), distribution];
    LogNameJoin(fields, '.');
    JoinSnoc(fields, "log", '.');
    TaggedFree(Articles, 'a', '.');
    TaggedFree(target, 't', '.');
    TaggedFree(writeEvery, 'r', '.');
    TaggedFree(clients, 'c', '.');
    TaggedFree(limit, 'm', '.');
    assert AllFree(fields + ["log"], '.');
    SplitJoin(fields + ["log"], '.');
  }

  /** Every log vote_mem.rs writes parses back to the parameters it was formatted from. */
  lemma VoteMemNameRoundTrip(partial: bool, target: nat, writeEvery: nat, clients: nat, limit: nat, distribution: string)
    requires IsDistribution(distribution)
    ensures ParseVoteName(LogName(VoteMemPrefix(partial, target, writeEvery, clients, limit, distribution)))
         == Some(VoteName(partial, Articles, target, writeEvery, clients, limit, distribution))
  {
    VoteMemPieces(partial, target, writeEvery, clients, limit, distribution);
    UntagTagged(Articles, 'a');
    UntagTagged(target, 't');
    UntagTagged(writeEvery, 'r');
    UntagTagged(clients, 'c');
    UntagTagged(limit, 'm');
  }

  /** The dot-separated fields of a prefix without a memory limit, then "log". */
  lemma PlainVotePieces(backend: string, target: nat, writeEvery: nat, clients: nat, distribution: string)
    requires Free(backend, '.') && IsDistribution(distribution)
    ensures Split(LogName(PlainVotePrefix(backend, target, writeEvery, clients, distribution)), '.')
         == [backend, Tagged(Articles, 'a'), Tagged(target, 't'), Tagged(writeEvery, 'r'),
             Tagged(clients, 'c'), distribution, "log"]
  {
    var fields := [backend, Tagged(Articles, 'a'), Tagged(target, 't'), Tagged(writeEvery, 'r'),
                   Tagged(clients, 'c'), distribution];
    LogNameJoin(fields, '.');
    JoinSnoc(fields, "log", '.');
    TaggedFree(Articles, 'a', '.');
    TaggedFree(target, 't', '.');
    TaggedFree(writeEvery, 'r', '.');
    TaggedFree(clients, 'c', '.');
    assert AllFree(fields + ["log"], '.');
    SplitJoin(fields + ["log"], '.');
  }

  /** vote.rs's logs carry no memory limit, so `vote_fn` rejects them and ingest drops them. */
  lemma VoteNameNeedsLimit(partial: bool, target: nat, writeEvery: nat, clients: nat, distribution: string)
    requires IsDistribution(distribution)
    ensures ParseVoteName(LogName(PlainVotePrefix(VoteBackend(partial), target, writeEvery, clients, distribution))) == None
  {
    PlainVotePieces(VoteBackend(partial), target, writeEvery, clients, distribution);
  }

  // ---------------------------------------------------------------- redis_fn

  datatype RedisName = RedisName(articles: nat, target: nat, writeEvery: nat, clients: nat, distribution: string)

  /**
   * `redis_fn.fullmatch`:
   * `redis\.(\d+)a\.(\d+)t\.(\d+)r\.(\d+)c(\.\d+m)?\.(uniform|skewed)\.log`:
   * seven dot-separated pieces, or eight with a `(\d+)m` piece sixth, which
   * the reader then ignores.
   */
  function ParseRedisName(base: string): Option<RedisName> {
    var p := Split(base, '.');
    var q := if |p| == 8 && Untag(p[5], 'm').Some? then p[..5] + p[6..] else p;
    if |q| == 7 && q[0] == "redis"
       && Untag(q[1], 'a').Some? && Untag(q[2], 't').Some? && Untag(q[3], 'r').Some?
       && Untag(q[4], 'c').Some? && IsDistribution(q[5]) && q[6] == "log"
    then Some(RedisName(Untag(q[1], 'a').value, Untag(q[2], 't').value, Untag(q[3], 'r').value,
                        Untag(q[4], 'c').value, q[5]))
    else None
  }

  /** Every log vote_redis.rs writes parses back, with the optional memory-limit group absent. */
  lemma RedisNameRoundTrip(target: nat, writeEvery: nat, clients: nat, distribution: string)
    requires IsDistribution(distribution)
    ensures ParseRedisName(LogName(PlainVotePrefix("redis", target, writeEvery, clients, distribution)))
         == Some(RedisName(Articles, target, writeEvery, clients, distribution))
  {
    PlainVotePieces("redis", target, writeEvery, clients, distribution);
    UntagTagged(Articles, 'a');
    UntagTagged(target, 't');
    UntagTagged(writeEvery, 'r');
    UntagTagged(clients, 'c');
  }

  // ------------------------------------------------------- lobsters_noria_fn

  datatype LobstersName = LobstersName(shards: nat, partial: bool, scale: nat, memlimit: nat)

  /** What `lobsters_noria_fn` captures: group 1 as text ("" when absent), whether `_full` is present, groups 3 and 4. */
  datatype LobstersMatch = LobstersMatch(shardGroup: string, full: bool, scale: nat, limit: nat)

  /** `(\d+)`: at least one decimal digit. */
  predicate Numeral(s: string) {
    |s| > 0 && AllDigits(s)
  }

  /** Group 1 `((?:_)\d+)?`: empty, or an underscore then digits. */
  predicate ShardGroup(g: string) {
    g == "" || (|g| >= 2 && g[0] == '_' && AllDigits(g[1..]))
  }

  /** The regex's ending `m.log`, whose unescaped `.` matches any character but a newline. */
  predicate EndsMAnyLog(base: string) {
    |base| >= 5 && base[|base| - 5] == 'm' && base[|base| - 4] != '\n' && base[|base| - 3..] == "log"
  }

  /**
   * `lobsters_noria_fn.fullmatch`: `lobsters-direct((?:_)\d+)?(_full)?-(\d+)-(\d+)m.log`.
   * Before the ending `m.log` lie four dash-separated pieces, none of which the
   * regex lets hold a dash: `lobsters`, `direct` with groups 1 and 2, group 3
   * and group 4.
   */
  function MatchLobsters(base: string): Option<LobstersMatch> {
    if EndsMAnyLog(base) then
      var p := Split(base[..|base| - 5], '-');
      if |p| == 4 && p[0] == "lobsters" && StartsWith(p[1], "direct") && Numeral(p[2]) && Numeral(p[3]) then
        var rest := p[1][6..];
        var full := EndsWith(rest, "_full");
        var g := if full then rest[..|rest| - 5] else rest;
        if ShardGroup(g) then Some(LobstersMatch(g, full, DigitsValue(p[2]), DigitsValue(p[3]))) else None
      else None
    else None
  }

  /** A reader's outcome on a name: no match (the frame is returned unchanged), a raised `ValueError`, or the fields. */
  datatype Parsed<T> = NoMatch | Raises | Fields(value: T)

  /**
   * `lobsters_noria` as written: `int(match.group(1))` is applied to the group
   * including its leading underscore, which Python's `int` refuses.
   */
  function ParseLobstersNameAsWritten(base: string): Parsed<LobstersName> {
    match MatchLobsters(base)
    case None => NoMatch
    case Some(m) =>
      if m.shardGroup != "" then Raises
      else Fields(LobstersName(0, !m.full, m.scale, m.limit))
  }

  /** `lobsters_noria` with the underscore dropped before the shard count is read. */
  function ParseLobstersName(base: string): Option<LobstersName> {
    match MatchLobsters(base)
    case None => None
    case Some(m) =>
      var shards := if m.shardGroup == "" then 0 else DigitsValue(m.shardGroup[1..]);
      Some(LobstersName(shards, !m.full, m.scale, m.limit))
  }

  /** What follows `direct` in a lobsters backend: the shard part. */
  function ShardText(nshards: nat): string {
    if nshards == 0 then "" else "_" + NatToString(nshards)
  }

  function FullText(partial: bool): string {
    if partial then "" else "_full"
  }

  lemma FreeConcat(a: string, b: string, sep: char)
    requires Free(a, sep) && Free(b, sep)
    ensures Free(a + b, sep)
  {
    assert forall k :: |a| <= k < |a + b| ==> (a + b)[k] == b[k - |a|];
  }

  lemma ShardGroupOf(nshards: nat)
    ensures ShardGroup(ShardText(nshards))
    ensures Free(ShardText(nshards), '-') && Free(ShardText(nshards), '/')
    ensures nshards > 0 ==> ShardText(nshards) != "" && DigitsValue(ShardText(nshards)[1..]) == nshards
    ensures |ShardText(nshards)| == 0 || IsDigit(ShardText(nshards)[|ShardText(nshards)| - 1])
  {
    if nshards > 0 {
      var d := NatToString(nshards);
      assert ("_" + d)[1..] == d;
      assert forall k :: 1 <= k < |"_" + d| ==> ("_" + d)[k] == d[k - 1];
      NatToStringRoundTrip(nshards);
    }
  }

  /** The backend is `direct`, then the shard part, then the `_full` part. */
  lemma BackendText(nshards: nat, partial: bool)
    ensures LobstersBackend(nshards, partial) == "direct" + (ShardText(nshards) + FullText(partial))
    ensures Free(LobstersBackend(nshards, partial), '-') && Free(LobstersBackend(nshards, partial), '/')
  {
    if nshards > 0 {
      assert "direct_" + NatToString(nshards) == "direct" + ("_" + NatToString(nshards));
    }
    ShardGroupOf(nshards);
    FreeConcat(ShardText(nshards), FullText(partial), '-');
    FreeConcat("direct", ShardText(nshards) + FullText(partial), '-');
    FreeConcat(ShardText(nshards), FullText(partial), '/');
    FreeConcat("direct", ShardText(nshards) + FullText(partial), '/');
  }

  /** A lobsters_noria_mem.rs log name is four dash-separated pieces, then `m.log`. */
  lemma LobstersMemLayout(nshards: nat, partial: bool, scale: nat, limit: nat)
    ensures LogName(LobstersMemPrefix(nshards, partial, scale, limit))
         == Join(["lobsters", LobstersBackend(nshards, partial), NatToString(scale), NatToString(limit)], '-') + "m.log"
  {
    var b := LobstersBackend(nshards, partial);
    var s := NatToString(scale);
    var l := NatToString(limit);
    Join4("lobsters", b, s, l, '-');
    Join4("lobsters", b, s, Tagged(limit, 'm'), '-');
    assert "m.log" == ['m'] + ".log";
  }

  lemma PrefixOfConcat(a: string, b: string)
    ensures (a + b)[..|a|] == a
  {
  }

  /** How `MatchLobsters` takes a backend apart: `direct`, then the shard group, then `_full` iff not partial. */
  lemma BackendGroups(nshards: nat, partial: bool)
    ensures StartsWith(LobstersBackend(nshards, partial), "direct")
    ensures EndsWith(LobstersBackend(nshards, partial)[6..], "_full") == !partial
    ensures var rest := LobstersBackend(nshards, partial)[6..];
      (if EndsWith(rest, "_full") then rest[..|rest| - 5] else rest) == ShardText(nshards)
  {
    BackendText(nshards, partial);
    var b := LobstersBackend(nshards, partial);
    var g := ShardText(nshards);
    var rest := g + FullText(partial);
    PrefixOfConcat("direct", rest);
    assert b[6..] == rest;
    ShardGroupOf(nshards);
    if partial {
      assert rest == g;
      if |g| >= 5 {
        assert g[|g| - 1] != "_full"[4];
      }
    } else {
      assert rest[|rest| - 5..] == "_full";
      assert rest[..|rest| - 5] == g;
    }
  }

  /** The dash-separated pieces before `m.log` in a lobsters_noria_mem.rs log name. */
  lemma LobstersMemPieces(nshards: nat, partial: bool, scale: nat, limit: nat)
    ensures var base := LogName(LobstersMemPrefix(nshards, partial, scale, limit));
      EndsMAnyLog(base)
      && Split(base[..|base| - 5], '-') == ["lobsters", LobstersBackend(nshards, partial), NatToString(scale), NatToString(limit)]
  {
    LobstersMemLayout(nshards, partial, scale, limit);
    var parts := ["lobsters", LobstersBackend(nshards, partial), NatToString(scale), NatToString(limit)];
    var j := Join(parts, '-');
    var base := j + "m.log";
    PrefixOfConcat(j, "m.log");
    assert base[|base| - 5..] == "m.log";
    BackendText(nshards, partial);
    assert AllFree(parts, '-');
    SplitJoin(parts, '-');
  }

  /** What `lobsters_noria_fn` captures from a lobsters_noria_mem.rs log name. */
  lemma LobstersMemMatch(nshards: nat, partial: bool, scale: nat, limit: nat)
    ensures MatchLobsters(LogName(LobstersMemPrefix(nshards, partial, scale, limit)))
         == Some(LobstersMatch(ShardText(nshards), !partial, scale, limit))
  {
    LobstersMemPieces(nshards, partial, scale, limit);
    BackendGroups(nshards, partial);
    ShardGroupOf(nshards);
    NatToStringRoundTrip(scale);
    NatToStringRoundTrip(limit);
  }

  /**
   * The corrected reader recovers every parameter of a lobsters_noria_mem.rs
   * log name: shard count, partial (no `_full`), scale and memory limit.
   */
  lemma LobstersMemNameRoundTrip(nshards: nat, partial: bool, scale: nat, limit: nat)
    ensures ParseLobstersName(LogName(LobstersMemPrefix(nshards, partial, scale, limit)))
         == Some(LobstersName(nshards, partial, scale, limit))
  {
    LobstersMemMatch(nshards, partial, scale, limit);
    ShardGroupOf(nshards);
  }

  /** As written, the reader agrees for unsharded runs. */
  lemma UnshardedNameAsWritten(partial: bool, scale: nat, limit: nat)
    ensures ParseLobstersNameAsWritten(LogName(LobstersMemPrefix(0, partial, scale, limit)))
         == Fields(LobstersName(0, partial, scale, limit))
  {
    LobstersMemMatch(0, partial, scale, limit);
  }

  /** As written, reading the shard count from the log name of every sharded run raises `ValueError`. */
  lemma ShardedNameRaises(nshards: nat, partial: bool, scale: nat, limit: nat)
    requires nshards > 0
    ensures ParseLobstersNameAsWritten(LogName(LobstersMemPrefix(nshards, partial, scale, limit))) == Raises
  {
    LobstersMemMatch(nshards, partial, scale, limit);
    ShardGroupOf(nshards);
  }

  /** lobsters_noria.rs names have no `{limit}m` part: the character five from the end is a digit, so the regex rejects them. */
  lemma LobstersNameNeedsLimit(nshards: nat, partial: bool, scale: nat)
    ensures MatchLobsters(LogName(LobstersPrefix(nshards, partial, scale))) == None
  {
    var d := NatToString(scale);
    Join3("lobsters", LobstersBackend(nshards, partial), d, '-');
    var base := LogName(LobstersPrefix(nshards, partial, scale));
    assert base == "lobsters" + ['-'] + LobstersBackend(nshards, partial) + ['-'] + d + ".log";
    assert base[|base| - 5] == d[|d| - 1];
  }

  // ------------------------------------------------------- lobsters_mysql_fn

  /**
   * `lobsters_mysql_fn.fullmatch` of the lobsters-mysql results directory's
   * reader: `lobsters-mysql-(\d+)-0m.log`, again with an unescaped `.`: four
   * dash-separated pieces, one character other than a newline, then `log`.
   * Group 1 is the scale.
   */
  function ParseMysqlName(base: string): Option<nat> {
    if |base| >= 4 && base[|base| - 4] != '\n' && base[|base| - 3..] == "log" then
      var p := Split(base[..|base| - 4], '-');
      if |p| == 4 && p[0] == "lobsters" && p[1] == "mysql" && Numeral(p[2]) && p[3] == "0m"
      then Some(DigitsValue(p[2]))
      else None
    else None
  }

  /** Every log lobsters_mysql.rs writes parses back to its scale. */
  lemma MysqlNameRoundTrip(scale: nat)
    ensures ParseMysqlName(LogName(MysqlPrefix(scale))) == Some(scale)
  {
    var parts := ["lobsters", "mysql", NatToString(scale), "0m"];
    var j := MysqlPrefix(scale);
    var base := LogName(j);
    PrefixOfConcat(j, ".log");
    assert base[|base| - 4..] == ".log";
    assert AllFree(parts, '-');
    SplitJoin(parts, '-');
    NatToStringRoundTrip(scale);
  }

  /** benchmarks/ingest.py hands mysql logs to the lobsters reader, whose regex rejects them. */
  lemma MysqlLogsDropped(scale: nat)
    ensures Dispatch(LogName(MysqlPrefix(scale))) == LobstersReader
    ensures ParseLobstersName(LogName(MysqlPrefix(scale))) == None
  {
    var s := NatToString(scale);
    var parts := ["lobsters", "mysql", s, "0"];
    var j := Join(parts, '-');
    Join4("lobsters", "mysql", s, "0m", '-');
    Join4("lobsters", "mysql", s, "0", '-');
    var base := LogName(MysqlPrefix(scale));
    assert base == j + "m.log";
    PrefixOfConcat(j, "m.log");
    assert AllFree(parts, '-');
    SplitJoin(parts, '-');
    assert !StartsWith("mysql", "direct");
    StartsWithLobsters(["mysql", s, "0m"]);
  }

  // ------------------------------------------------------ vote_migration_fn

  datatype MigrationName = MigrationName(partial: bool, reuse: bool, articles: string, distribution: string)

  /** Group 3 `[\d.]+`: digits and dots. */
  predicate ArticleText(a: string) {
    |a| > 0 && forall k :: 0 <= k < |a| ==> IsDigit(a[k]) || a[k] == '.'
  }

  /** `M.uniform.log`, each `.` any character but a newline. */
  predicate UniformEnd(e: string) {
    |e| == 13 && e[0] == 'M' && e[1] != '\n' && e[2..9] == "uniform" && e[9] != '\n' && e[10..] == "log"
  }

  /** `M.zipf1.08.log`, each `.` any character but a newline. */
  predicate ZipfEnd(e: string) {
    |e| == 14 && e[0] == 'M' && e[1] != '\n' && e[2..7] == "zipf1" && e[7] != '\n' && e[8..10] == "08"
    && e[10] != '\n' && e[11..] == "log"
  }

  /**
   * Group 3, then the ending. Group 3 cannot hold an `M`, so the ending is the
   * last 13 or 14 characters; group 4 is the text the distribution matched.
   */
  function MigrationTail(r: string): Option<(string, string)> {
    if |r| >= 13 && UniformEnd(r[|r| - 13..]) && ArticleText(r[..|r| - 13]) then Some((r[..|r| - 13], "uniform"))
    else if |r| >= 14 && ZipfEnd(r[|r| - 14..]) && ArticleText(r[..|r| - 14]) then Some((r[..|r| - 14], r[|r| - 12..|r| - 4]))
    else None
  }

  function PartialText(partial: bool): string {
    if partial then "partial-" else "no-partial-"
  }

  function ReuseText(reuse: bool): string {
    if reuse then "reuse-" else "stupid-"
  }

  /**
   * `vote_migration_fn.fullmatch`:
   * `vote-((?:no-)?partial)-(stupid|reuse)-([\d.]+)M.(uniform|zipf1.08).log`,
   * whose `.`s are unescaped. The article count (group 3) is kept as text.
   */
  function ParseMigrationName(base: string): Option<MigrationName> {
    if StartsWith(base, "vote-") then MigrationGroups(base[5..]) else None
  }

  /** Group 1, then the rest. */
  function MigrationGroups(r: string): Option<MigrationName> {
    var partial := StartsWith(r, PartialText(true));
    if partial || StartsWith(r, PartialText(false)) then ReuseGroups(partial, r[|PartialText(partial)|..]) else None
  }

  /** Group 2, then the rest. */
  function ReuseGroups(partial: bool, r: string): Option<MigrationName> {
    var reuse := StartsWith(r, ReuseText(true));
    if reuse || StartsWith(r, ReuseText(false)) then
      match MigrationTail(r[|ReuseText(reuse)|..])
      case None => None
      case Some(t) => Some(MigrationName(partial, reuse, t.0, t.1))
    else None
  }

  function MigrationEnd(zipf: bool): string {
    if zipf then "M.zipf1.08.log" else "M.uniform.log"
  }

  /** The names `vote_migration_fn` describes, with `.` written where the regex has one. */
  function MigrationLogName(partial: bool, reuse: bool, articles: string, zipf: bool): string {
    "vote-" + PartialText(partial) + ReuseText(reuse) + articles + MigrationEnd(zipf)
  }

  lemma DropPrefix(a: string, b: string)
    ensures StartsWith(a + b, a) && (a + b)[|a|..] == b
  {
  }

  lemma EndShapes()
    ensures UniformEnd(MigrationEnd(false)) && ZipfEnd(MigrationEnd(true))
    ensures MigrationEnd(true)[2..10] == "zipf1.08"
  {
  }

  lemma MigrationTailOf(articles: string, zipf: bool)
    requires ArticleText(articles)
    ensures MigrationTail(articles + MigrationEnd(zipf)) == Some((articles, if zipf then "zipf1.08" else "uniform"))
  {
    var e := MigrationEnd(zipf);
    var r := articles + e;
    assert r[|r| - |e|..] == e;
    assert r[..|r| - |e|] == articles;
    EndShapes();
    if zipf {
      assert r[|r| - 13..][8] == e[9] == '8';
      assert "uniform"[6] == 'm';
      assert !UniformEnd(r[|r| - 13..]);
      assert r[|r| - 12..|r| - 4] == e[2..10];
    }
  }

  lemma PartialLayer(partial: bool, rest: string)
    ensures StartsWith(PartialText(partial) + rest, PartialText(true)) == partial
    ensures (PartialText(partial) + rest)[|PartialText(partial)|..] == rest
  {
    DropPrefix(PartialText(partial), rest);
    if !partial {
      assert (PartialText(partial) + rest)[0] == 'n';
    }
  }

  lemma ReuseLayer(reuse: bool, rest: string)
    ensures StartsWith(ReuseText(reuse) + rest, ReuseText(true)) == reuse
    ensures StartsWith(ReuseText(reuse) + rest, ReuseText(reuse))
    ensures (ReuseText(reuse) + rest)[|ReuseText(reuse)|..] == rest
  {
    DropPrefix(ReuseText(reuse), rest);
    if !reuse {
      assert (ReuseText(reuse) + rest)[0] == 's';
    }
  }

  lemma ReuseGroupsOf(partial: bool, reuse: bool, articles: string, zipf: bool)
    requires ArticleText(articles)
    ensures ReuseGroups(partial, ReuseText(reuse) + (articles + MigrationEnd(zipf)))
         == Some(MigrationName(partial, reuse, articles, if zipf then "zipf1.08" else "uniform"))
  {
    MigrationTailOf(articles, zipf);
    ReuseLayer(reuse, articles + MigrationEnd(zipf));
  }

  lemma MigrationGroupsOf(partial: bool, rest: string)
    ensures MigrationGroups(PartialText(partial) + rest) == ReuseGroups(partial, rest)
  {
    PartialLayer(partial, rest);
    DropPrefix(PartialText(partial), rest);
  }

  lemma ParseAfterVote(rest: string)
    ensures ParseMigrationName("vote-" + rest) == MigrationGroups(rest)
  {
    DropPrefix("vote-", rest);
  }

  /** Every name of that shape parses back to its four groups. */
  lemma MigrationNameRoundTrip(partial: bool, reuse: bool, articles: string, zipf: bool)
    requires ArticleText(articles)
    ensures ParseMigrationName(MigrationLogName(partial, reuse, articles, zipf))
         == Some(MigrationName(partial, reuse, articles, if zipf then "zipf1.08" else "uniform"))
  {
    var r2 := ReuseText(reuse) + (articles + MigrationEnd(zipf));
    var r1 := PartialText(partial) + r2;
    assert MigrationLogName(partial, reuse, articles, zipf) == "vote-" + r1;
    ParseAfterVote(r1);
    MigrationGroupsOf(partial, r2);
    ReuseGroupsOf(partial, reuse, articles, zipf);
  }

  // ----------------------------------------------------- which reader a driver's log reaches

  lemma DispatchLobsters(base: string)
    requires StartsWith(base, "lobsters-")
    ensures Dispatch(base) == LobstersReader
  {
    assert base[0] == base[..9][0] == 'l';
  }

  /** A log whose name is `lobsters` then dash-joined fields goes to the lobsters reader. */
  lemma StartsWithLobsters(rest: seq<string>)
    requires |rest| > 0
    ensures Dispatch(LogName(Join(["lobsters"] + rest, '-'))) == LobstersReader
  {
    assert (["lobsters"] + rest)[1..] == rest;
    var tail := Join(rest, '-') + ".log";
    var base := LogName(Join(["lobsters"] + rest, '-'));
    assert base == ("lobsters" + ['-']) + tail;
    PrefixOfConcat("lobsters" + ['-'], tail);
    assert "lobsters" + ['-'] == "lobsters-";
    DispatchLobsters(base);
  }

  lemma VoteMemDispatch(partial: bool, target: nat, writeEvery: nat, clients: nat, limit: nat, distribution: string)
    ensures Dispatch(LogName(VoteMemPrefix(partial, target, writeEvery, clients, limit, distribution))) == VoteReader
  {
    var fields := [VoteBackend(partial), Tagged(Articles, 'a'), Tagged(target, 't'), Tagged(writeEvery, 'r'),
                   Tagged(clients, 'c'), Tagged(limit, 'm'), distribution];
    var base := LogName(VoteMemPrefix(partial, target, writeEvery, clients, limit, distribution));
    assert base == fields[0] + ['.'] + (Join(fields[1..], '.') + ".log");
    if partial {
      assert base[..8] == "partial.";
    } else {
      assert base[..5] == "full.";
    }
    assert base[0] == fields[0][0];
  }

  lemma RedisDispatch(target: nat, writeEvery: nat, clients: nat, distribution: string)
    ensures Dispatch(LogName(PlainVotePrefix("redis", target, writeEvery, clients, distribution))) == RedisReader
  {
    var fields := ["redis", Tagged(Articles, 'a'), Tagged(target, 't'), Tagged(writeEvery, 'r'),
                   Tagged(clients, 'c'), distribution];
    var base := LogName(PlainVotePrefix("redis", target, writeEvery, clients, distribution));
    assert base == "redis" + ['.'] + (Join(fields[1..], '.') + ".log");
    assert base[..6] == "redis.";
    assert base[0] == 'r';
  }

  /** vote_hybrid.rs's logs start with `hybrid.`, which no reader claims. */
  lemma HybridUnrecognized(target: nat, writeEvery: nat, clients: nat, distribution: string)
    ensures Dispatch(LogName(PlainVotePrefix("hybrid", target, writeEvery, clients, distribution))) == Unrecognized
  {
    var fields := ["hybrid", Tagged(Articles, 'a'), Tagged(target, 't'), Tagged(writeEvery, 'r'),
                   Tagged(clients, 'c'), distribution];
    var base := LogName(PlainVotePrefix("hybrid", target, writeEvery, clients, distribution));
    assert base == "hybrid" + ['.'] + (Join(fields[1..], '.') + ".log");
    assert base[0] == 'h';
  }

  lemma LobstersMemDispatch(nshards: nat, partial: bool, scale: nat, limit: nat)
    ensures Dispatch(LogName(LobstersMemPrefix(nshards, partial, scale, limit))) == LobstersReader
  {
    StartsWithLobsters([LobstersBackend(nshards, partial), NatToString(scale), Tagged(limit, 'm')]);
    assert ["lobsters"] + [LobstersBackend(nshards, partial), NatToString(scale), Tagged(limit, 'm')]
        == ["lobsters", LobstersBackend(nshards, partial), NatToString(scale), Tagged(limit, 'm')];
  }

  // ------------------------------------------------------------------ paths

  /** Index of the last `c` in `s`, or -1. */
  function LastIndex(s: string, c: char): (r: int)
    ensures -1 <= r < |s|
    ensures r >= 0 ==> s[r] == c
    ensures forall k :: r < k < |s| ==> s[k] != c
  {
    if |s| == 0 then -1 else if s[|s| - 1] == c then |s| - 1 else LastIndex(s[..|s| - 1], c)
  }

  /** `os.path.basename`: what follows the last `/`. */
  function Basename(p: string): string {
    p[LastIndex(p, '/') + 1..]
  }

  predicate HasNonDot(s: string) {
    exists k :: 0 <= k < |s| && s[k] != '.'
  }

  /**
   * `os.path.splitext` on POSIX: the extension starts at the last `.` of the last
   * path component, unless every character before it in that component is a dot
   * (a hidden file has no extension).
   */
  function SplitExt(p: string): (string, string) {
    var slash := LastIndex(p, '/');
    var dot := LastIndex(p, '.');
    if dot > slash && HasNonDot(p[slash + 1..dot]) then (p[..dot], p[dot..]) else (p, "")
  }

  /** Root and extension make up the path, and an extension starts with its dot. */
  lemma SplitExtParts(p: string)
    ensures SplitExt(p).0 + SplitExt(p).1 == p
    ensures SplitExt(p).1 == "" || SplitExt(p).1[0] == '.'
  {
    var dot := LastIndex(p, '.');
    if SplitExt(p).1 != "" {
      assert p[..dot] + p[dot..] == p;
    }
  }

  lemma LastIndexAt(s: string, c: char, i: nat)
    requires i < |s| && s[i] == c
    requires forall k :: i < k < |s| ==> s[k] != c
    ensures LastIndex(s, c) == i
  {
  }

  /** A log `{dir}/{prefix}.log` of a driver splits into `{dir}/{prefix}` and `.log`. */
  lemma SplitExtOfLog(dir: string, prefix: string)
    requires Free(prefix, '/') && |prefix| > 0 && prefix[0] != '.'
    ensures SplitExt(dir + "/" + LogName(prefix)) == (dir + "/" + prefix, ".log")
    ensures Basename(dir + "/" + LogName(prefix)) == LogName(prefix)
  {
    var head := dir + "/" + prefix;
    var p := head + ".log";
    assert p == dir + "/" + LogName(prefix);
    var dot := |head|;
    assert p[dot..] == ".log";
    assert forall k :: dot < k < |p| ==> p[k] == "log"[k - dot - 1];
    LastIndexAt(p, '.', dot);
    assert forall k :: |dir| < k < dot ==> p[k] == prefix[k - |dir| - 1];
    LastIndexAt(p, '/', |dir|);
    assert p[|dir| + 1..dot] == prefix;
    assert p[|dir| + 1..dot][0] != '.';
    assert p[..dot] == head;
    assert p[|dir| + 1..] == LogName(prefix);
  }

  /** Where `extract_hist` looks for histograms: one named file, or a glob pattern's matches. */
  datatype HistSource = HistFiles(paths: seq<string>) | HistGlob(pattern: string)

  /** `extract_hist`'s choice: `{root}.hist` for lobsters logs, else the `{root}-client*.hist` glob. */
  function HistPaths(logPath: string): HistSource {
    var root := SplitExt(logPath).0;
    if Contains(Basename(logPath), "lobsters") then HistFiles([root + ".hist"]) else HistGlob(root + "-client*.hist")
  }

  /** `mem_stats`'s statistics file: `{root}-statistics.json`. */
  function StatsPath(logPath: string): string {
    SplitExt(logPath).0 + "-statistics.json"
  }

  /** For a driver log `{dir}/{prefix}.log` the statistics file is `{dir}/{prefix}-statistics.json`. */
  lemma StatsBesideLog(dir: string, prefix: string)
    requires Free(prefix, '/') && |prefix| > 0 && prefix[0] != '.'
    ensures StatsPath(dir + "/" + LogName(prefix)) == dir + "/" + prefix + "-statistics.json"
  {
    SplitExtOfLog(dir, prefix);
  }

  /** A glob pattern `{head}*{tail}`, whose `*` matches any text without a `/`. */
  predicate GlobMatch(head: string, tail: string, name: string) {
    |head| + |tail| <= |name| && StartsWith(name, head) && EndsWith(name, tail)
    && Free(name[|head|..|name| - |tail|], '/')
  }

  lemma LobstersPrefixShape(nshards: nat, partial: bool, scale: nat, limit: nat)
    ensures Free(LobstersMemPrefix(nshards, partial, scale, limit), '/')
    ensures StartsWith(LobstersMemPrefix(nshards, partial, scale, limit), "lobsters")
  {
    var b := LobstersBackend(nshards, partial);
    var s := NatToString(scale);
    var l := Tagged(limit, 'm');
    BackendText(nshards, partial);
    Join4("lobsters", b, s, l, '-');
    TaggedFree(limit, 'm', '/');
    FreeConcat("lobsters", ['-'], '/');
    FreeConcat("lobsters" + ['-'], b, '/');
    FreeConcat("lobsters" + ['-'] + b, ['-'], '/');
    FreeConcat("lobsters" + ['-'] + b + ['-'], s, '/');
    FreeConcat("lobsters" + ['-'] + b + ['-'] + s, ['-'], '/');
    FreeConcat("lobsters" + ['-'] + b + ['-'] + s + ['-'], l, '/');
    PrefixOfConcat("lobsters", ['-'] + b + ['-'] + s + ['-'] + l);
  }

  /** A lobsters log, one with "lobsters" in its name, has its histogram at `{root}.hist`. */
  lemma LobstersLogHist(dir: string, prefix: string)
    requires Free(prefix, '/') && |prefix| > 0 && prefix[0] != '.'
    requires Contains(LogName(prefix), "lobsters")
    ensures HistPaths(dir + "/" + LogName(prefix)) == HistFiles([dir + "/" + HistName(prefix)])
  {
    SplitExtOfLog(dir, prefix);
    assert dir + "/" + prefix + ".hist" == dir + "/" + HistName(prefix);
  }

  lemma NamedLobsters(prefix: string)
    requires StartsWith(prefix, "lobsters")
    ensures Contains(LogName(prefix), "lobsters")
  {
    PrefixOfConcat(prefix, ".log");
    assert LogName(prefix)[..8] == prefix[..8];
  }

  /**
   * For a lobsters_noria_mem.rs log, the histogram `extract_hist` reads is the one
   * the driver saved, `{prefix}.hist`, beside the log.
   */
  lemma LobstersHistIsSaved(dir: string, nshards: nat, partial: bool, scale: nat, limit: nat)
    ensures HistPaths(dir + "/" + LogName(LobstersMemPrefix(nshards, partial, scale, limit)))
         == HistFiles([dir + "/" + HistName(LobstersMemPrefix(nshards, partial, scale, limit))])
  {
    var prefix := LobstersMemPrefix(nshards, partial, scale, limit);
    LobstersPrefixShape(nshards, partial, scale, limit);
    NamedLobsters(prefix);
    LobstersLogHist(dir, prefix);
  }

  /**
   * For any other log without "lobsters" in its name, the glob `extract_hist`
   * uses matches every `{prefix}-client{i}.hist` a vote driver saves beside it.
   */
  lemma ClientHistsMatchGlob(dir: string, prefix: string, i: nat)
    requires Free(prefix, '/') && |prefix| > 0 && prefix[0] != '.'
    requires !Contains(LogName(prefix), "lobsters")
    ensures HistPaths(dir + "/" + LogName(prefix)) == HistGlob(dir + "/" + prefix + "-client*.hist")
    ensures GlobMatch(dir + "/" + prefix + "-client", ".hist", dir + "/" + ClientHistName(prefix, i))
  {
    SplitExtOfLog(dir, prefix);
    var head := dir + "/" + prefix + "-client";
    var d := NatToString(i);
    var name := head + d + ".hist";
    assert dir + "/" + ClientHistName(prefix, i) == name;
    PrefixOfConcat(head, d + ".hist");
    assert name[|name| - 5..] == ".hist";
    assert name[|head|..|name| - 5] == d;
  }
}
