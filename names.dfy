/**
 * Result file names. Every driver formats a `prefix` from its parameters and
 * writes `{prefix}.log` (plus `{prefix}.hist` or `{prefix}-client{i}.hist`);
 * the ingest script later recovers the parameters from those names. The
 * formats are fields joined by one separator character, so they are written
 * here with `Join`, and `Split` (Python's `str.split` with one character) is
 * its inverse on fields free of the separator.
 */
module Names {
  import opened Text

  /** Fields separated by one character. */
  function Join(parts: seq<string>, sep: char): string
    requires |parts| > 0
  {
    if |parts| == 1 then parts[0] else parts[0] + [sep] + Join(parts[1..], sep)
  }

  /** Python's `s.split(sep)` for a one-character separator: the pieces between occurrences of `sep`. */
  function Split(s: string, sep: char): (r: seq<string>)
    ensures |r| > 0
  {
    if |s| == 0 then [""]
    else if s[0] == sep then [""] + Split(s[1..], sep)
    else
      var rest := Split(s[1..], sep);
      [[s[0]] + rest[0]] + rest[1..]
  }

  predicate Free(s: string, sep: char) {
    forall k :: 0 <= k < |s| ==> s[k] != sep
  }

  predicate AllFree(parts: seq<string>, sep: char) {
    forall i :: 0 <= i < |parts| ==> Free(parts[i], sep)
  }

  /** No piece of a split contains the separator. */
  lemma {:induction false} SplitPiecesFree(s: string, sep: char)
    ensures AllFree(Split(s, sep), sep)
  {
    if |s| > 0 {
      SplitPiecesFree(s[1..], sep);
      var rest := Split(s[1..], sep);
      if s[0] != sep {
        var head := [s[0]] + rest[0];
        assert Free(rest[0], sep);
        assert forall k :: 1 <= k < |head| ==> head[k] == rest[0][k - 1];
        assert Free(head, sep);
        var r := Split(s, sep);
        assert forall i :: 1 <= i < |r| ==> r[i] == rest[i];
      }
    }
  }

  /** A separator-free string splits into itself. */
  lemma {:induction false} SplitFree(p: string, sep: char)
    requires Free(p, sep)
    ensures Split(p, sep) == [p]
  {
    if |p| > 0 {
      SplitFree(p[1..], sep);
      assert [p[0]] + p[1..] == p;
    }
  }

  /** Splitting at the first separator: `p` free of it, then the rest. */
  lemma {:induction false} SplitAtFirst(p: string, rest: string, sep: char)
    requires Free(p, sep)
    ensures Split(p + [sep] + rest, sep) == [p] + Split(rest, sep)
  {
    var s := p + [sep] + rest;
    if |p| == 0 {
      assert s == [sep] + rest;
      assert s[1..] == rest;
    } else {
      assert s[0] == p[0];
      assert s[1..] == p[1..] + [sep] + rest;
      SplitAtFirst(p[1..], rest, sep);
      assert [p[0]] + p[1..] == p;
    }
  }

  /** Joining separator-free fields and splitting the result gives the fields back. */
  lemma {:induction false} SplitJoin(parts: seq<string>, sep: char)
    requires |parts| > 0 && AllFree(parts, sep)
    ensures Split(Join(parts, sep), sep) == parts
  {
    if |parts| == 1 {
      SplitFree(parts[0], sep);
    } else {
      assert AllFree(parts[1..], sep) by {
        forall i | 0 <= i < |parts| - 1
          ensures Free(parts[1..][i], sep)
        {
          assert parts[1..][i] == parts[i + 1];
        }
      }
      SplitJoin(parts[1..], sep);
      assert Free(parts[0], sep);
      SplitAtFirst(parts[0], Join(parts[1..], sep), sep);
      assert [parts[0]] + parts[1..] == parts;
    }
  }

  /** Splitting and joining again gives the string back. */
  lemma {:induction false} JoinSplit(s: string, sep: char)
    ensures Join(Split(s, sep), sep) == s
  {
    if |s| > 0 {
      JoinSplit(s[1..], sep);
      var rest := Split(s[1..], sep);
      if s[0] == sep {
        assert ([""] + rest)[1..] == rest;
        assert [s[0]] + s[1..] == s;
      } else {
        var r := [[s[0]] + rest[0]] + rest[1..];
        if |rest| == 1 {
          assert r == [[s[0]] + rest[0]];
          assert [s[0]] + s[1..] == s;
        } else {
          assert r[1..] == rest[1..];
          assert Join(rest, sep) == rest[0] + [sep] + Join(rest[1..], sep);
          assert [s[0]] + s[1..] == s;
        }
      }
    }
  }

  /** Appending one more field. */
  lemma {:induction false} JoinSnoc(parts: seq<string>, last: string, sep: char)
    requires |parts| > 0
    ensures Join(parts, sep) + [sep] + last == Join(parts + [last], sep)
  {
    if |parts| > 1 {
      assert (parts + [last])[1..] == parts[1..] + [last];
      JoinSnoc(parts[1..], last, sep);
    }
  }

  lemma {:induction false} Join3(a: string, b: string, c: string, sep: char)
    ensures Join([a, b, c], sep) == a + [sep] + b + [sep] + c
  {
    assert [b, c][1..] == [c];
    assert Join([b, c], sep) == b + [sep] + c;
    assert [a, b, c][1..] == [b, c];
  }

  lemma {:induction false} Join4(a: string, b: string, c: string, d: string, sep: char)
    ensures Join([a, b, c, d], sep) == a + [sep] + b + [sep] + c + [sep] + d
  {
    assert [a, b, c, d][1..] == [b, c, d];
    Join3(b, c, d, sep);
  }

  // ------------------------------------------------------------ the formats

  /** The article count every vote-family prefix carries, written `5000000a`. */
  const Articles: nat := 5_000_000

  /** A number followed by its unit letter, as `{}t` in the format strings. */
  function Tagged(n: nat, unit: char): (s: string)
    ensures |s| >= 2 && AllDigits(s[..|s| - 1]) && s[|s| - 1] == unit
  {
    var d := NatToString(n);
    assert (d + [unit])[..|d|] == d;
    d + [unit]
  }

  function VoteBackend(partial: bool): string {
    if partial then "partial" else "full"
  }

  /**
   * vote_mem.rs's prefix
   * `{partial|full}.5000000a.{target}t.{write_every}r.{nclients}c.{limit}m.{distribution}`.
   */
  function VoteMemPrefix(partial: bool, target: nat, writeEvery: nat, clients: nat, limit: nat, distribution: string): string {
    Join([VoteBackend(partial), Tagged(Articles, 'a'), Tagged(target, 't'), Tagged(writeEvery, 'r'),
          Tagged(clients, 'c'), Tagged(limit, 'm'), distribution], '.')
  }

  /**
   * The prefix `{backend}.5000000a.{target}t.{write_every}r.{nclients}c.{distribution}`
   * without a memory limit, shared by vote.rs (`partial`/`full`), vote_redis.rs
   * (`redis`) and vote_hybrid.rs (`hybrid`).
   */
  function PlainVotePrefix(backend: string, target: nat, writeEvery: nat, clients: nat, distribution: string): string {
    Join([backend, Tagged(Articles, 'a'), Tagged(target, 't'), Tagged(writeEvery, 'r'),
          Tagged(clients, 'c'), distribution], '.')
  }

  /** `direct` or `direct_{nshards}`, then `_full` unless partial. */
  function LobstersBackend(nshards: nat, partial: bool): string {
    (if nshards == 0 then "direct" else "direct_" + NatToString(nshards)) + (if partial then "" else "_full")
  }

  /** lobsters_noria_mem.rs's prefix `lobsters-{backend}-{scale}-{limit}m`. */
  function LobstersMemPrefix(nshards: nat, partial: bool, scale: nat, limit: nat): string {
    Join(["lobsters", LobstersBackend(nshards, partial), NatToString(scale), Tagged(limit, 'm')], '-')
  }

  /** lobsters_noria.rs's prefix `lobsters-{backend}-{scale}`. */
  function LobstersPrefix(nshards: nat, partial: bool, scale: nat): string {
    Join(["lobsters", LobstersBackend(nshards, partial), NatToString(scale)], '-')
  }

  /** lobsters_mysql.rs's prefix `lobsters-mysql-{scale}-0m`. */
  function MysqlPrefix(scale: nat): string {
    Join(["lobsters", "mysql", NatToString(scale), "0m"], '-')
  }

  /** The log every driver writes: `{prefix}.log`. */
  function LogName(prefix: string): string {
    prefix + ".log"
  }

  /** The single histogram of a lobsters run: `{prefix}.hist`. */
  function HistName(prefix: string): string {
    prefix + ".hist"
  }

  /** The histogram of client `i` of a vote run: `{prefix}-client{i}.hist`. */
  function ClientHistName(prefix: string, i: nat): string {
    prefix + "-client" + NatToString(i) + ".hist"
  }
}
