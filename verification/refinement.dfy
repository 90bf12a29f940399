/** What each move of a run does to the log: what is there afterwards was there or was just written, and a crash
    only takes records from the end. */
module Refinement {
  import opened Seqs
  import opened Records
  import opened History
  import opened Directory
  import opened State
  import opened Recovery
  import opened Cutting
  import opened Exactness
  import opened Runs
  import opened RunTheorems
  import opened RunStarts

  /** The move sets out to write `ps`. */
  ghost predicate Attempts(y: System, z: System, ps: seq<Payload>, cfg: Config) {
    || ps == []
    || (exists op :: ps == Payloads(op) && Completes(y, z, op, cfg, Kills))
    || (exists op, j, c :: ps == Payloads(op) && Interrupted(y, z, op, j, c, cfg, Kills))
  }

  /** The log before a move, and what the move sets out to write. */
  ghost function Intended(y: System, ps: seq<Payload>, cfg: Config): seq<Record> {
    var s := Current(y, cfg);
    LogOf(s.dir.files, cfg.maxRecordSize) + Stamped(s.w.nextLSN, ps)
  }

  /** The log after a move: of what was intended, the records from LSN `first` on, the first `n` of them. */
  ghost predicate Leaves(y: System, z: System, ps: seq<Payload>, first: nat, n: nat, cfg: Config) {
    var all := Above(Intended(y, ps, cfg), first);
    n <= |all| && LogOf(Current(z, cfg).dir.files, cfg.maxRecordSize) == all[..n]
  }

  lemma MoveHistory(y: System, z: System, h: seq<Payload>, cfg: Config) returns (ps: seq<Payload>, k: seq<Payload>)
    requires Good(y, h, cfg) && Moves(y, z, cfg, Kills) && cfg.maxRecordSize <= MAX_PAYLOAD + HEADER_SIZE
    ensures Attempts(y, z, ps, cfg) && Good(z, k, cfg) && k <= h + ps
    ensures z.m.Up? ==> k == h + ps
  {
    hide Good, Completes, Interrupted, Reopens, CrashesReopening, Payloads;
    if op :| Completes(y, z, op, cfg, Kills) {
      ps, k := Payloads(op), h + Payloads(op);
      CompletesGood(y, z, h, op, cfg);
    } else if op, j, c :| Interrupted(y, z, op, j, c, cfg, Kills) {
      ps := Payloads(op);
      k := InterruptedGood(y, z, h, op, j, c, cfg);
      InterruptedDown(y, z, op, j, c, cfg);
    } else if Reopens(y, z, cfg) {
      ps, k := [], h;
      EmptyUnit(h);
      ReopensGood(y, z, h, cfg);
    } else {
      ps := [];
      EmptyUnit(h);
      var j, c :| CrashesReopening(y, z, j, c, cfg, Kills);
      k := CrashesReopeningGood(y, z, h, j, c, cfg);
      ReopeningDown(y, z, j, c, cfg);
    }
  }

  lemma InterruptedDown(y: System, z: System, op: Op, j: nat, c: Dir, cfg: Config)
    requires Interrupted(y, z, op, j, c, cfg, Kills)
    ensures z.m.Down?
  {
    hide Crashes, Perform;
  }

  lemma ReopeningDown(y: System, z: System, j: nat, c: Dir, cfg: Config)
    requires CrashesReopening(y, z, j, c, cfg, Kills)
    ensures z.m.Down?
  {
    hide Crashes, Recover;
  }

  /** The records of a prefix of the history, as a prefix of the records. */
  lemma PrefixRecs(h: seq<Payload>, ps: seq<Payload>, k: seq<Payload>, a: nat, b: nat)
    requires k <= h + ps && Interval(h, a, History.Next(h)) && a <= b && Interval(k, b, History.Next(k))
    ensures var all := Above(Recs(h, a, History.Next(h)) + Stamped(History.Next(h), ps), b);
      var n := History.Next(k) - b;
      n <= |all| && Recs(k, b, History.Next(k)) == all[..n]
  {
    hide Above, Interval, Next, Stamped, Span;
    var g := h + ps;
    RecsGrow(h, ps, a);
    AboveBelow(g, a, b);
    SpanStable(k, g, b, History.Next(k));
    RecsTake(g, b, History.Next(g), History.Next(k) - b);
  }

  /** Every move refines: the log after it is made of the log before it and what it set out to write, from some
      LSN on and up to some point; and up to the end unless it is a crash. */
  lemma MoveRefines(y: System, z: System, h: seq<Payload>, cfg: Config) returns (ps: seq<Payload>, first: nat, n: nat)
    requires Good(y, h, cfg) && Moves(y, z, cfg, Kills) && cfg.maxRecordSize <= MAX_PAYLOAD + HEADER_SIZE
    ensures Attempts(y, z, ps, cfg) && Leaves(y, z, ps, first, n, cfg)
    ensures z.m.Up? ==> n == |Above(Intended(y, ps, cfg), first)|
  {
    hide Good, Moves, Attempts, LogOf, Current, Above;
    var k;
    ps, k := MoveHistory(y, z, h, cfg);
    CurrentOpen(y, h, cfg);
    CurrentOpen(z, k, cfg);
    MoveStart(y, z, h, cfg);
    first := StartOf(z, cfg);
    n := History.Next(k) - first;
    PrefixRecs(h, ps, k, StartOf(y, cfg), first);
    if z.m.Up? {
      RecsGrow(h, ps, StartOf(y, cfg));
      AboveBelow(h + ps, StartOf(y, cfg), first);
    }
  }

  /** ... in every run. */
  lemma RunRefines(ys: seq<System>, cfg: Config, i: nat) returns (ps: seq<Payload>, first: nat, n: nat)
    requires Run(ys, cfg, Kills) && i < |ys| - 1
    ensures Attempts(ys[i], ys[i + 1], ps, cfg) && Leaves(ys[i], ys[i + 1], ps, first, n, cfg)
    ensures ys[i + 1].m.Up? ==> n == |Above(Intended(ys[i], ps, cfg), first)|
  {
    hide Good, Moves, Attempts, Leaves, Intended, Above;
    var h := RunGood(ys, cfg, i);
    assert MovesAt(ys, i, cfg, Kills);
    ps, first, n := MoveRefines(ys[i], ys[i + 1], h, cfg);
  }

  /** The record is among those that move `m` of the run set out to write. */
  ghost predicate WrittenAt(ys: seq<System>, m: nat, r: Record, cfg: Config)
    requires m < |ys| - 1
  {
    exists ps :: Attempts(ys[m], ys[m + 1], ps, cfg) && r in Stamped(Current(ys[m], cfg).w.nextLSN, ps)
  }

  /** Nothing comes back: a record that is not in the log is there later only if it is written again. */
  lemma {:induction false} NothingReturns(ys: seq<System>, cfg: Config, i: nat, j: nat, r: Record)
    requires Run(ys, cfg, Kills) && i <= j < |ys|
    requires r in LogOf(Current(ys[j], cfg).dir.files, cfg.maxRecordSize)
    ensures
      || r in LogOf(Current(ys[i], cfg).dir.files, cfg.maxRecordSize)
      || exists m: nat :: i <= m < j && WrittenAt(ys, m, r, cfg)
    decreases j - i
  {
    hide Run, Attempts, LogOf, Current, Above;
    if i < j {
      var ps, first, n := RunRefines(ys, cfg, j - 1);
      var before := LogOf(Current(ys[j - 1], cfg).dir.files, cfg.maxRecordSize);
      InAbove(Intended(ys[j - 1], ps, cfg), first, n, r);
      if r in before {
        NothingReturns(ys, cfg, i, j - 1, r);
      } else {
        assert WrittenAt(ys, j - 1, r, cfg);
      }
    }
  }

  lemma {:induction false} InAbove(rs: seq<Record>, first: nat, n: nat, r: Record)
    requires n <= |Above(rs, first)| && r in Above(rs, first)[..n]
    ensures r in rs
    decreases |rs|
  {
    if rs != [] && rs[0].lsn >= first && n > 0 && r != rs[0] {
      InAbove(rs[1..], first, n - 1, r);
    } else if rs != [] && rs[0].lsn < first {
      InAbove(rs[1..], first, n, r);
    }
  }
}
