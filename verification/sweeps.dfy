/** Operations that only remove whole segments: what a crash at each of their steps leaves. */
module Sweeps {
  import opened Records
  import opened History
  import opened Directory
  import opened State
  import opened Recovery
  import opened RecoveryTheorems
  import opened RecoveryIdempotence
  import opened Layout
  import opened Resting
  import opened Steps
  import opened WriterOps
  import opened Operations
  import opened Retention
  import opened Cutting
  import opened Exactness
  import opened AtomicCut

  /** The log that opening `c` gives: the history from `first` on, up to LSN `n`. */
  ghost predicate OpensTo(c: Dir, h: seq<Payload>, first: nat, n: nat, maxRec: nat) {
    var o := Recover(c, SegmentScanner(maxRec));
    && n <= |h| && Interval(h, first, n + 1)
    && o.ok && o.st.w.nextLSN == n + 1 && o.st.w.lastLSN == n
    && LogOf(o.st.dir.files, maxRec) == Recs(h, first, n + 1)
  }

  lemma LiveOpens(d: Dir, bs: seq<nat>, c: Dir, h: seq<Payload>, durable: nat, maxRec: nat) returns (n: nat)
    requires bs != [] && Live(d, Plain(bs), h, durable, true) && Storable(h, maxRec) && CrashImage(d, c)
    ensures durable <= n && OpensTo(c, h, bs[0], n, maxRec)
    ensures SyncedOn(d.files, [LastBase(bs)]) ==> n == |h|
  {
    hide Laid, Durable, Safe, Storable, TornTail, Recover, LogOf, SyncedOn, Bygone;
    NoTail(maxRec);
    n := CrashRecovers(d.files, c, Plain(bs), h, durable, maxRec);
  }

  /** After so many removals the log is plain again and starts at the next base. */
  lemma AfterRemovals(s: St, bs: seq<nat>, h: seq<Payload>, durable: nat, m: nat)
    requires Traced(s) && m < |bs| && Live(s.dir, Plain(bs), h, durable, true)
    ensures var d := RemoveAll(s, bs[..m]).dir;
      && Live(d, Plain(bs[m..]), h, durable, true) && d.files == s.dir.files - Elements(bs[..m])
  {
    hide Live, Path, RemoveAll;
    LiveOrderedBases(s.dir, bs, h, durable);
    PlainNames(bs, m);
    var b := Bounds(h, 0, durable, bs[m] + bs[0], true);
    assert StartsLow(Plain(bs), m, b.floor);
    RemoveFirstsPath(s, Plain(bs), h, m, b);
    assert bs[0..] == bs;
    RemoveAllEffect(s, bs[..m]);
  }

  lemma LiveOrderedBases(d: Dir, bs: seq<nat>, h: seq<Payload>, durable: nat)
    requires bs != [] && Live(d, Plain(bs), h, durable, true)
    ensures Ascending(bs) && 1 <= bs[0]
  {
    hide Whole, Tip, Bygone, Durable, Safe;
    assert [] + bs == bs;
  }

  /** The removals of the first `k` segments, interrupted by a crash after `m` of them. */
  lemma RemovalsOpen(s: St, bs: seq<nat>, k: nat, h: seq<Payload>, durable: nat, m: nat, c: Dir, maxRec: nat)
      returns (n: nat)
    requires Traced(s) && m <= k < |bs| && Live(s.dir, Plain(bs), h, durable, true) && Storable(h, maxRec)
    requires var r := RemoveAll(s, bs[..k]);
      |r.trace| == |s.trace| + k && CrashImage(r.trace[|s.trace| - 1 + m], c)
    ensures durable <= n && OpensTo(c, h, bs[m], n, maxRec)
    ensures SyncedOn(s.dir.files, [LastBase(bs)]) ==> n == |h|
  {
    hide Live, RemoveAll, OpensTo, Storable, SyncedOn, Ascending;
    AfterRemovals(s, bs, h, durable, m);
    RemoveAllEffect(s, bs[..k]);
    var r, d := RemoveAll(s, bs[..k]), RemoveAll(s, bs[..m]).dir;
    if m == 0 {
      assert bs[..0] == [] && r.trace[|s.trace| - 1] == s.dir;
    } else {
      assert bs[..k][..m] == bs[..m];
    }
    SameFilesCrash(r.trace[|s.trace| - 1 + m], d, c);
    n := LiveOpens(d, bs[m..], c, h, durable, maxRec);
    LiveLastIn(d, bs[m..], h, durable);
    assert LastBase(bs[m..]) == LastBase(bs);
    LastStays(s.dir.files, d.files, bs, m);
  }

  lemma LiveLastIn(d: Dir, bs: seq<nat>, h: seq<Payload>, durable: nat)
    requires bs != [] && Live(d, Plain(bs), h, durable, true)
    ensures LastBase(bs) in d.files
  {
    LaidRange(d.files, Plain(bs), h);
    hide Laid;
  }

  lemma SameFilesCrash(d: Dir, e: Dir, c: Dir)
    requires d.files == e.files && CrashImage(d, c)
    ensures CrashImage(e, c)
  {
  }

  /** The active file is not among those removed. */
  lemma LastStays(f: Files, g: Files, bs: seq<nat>, m: nat)
    requires m < |bs| && g == f - Elements(bs[..m]) && LastBase(bs) in g
    ensures LastBase(bs[m..]) == LastBase(bs) && (SyncedOn(f, [LastBase(bs)]) ==> SyncedOn(g, [LastBase(bs)]))
  {
    hide Elements;
  }

  /** Truncate, interrupted by a crash: after `m` removals the log starts at the next base, and nothing else is
      lost but records that are not on stable storage. */
  lemma TruncateSteps(s: St, h: seq<Payload>, durable: nat, upTo: nat, maxRec: nat, j: nat, c: Dir) returns (n: nat)
    requires Running(s, h, durable, true, maxRec) && s.w.bases != []
    requires |s.trace| - 1 <= j < |Truncate(s, upTo).trace| && CrashImage(Truncate(s, upTo).trace[j], c)
    ensures var m := j + 1 - |s.trace|;
      m < |s.w.bases| && durable <= n && OpensTo(c, h, s.w.bases[m], n, maxRec)
    ensures SyncedOn(s.dir.files, [LastBase(s.w.bases)]) ==> n == |h|
  {
    hide Live, Laid, RemoveAll, OpensTo, Storable, SyncedOn, Deletable;
    var k := Deletable(s.w.bases, upTo);
    RemoveAllEffect(s, s.w.bases[..k]);
    n := RemovalsOpen(s, s.w.bases, k, h, durable, j + 1 - |s.trace|, c, maxRec);
  }

  /** A cut at a segment boundary, the same. */
  lemma BoundaryCutSteps(s: St, h: seq<Payload>, durable: nat, upTo: nat, cfg: Config, j: nat, c: Dir) returns (n: nat)
    requires Running(s, h, durable, true, cfg.maxRecordSize) && s.w.bases != []
    requires upTo in s.w.bases && 0 < s.w.firstLSN < upTo < s.w.nextLSN
    requires |s.trace| - 1 <= j < |Cut(s, upTo, cfg).st.trace| && CrashImage(Cut(s, upTo, cfg).st.trace[j], c)
    ensures var m := j + 1 - |s.trace|;
      && m < |s.w.bases| && s.w.bases[m] <= upTo
      && durable <= n && OpensTo(c, h, s.w.bases[m], n, cfg.maxRecordSize)
    ensures SyncedOn(s.dir.files, [LastBase(s.w.bases)]) ==> n == |h|
  {
    hide Live, Laid, RemoveAll, OpensTo, Storable, SyncedOn, Ascending, BoundaryIndex;
    RunningWriter(s, h, durable, true, cfg.maxRecordSize);
    BoundaryIs(s.w.bases, upTo);
    var k := BoundaryIndex(s.w.bases, upTo);
    BaseIsBoundary(s.w.bases, k, upTo);
    RemoveAllEffect(s, s.w.bases[..k]);
    var m := j + 1 - |s.trace|;
    AscendingAt(s.w.bases, m, k);
    n := RemovalsOpen(s, s.w.bases, k, h, durable, m, c, cfg.maxRecordSize);
  }

  lemma BaseIsBoundary(bs: seq<nat>, k: nat, cut: nat)
    requires Ascending(bs) && k < |bs| && cut in bs && bs[k] <= cut && (k + 1 < |bs| ==> cut < bs[k + 1])
    ensures bs[k] == cut
  {
    var i :| 0 <= i < |bs| && bs[i] == cut;
  }

  lemma AscendingAt(bs: seq<nat>, m: nat, k: nat)
    requires Ascending(bs) && m <= k < |bs|
    ensures bs[m] <= bs[k]
  {
  }

  /** The log with the new empty segment above it. */
  function Restart(s: St): St {
    Do(Do(s, Remove(s.w.nextLSN)), Create(s.w.nextLSN))
  }

  lemma Restarted(s: St, h: seq<Payload>, durable: nat, maxRec: nat)
    requires Running(s, h, durable, true, maxRec) && s.w.bases != [] && 0 < s.w.firstLSN < s.w.nextLSN
    requires SyncedOn(s.dir.files, [LastBase(s.w.bases)])
    ensures var t, names := Restart(s), s.w.bases + [s.w.nextLSN];
      && Traced(t) && Live(t.dir, Plain(names), h, durable, true) && SyncedOn(t.dir.files, [LastBase(names)])
      && Storable(h, maxRec)
    ensures s.w.nextLSN !in s.dir.files
  {
    hide Live, Path, Storable, Laid, Evolves, Passing, Ascending, Running;
    RunningWriter(s, h, durable, true, maxRec);
    RunningStorable0(s, h, durable, maxRec);
    var b := Bounds(h, 0, durable, s.w.bases[0], true);
    RestartPath(s, h, b, maxRec);
    PathTraced(s, Restart(s), b);
    NextIsNew(s.dir, s.w.bases, h);
    assert LastBase(s.w.bases + [s.w.nextLSN]) == s.w.nextLSN;
    assert Restart(s).dir.files[s.w.nextLSN] == EMPTY_FILE;
  }

  lemma RunningStorable0(s: St, h: seq<Payload>, durable: nat, maxRec: nat)
    requires Running(s, h, durable, true, maxRec) && 0 < s.w.firstLSN < s.w.nextLSN
    ensures Storable(h, maxRec) && s.w.bases != [] && LastBase(s.w.bases) < Next(h)
    ensures Laid(s.dir.files, Plain(s.w.bases), h)
  {
    hide Live, Laid, Storable;
  }

  lemma RestartTrace(s: St)
    requires s.trace != [] && Traced(s) && s.w.nextLSN !in s.dir.files && s.w.bases != []
    ensures var t, r := Restart(s), CutEverything(s);
      && |t.trace| == |s.trace| + 2 && r.trace == RemoveAll(t, s.w.bases).trace && |r.trace| >= |t.trace|
      && r.trace[|s.trace| - 1].files == s.dir.files && r.trace[|s.trace|].files == s.dir.files
  {
    var t := Restart(s);
    RemoveAllEffect(t, s.w.bases);
    hide RemoveAll;
  }

  /** In terms of the log before. */
  lemma OpensAbove(s: St, h: seq<Payload>, durable: nat, c: Dir, first: nat, maxRec: nat)
    requires Running(s, h, durable, true, maxRec) && OpensTo(c, h, first, |h|, maxRec)
    requires s.w.bases != [] && s.w.bases[0] <= first
    ensures var o := Recover(c, SegmentScanner(maxRec));
      && o.ok && o.st.w.nextLSN == s.w.nextLSN && o.st.w.lastLSN == s.w.lastLSN
      && LogOf(o.st.dir.files, maxRec) == Above(LogOf(s.dir.files, maxRec), first)
  {
    hide Running, LogOf, Recover;
    RunningLog(s, h, durable, true, maxRec);
    RunningLast(s, h, durable, true, maxRec);
    AboveBelow(h, s.w.bases[0], first);
  }

  lemma NamesFrom(bs: seq<nat>, next: nat, m: nat)
    requires bs != [] && Ascending(bs) && LastBase(bs) < next && m <= |bs|
    ensures bs[0] <= (bs + [next])[m]
  {
  }

  /** CutOffset of everything, interrupted by a crash: after `m` removals the log starts at the next base, once
      all are gone it is empty; the LSN counters stay in every case. So it reverts to the old log
      only as long as nothing has been removed. */
  lemma CutAllSteps(s: St, h: seq<Payload>, durable: nat, upTo: nat, cfg: Config, j: nat, c: Dir)
    requires Running(s, h, durable, true, cfg.maxRecordSize) && s.w.bases != []
    requires 0 < s.w.firstLSN < s.w.nextLSN <= upTo && SyncedOn(s.dir.files, [LastBase(s.w.bases)])
    requires |s.trace| - 1 <= j < |Cut(s, upTo, cfg).st.trace| && CrashImage(Cut(s, upTo, cfg).st.trace[j], c)
    ensures var m := if j <= |s.trace| + 1 then 0 else j - |s.trace| - 1;
      && m <= |s.w.bases|
      && var first, o := (s.w.bases + [s.w.nextLSN])[m], Recover(c, SegmentScanner(cfg.maxRecordSize));
      && o.ok && o.st.w.nextLSN == s.w.nextLSN && o.st.w.lastLSN == s.w.lastLSN
      && LogOf(o.st.dir.files, cfg.maxRecordSize) == Above(LogOf(s.dir.files, cfg.maxRecordSize), first)
  {
    hide Live, Laid, RemoveAll, OpensTo, Storable, SyncedOn, Apply, CutEverything, Restart, LogOf, Recover, Ascending;
    var maxRec := cfg.maxRecordSize;
    RunningWriter(s, h, durable, true, maxRec);
    var bs, names, r := s.w.bases, s.w.bases + [s.w.nextLSN], CutEverything(s);
    assert Cut(s, upTo, cfg) == Attempt(true, r);
    hide Cut;
    Restarted(s, h, durable, maxRec);
    RestartTrace(s);
    if j <= |s.trace| {
      SameFilesCrash(r.trace[j], s.dir, c);
      var n := LiveOpens(s.dir, bs, c, h, durable, maxRec);
      OpensAbove(s, h, durable, c, bs[0], maxRec);
    } else {
      RemoveAllEffect(Restart(s), bs);
      assert names[..|bs|] == bs;
      var m := j - |s.trace| - 1;
      var n := RemovalsOpen(Restart(s), names, |bs|, h, durable, m, c, maxRec);
      RunningStorable0(s, h, durable, maxRec);
      NamesFrom(bs, s.w.nextLSN, m);
      OpensAbove(s, h, durable, c, names[m], maxRec);
    }
  }
}
