/** A cut of everything while the active segment has bytes that are not on stable storage: what a crash leaves. */
module UnsyncedSweeps {
  import opened Bytes
  import opened Seqs
  import opened Records
  import opened History
  import opened Directory
  import opened State
  import opened Recovery
  import opened RecoveryTheorems
  import opened RecoveryIdempotence
  import opened RecoveryUnsynced
  import opened Layout
  import opened Steps
  import opened WriterOps
  import opened Operations
  import opened Cutting
  import opened Exactness
  import opened Runs
  import opened Sweeps

  /** If the active segment is still there, the crash took nothing of it. */
  predicate ActiveWhole(s: St, c: Dir)
    requires s.w.bases != []
  {
    var x := LastBase(s.w.bases);
    x in s.dir.files && x in c.files ==> c.files[x].body == s.dir.files[x].body
  }

  /** The directory once the new segment is there and `m` of the old ones are gone. */
  lemma SweptImage(s: St, j: nat)
    requires s.trace != [] && Traced(s) && s.w.nextLSN !in s.dir.files && s.w.bases != []
    requires |s.trace| < j < |CutEverything(s).trace|
    ensures j - |s.trace| - 1 <= |s.w.bases|
    ensures CutEverything(s).trace[j].files
         == s.dir.files[s.w.nextLSN := EMPTY_FILE] - Elements(s.w.bases[..j - |s.trace| - 1])
  {
    var t := Restart(s);
    RemoveAllEffect(t, s.w.bases);
    hide RemoveAll;
    assert t.dir.files == s.dir.files[s.w.nextLSN := EMPTY_FILE];
    if j == |s.trace| + 1 {
      assert s.w.bases[..0] == [];
    }
  }

  function Twin(c: Dir, x: nat): Dir {
    if x in c.files then c.(files := c.files[x := Synced(c.files[x])]) else c
  }

  /** With the active segment synced first, the same steps lead to the same bytes. */
  lemma TwinIsCrash(s: St, r: St, j: nat, c: Dir)
    requires s.trace != [] && Traced(s) && s.w.nextLSN !in s.dir.files && s.w.bases != []
    requires r == SyncActive(s) && |s.trace| < j < |CutEverything(s).trace|
    requires CrashImage(CutEverything(s).trace[j], c) && ActiveWhole(s, c) && LastBase(s.w.bases) in s.dir.files
    ensures |r.trace| < j + 1 < |CutEverything(r).trace| && |r.trace| == |s.trace| + 1 && r.w == s.w
    ensures CrashImage(CutEverything(r).trace[j + 1], Twin(c, LastBase(s.w.bases)))
    ensures SameBodies(Twin(c, LastBase(s.w.bases)).files, c.files)
  {
    hide CutEverything;
    SweptImage(s, j);
    SyncedFiles(s);
    RestartSize(s);
    RestartSize(r);
    SweptImage(r, j + 1);
    TwinFits(s.dir.files, s.w.nextLSN, LastBase(s.w.bases), Elements(s.w.bases[..j - |s.trace| - 1]),
             CutEverything(s).trace[j], CutEverything(r).trace[j + 1], c);
  }

  lemma SyncedFiles(s: St)
    requires s.w.bases != [] && LastBase(s.w.bases) in s.dir.files && s.trace != []
    ensures var r, x := SyncActive(s), LastBase(s.w.bases);
      && r.w == s.w && |r.trace| == |s.trace| + 1 && Traced(r)
      && r.dir.files == s.dir.files[x := Synced(s.dir.files[x])]
  {
  }

  lemma RestartSize(s: St)
    requires s.w.bases != []
    ensures |CutEverything(s).trace| == |s.trace| + 2 + |s.w.bases|
  {
    RemoveAllEffect(Restart(s), s.w.bases);
    hide RemoveAll;
  }

  lemma TwinFits(f: Files, next: nat, x: nat, gone: set<nat>, im: Dir, jm: Dir, c: Dir)
    requires x in f && next !in f && CrashImage(im, c)
    requires im.files == f[next := EMPTY_FILE] - gone
    requires jm.files == f[x := Synced(f[x])][next := EMPTY_FILE] - gone
    requires x in c.files ==> c.files[x].body == f[x].body
    ensures CrashImage(jm, Twin(c, x)) && SameBodies(Twin(c, x).files, c.files)
  {
    var d := Twin(c, x);
    forall b | b in jm.files
      ensures b in d.files && CrashedFile(jm.files[b], d.files[b])
    {
      assert CrashedFile(im.files[b], c.files[b]);
      if b == x {
        assert f[x].body[..|f[x].body|] == f[x].body;
      }
    }
  }

  lemma {:induction false} SameLogOver(f: Files, g: Files, bs: seq<nat>, maxRec: nat)
    requires SameBodies(f, g)
    ensures LogOver(f, bs, maxRec) == LogOver(g, bs, maxRec)
    decreases |bs|
  {
    if bs != [] {
      if bs[0] in f {
        assert SameContent(f[bs[0]], g[bs[0]]);
      }
      SameLogOver(f, g, bs[1..], maxRec);
    }
  }

  /** A prefix of what the active segment holds scans as torn, or with fewer records. */
  lemma ShorterScan(h: seq<Payload>, x: nat, body: seq<byte>, maxRec: nat)
    requires Storable(h, maxRec) && Interval(h, x, Next(h))
    requires body <= Span(h, x, Next(h)) && body != Span(h, x, Next(h))
    ensures var r := SegmentScanner(maxRec)(body);
      r.err.Some? || x + r.records < Next(h)
  {
    hide Span, TornTail, ScanAll, Recs, Storable, Interval;
    var n, t := CutSpan(h, x, Next(h), |body|, maxRec);
    assert body == Span(h, x, n) + t;
    ScanReports(h, x, n, t, maxRec);
    EmptyUnit(Span(h, x, n));
  }

  lemma ScanReports(h: seq<Payload>, x: nat, n: nat, t: seq<byte>, maxRec: nat)
    requires Storable(h, maxRec) && Interval(h, x, n) && TornTail(t, maxRec)
    ensures var r := SegmentScanner(maxRec)(Span(h, x, n) + t);
      r.records == n - x && (t != [] ==> r.err.Some?)
  {
    hide Span, TornTail, ScanAll, Recs, Storable, Interval;
    ScanSpan(h, x, n, t, maxRec);
    RecsLength(h, x, n);
  }

  lemma RecsLength(h: seq<Payload>, a: nat, n: nat)
    requires Interval(h, a, n)
    ensures |Recs(h, a, n)| == n - a
  {
  }

  /** Then the segment above it does not follow on. */
  lemma ShorterRefused(c: Dir, x: nat, next: nat, scan: BodyScanner)
    requires x < next && x in c.files && next in c.files && (forall b | b in c.files && x < b :: b == next)
    requires Res(c.files, x, scan).err.Some? || End(c.files, x, scan) < next
    ensures !Recover(c, scan).ok
  {
    hide Recover, RecoverListed;
    var s, names := RecoverWhole(c, scan);
    assert x in names && next in names;
    var i :| 0 <= i < |names| && names[i] == x;
    var k :| 0 <= k < |names| && names[k] == next;
    assert i < k;
    assert names[i + 1] in names && x < names[i + 1];
    if Listed(c.files, names) {
      assert !Follows(c.files, names, i, scan);
    }
  }

  /** What the active segment holds, and where. */
  lemma ActiveHolds(s: St, h: seq<Payload>, durable: nat, maxRec: nat)
    requires Running(s, h, durable, true, maxRec) && 0 < s.w.firstLSN < s.w.nextLSN
    ensures s.w.bases != [] && s.w.nextLSN == Next(h) && s.w.nextLSN !in s.dir.files && Storable(h, maxRec)
    ensures var x := LastBase(s.w.bases);
      && x < s.w.nextLSN && x in s.dir.files && Interval(h, x, Next(h)) && s.dir.files[x].body == Span(h, x, Next(h))
      && (forall b | b in s.dir.files :: b <= x)
  {
    hide Running, Laid, Span, Storable;
    RunningStorable0(s, h, durable, maxRec);
    RunningWriter(s, h, durable, true, maxRec);
    var x := LastBase(s.w.bases);
    LaidRange(s.dir.files, Plain(s.w.bases), h);
    EmptyUnit(Span(h, x, Next(h)));
    TipOf(s.dir.files, s.w.bases, h);
  }

  lemma TipOf(f: Files, bs: seq<nat>, h: seq<Payload>)
    requires bs != [] && Laid(f, Plain(bs), h)
    ensures Tip(f, LastBase(bs), h, [])
  {
    hide Tip, Whole;
  }

  /** The crash took something of it. */
  lemma CutAllRefused(s: St, h: seq<Payload>, durable: nat, maxRec: nat, j: nat, c: Dir)
    requires Running(s, h, durable, true, maxRec) && s.w.bases != [] && 0 < s.w.firstLSN < s.w.nextLSN
    requires |s.trace| < j < |CutEverything(s).trace| && CrashImage(CutEverything(s).trace[j], c)
    requires !ActiveWhole(s, c)
    ensures !Recover(c, SegmentScanner(maxRec)).ok
  {
    hide Recover, ScanSegment, Span, Storable, CutEverything, Laid, Live;
    ActiveHolds(s, h, durable, maxRec);
    RunningWriter(s, h, durable, true, maxRec);
    SweptImage(s, j);
    var x, im := LastBase(s.w.bases), CutEverything(s).trace[j];
    assert CrashedFile(im.files[x], c.files[x]);
    NotRemoved(s.w.bases, s.w.nextLSN, j - |s.trace| - 1);
    ShorterScan(h, x, c.files[x].body, maxRec);
    ShorterRefused(c, x, s.w.nextLSN, SegmentScanner(maxRec));
  }

  lemma NotRemoved(bs: seq<nat>, next: nat, m: nat)
    requires m <= |bs| && bs != [] && LastBase(bs) < next && Ascending(bs)
    ensures next !in Elements(bs[..m])
  {
  }

  /** CutOffset of everything, interrupted by a crash, whether or not the active segment is on stable storage.
      Until the new segment is there the old log is kept, short of records that are not on stable storage
      at most. From then on the directory opens if and only if the crash took nothing of the active
      segment or that is gone too; and then `m` removals leave the log from the next base on. */
  lemma CutAllOpens(s: St, h: seq<Payload>, durable: nat, upTo: nat, cfg: Config, j: nat, c: Dir) returns (n: nat)
    requires Running(s, h, durable, true, cfg.maxRecordSize) && s.w.bases != []
    requires 0 < s.w.firstLSN < s.w.nextLSN <= upTo
    requires |s.trace| - 1 <= j < |Cut(s, upTo, cfg).st.trace| && CrashImage(Cut(s, upTo, cfg).st.trace[j], c)
    ensures j <= |s.trace| ==> durable <= n && OpensTo(c, h, s.w.bases[0], n, cfg.maxRecordSize)
    ensures j > |s.trace| ==>
      var m, o := j - |s.trace| - 1, Recover(c, SegmentScanner(cfg.maxRecordSize));
      && m <= |s.w.bases|
      && (o.ok <==> ActiveWhole(s, c))
      && (o.ok ==>
        && o.st.w.nextLSN == s.w.nextLSN && o.st.w.lastLSN == s.w.lastLSN
        && LogOf(o.st.dir.files, cfg.maxRecordSize)
           == Above(LogOf(s.dir.files, cfg.maxRecordSize), (s.w.bases + [s.w.nextLSN])[m]))
  {
    hide Running, OpensTo, CutEverything, LogOf, Recover, RemoveAll;
    var maxRec := cfg.maxRecordSize;
    ActiveHolds(s, h, durable, maxRec);
    RunningWriter(s, h, durable, true, maxRec);
    assert Cut(s, upTo, cfg) == Attempt(true, CutEverything(s));
    hide Cut;
    RestartSize(s);
    n := 0;
    if j <= |s.trace| {
      n := CutAllBefore(s, h, durable, maxRec, j, c);
    } else if ActiveWhole(s, c) {
      CutAllWhole(s, h, durable, upTo, cfg, j, c);
    } else {
      CutAllRefused(s, h, durable, maxRec, j, c);
    }
  }

  lemma CutAllBefore(s: St, h: seq<Payload>, durable: nat, maxRec: nat, j: nat, c: Dir) returns (n: nat)
    requires Running(s, h, durable, true, maxRec) && s.w.bases != [] && s.w.nextLSN !in s.dir.files
    requires Storable(h, maxRec)
    requires |s.trace| - 1 <= j <= |s.trace| && j < |CutEverything(s).trace| && CrashImage(CutEverything(s).trace[j], c)
    ensures durable <= n && OpensTo(c, h, s.w.bases[0], n, maxRec)
  {
    hide OpensTo, Live, Laid, CutEverything, Storable;
    RestartTrace(s);
    SameFilesCrash(CutEverything(s).trace[j], s.dir, c);
    n := LiveOpens(s.dir, s.w.bases, c, h, durable, maxRec);
  }

  lemma CutAllWhole(s: St, h: seq<Payload>, durable: nat, upTo: nat, cfg: Config, j: nat, c: Dir)
    requires Running(s, h, durable, true, cfg.maxRecordSize) && s.w.bases != []
    requires 0 < s.w.firstLSN < s.w.nextLSN <= upTo && ActiveWhole(s, c)
    requires |s.trace| < j < |CutEverything(s).trace| && CrashImage(CutEverything(s).trace[j], c)
    ensures var m, o := j - |s.trace| - 1, Recover(c, SegmentScanner(cfg.maxRecordSize));
      && m <= |s.w.bases|
      && o.ok && o.st.w.nextLSN == s.w.nextLSN && o.st.w.lastLSN == s.w.lastLSN
      && LogOf(o.st.dir.files, cfg.maxRecordSize)
         == Above(LogOf(s.dir.files, cfg.maxRecordSize), (s.w.bases + [s.w.nextLSN])[m])
  {
    hide Running, CutEverything, LogOf, Recover, CrashImage, ActiveWhole, Twin, SameBodies, Above;
    var maxRec, x := cfg.maxRecordSize, LastBase(s.w.bases);
    CutAllTwin(s, h, durable, upTo, cfg, j, c);
    SameBodiesBack(Twin(c, x).files, c.files);
    RecoverSame(Twin(c, x), c, SegmentScanner(maxRec));
    SameLog(Recover(Twin(c, x), SegmentScanner(maxRec)).st.dir.files, Recover(c, SegmentScanner(maxRec)).st.dir.files,
            maxRec);
  }

  /** The same with the active segment synced. */
  lemma CutAllTwin(s: St, h: seq<Payload>, durable: nat, upTo: nat, cfg: Config, j: nat, c: Dir)
    requires Running(s, h, durable, true, cfg.maxRecordSize) && s.w.bases != []
    requires 0 < s.w.firstLSN < s.w.nextLSN <= upTo && ActiveWhole(s, c)
    requires |s.trace| < j < |CutEverything(s).trace| && CrashImage(CutEverything(s).trace[j], c)
    ensures var d := Twin(c, LastBase(s.w.bases));
      var m, o := j - |s.trace| - 1, Recover(d, SegmentScanner(cfg.maxRecordSize));
      && SameBodies(d.files, c.files) && m <= |s.w.bases|
      && o.ok && o.st.w.nextLSN == s.w.nextLSN && o.st.w.lastLSN == s.w.lastLSN
      && LogOf(o.st.dir.files, cfg.maxRecordSize)
         == Above(LogOf(s.dir.files, cfg.maxRecordSize), (s.w.bases + [s.w.nextLSN])[m])
  {
    hide Running, CutEverything, LogOf, Recover, SyncActive, CrashImage, ActiveWhole, Twin, SameBodies, Above, Storable;
    hide Span, Interval;
    var maxRec, r := cfg.maxRecordSize, SyncActive(s);
    ActiveHolds(s, h, durable, maxRec);
    RunningTraced(s, h, durable, maxRec);
    TwinIsCrash(s, r, j, c);
    SyncedRunning(s, h, durable, maxRec);
    CutIsEverything(r, h, maxRec, upTo, cfg);
    hide Cut;
    CutAllSteps(r, h, |h|, upTo, cfg, j + 1, Twin(c, LastBase(s.w.bases)));
    SameLogSynced(s, r, h, durable, maxRec);
  }

  lemma SameLogSynced(s: St, r: St, h: seq<Payload>, durable: nat, maxRec: nat)
    requires Running(s, h, durable, true, maxRec) && Running(r, h, |h|, true, maxRec) && r.w == s.w
    ensures LogOf(r.dir.files, maxRec) == LogOf(s.dir.files, maxRec)
  {
    hide Running, LogOf, Recs;
    RunningLog(s, h, durable, true, maxRec);
    RunningLog(r, h, |h|, true, maxRec);
  }

  lemma SameBodiesBack(f: Files, g: Files)
    requires SameBodies(f, g)
    ensures SameBodies(g, f)
  {
    forall b | b in g
      ensures SameContent(g[b], f[b])
    {
      assert SameContent(f[b], g[b]);
    }
  }

  lemma SameLog(f: Files, g: Files, maxRec: nat)
    requires SameBodies(f, g)
    ensures LogOf(f, maxRec) == LogOf(g, maxRec)
  {
    SameLogOver(f, g, SortedKeys(f.Keys), maxRec);
    ListingUnique(SortedKeys(f.Keys), SortedKeys(g.Keys), f.Keys);
  }

  lemma RunningTraced(s: St, h: seq<Payload>, durable: nat, maxRec: nat)
    requires Running(s, h, durable, true, maxRec)
    ensures s.trace != [] && Traced(s)
  {
    hide Live;
  }

  lemma SyncedRunning(s: St, h: seq<Payload>, durable: nat, maxRec: nat)
    requires Running(s, h, durable, true, maxRec) && s.w.bases != [] && LastBase(s.w.bases) in s.dir.files
    ensures var r := SyncActive(s);
      && Running(r, h, |h|, true, maxRec) && r.w == s.w && SyncedOn(r.dir.files, [LastBase(s.w.bases)])
  {
    hide Running, Path;
    SyncPath(s, h, Bounds(h, 0, durable, s.w.bases[0], true), maxRec);
    RunningTraced(s, h, durable, maxRec);
    SyncedFiles(s);
  }

  lemma CutIsEverything(r: St, h: seq<Payload>, maxRec: nat, upTo: nat, cfg: Config)
    requires Running(r, h, |h|, true, maxRec) && 0 < r.w.firstLSN < r.w.nextLSN <= upTo
    ensures r.w.bases != [] && Cut(r, upTo, cfg) == Attempt(true, CutEverything(r))
  {
    hide Running, CutEverything;
    RunningWriter(r, h, |h|, true, maxRec);
  }
}
