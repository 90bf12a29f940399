/** A cut that rewrites the boundary segment is all or nothing, wherever a crash interrupts it. */
module AtomicCut {
  import opened Bytes
  import opened Records
  import opened History
  import opened Directory
  import opened State
  import opened Recovery
  import opened RecoveryTheorems
  import opened RecoveryIdempotence
  import opened Layout
  import opened LayoutRecovery
  import opened Resting
  import opened Crash
  import opened Steps
  import opened WriterOps
  import opened Operations
  import opened Retention
  import opened Cutting
  import opened Exactness

  /** Whatever a crash leaves of a durable log recovers to a prefix of its history, the durable
      records included. */
  lemma CrashRecovers(f: Files, c: Dir, t: Shape, h: seq<Payload>, durable: nat, maxRec: nat) returns (n: nat)
    requires Laid(f, t, h) && Readable(t, h, maxRec) && Durable(f, t) && Safe(f, t, h, durable)
    requires CrashedFiles(f, c.files)
    ensures durable <= n <= |h| && t.bs != [] && Interval(h, t.bs[0], n + 1)
    ensures SyncedOn(f, [LastBase(t.bs)]) ==> n == |h|
    ensures var o := Recover(c, SegmentScanner(maxRec));
      && o.ok && AtRest(o.st.dir, o.st.w, h[..n], maxRec)
      && o.st.w.bases[0] == t.bs[0]
      && LogOf(o.st.dir.files, maxRec) == Recs(h, t.bs[0], n + 1)
  {
    hide Laid, Durable, Safe, Storable, TornTail;
    var u;
    n, u := CrashLaid(f, c.files, t, h, durable, maxRec);
    RecoverLaid(c, u, h[..n], maxRec);
    var o := Recover(c, SegmentScanner(maxRec));
    LogOfLaid(o.st.dir.files, o.st.w.bases, h[..n], maxRec);
    SpanStable(h[..n], h, t.bs[0], n + 1);
  }

  /** Writing the temp file leaves the segment files alone. */
  lemma {:induction false} WriteTempsQuiet(s: St, cut: nat, rs: seq<Record>)
    ensures Through(s, WriteTemps(s, cut, rs), (d: Dir) => d.files == s.dir.files)
    ensures WriteTemps(s, cut, rs).dir.files == s.dir.files
    ensures cut in s.dir.temps ==> cut in WriteTemps(s, cut, rs).dir.temps
    decreases |rs|
  {
    hide Frame;
    if rs == [] {
    } else if rs[0].lsn < cut {
      WriteTempsQuiet(s, cut, rs[1..]);
    } else {
      var t := Do(s, WriteTemp(cut, Frame(rs[0])));
      WriteTempsQuiet(t, cut, rs[1..]);
      ThroughChain(s, t, WriteTemps(s, cut, rs), (d: Dir) => d.files == s.dir.files);
    }
  }

  /** The images of a rewrite: the segment files as they were, or those and the replacement. */
  lemma RewriteImages(s: St, body: seq<byte>, cut: nat, cfg: Config)
    requires RewriteFrom(s, body, cut, cfg).ok
    ensures var r := RewriteFrom(s, body, cut, cfg).st;
      Through(s, r, (d: Dir) => d.files == s.dir.files || d.files == r.dir.files)
  {
    hide Frame, ScanAll, WriteTemps;
    var q := (d: Dir) => d.files == s.dir.files;
    var s2 := Do(Do(s, RemoveTemp(cut)), CreateTemp(cut));
    assert Through(s, s2, q);
    var rs := ScanAll(body, cfg.maxRecordSize).recs;
    WriteTempsQuiet(s2, cut, rs);
    var s3 := WriteTemps(s2, cut, rs);
    ThroughChain(s, s2, s3, q);
    var s4 := Do(s3, FsyncTemp(cut));
    ThroughChain(s, s3, s4, q);
    var r := Do(s4, Rename(cut));
    var p := (d: Dir) => d.files == s.dir.files || d.files == r.dir.files;
    ThroughWeaken(s, s4, q, p);
    ThroughChain(s, s4, r, p);
  }

  lemma RemovedImages(s: St, bs: seq<nat>)
    ensures Through(s, RemoveAll(s, bs), (d: Dir) => Without(s.dir.files, bs, |bs|, d.files))
  {
    RemoveAllEffect(s, bs);
    var r := RemoveAll(s, bs);
    forall k | |s.trace| <= k < |r.trace|
      ensures Without(s.dir.files, bs, |bs|, r.trace[k].files)
    {
      var m := k + 1 - |s.trace|;
      assert r.trace[k].files == s.dir.files - Elements(bs[..m]);
    }
  }

  /** An image of a rewriting cut: the files as they were, or with the replacement published and
      some of the segments it replaces gone. */
  ghost predicate CutImage(d: Dir, before: Files, published: Files, bs: seq<nat>) {
    d.files == before || Without(published, bs, |bs|, d.files)
  }

  lemma CutImages(s: St, k: nat, cut: nat, cfg: Config)
    requires k < |s.w.bases| && s.w.bases[k] in s.dir.files && s.dir.files[s.w.bases[k]].headerOk
    requires RewriteFrom(s, s.dir.files[s.w.bases[k]].body, cut, cfg).ok
    ensures var g := RewriteFrom(s, s.dir.files[s.w.bases[k]].body, cut, cfg).st.dir.files;
      Through(s, CutRewriteBoundary(s, k, cut, cfg).st, (d: Dir) => CutImage(d, s.dir.files, g, s.w.bases[..k + 1]))
  {
    var body := s.dir.files[s.w.bases[k]].body;
    RewriteImages(s, body, cut, cfg);
    var t := RewriteFrom(s, body, cut, cfg).st;
    var g := t.dir.files;
    var bs := s.w.bases[..k + 1];
    hide RewriteFrom;
    RemovedImages(t, bs);
    var p := (d: Dir) => CutImage(d, s.dir.files, g, bs);
    assert g - Elements(bs[..0]) == g;
    assert Without(g, bs, |bs|, g);
    ThroughWeaken(s, t, (d: Dir) => d.files == s.dir.files || d.files == g, p);
    var r := RemoveAll(t, bs);
    hide RemoveAll, CutImage;
    ThroughWeakenRemoved(t, r, g, bs, s.dir.files);
    ThroughChain(s, t, r, p);
  }

  lemma ThroughWeakenRemoved(t: St, r: St, g: Files, bs: seq<nat>, before: Files)
    requires Through(t, r, (d: Dir) => Without(g, bs, |bs|, d.files))
    ensures Through(t, r, (d: Dir) => CutImage(d, before, g, bs))
  {
    hide Without;
  }

  /** What recovery makes of a crashed image of a rewriting cut: the log from its old start if
      seg-cut is not there yet, from the cut if it is; in both cases up to LSN `n`. */
  ghost predicate Decided(im: Files, c: Dir, h: seq<Payload>, first: nat, cut: nat, n: nat, maxRec: nat) {
    var start := if cut in im then cut else first;
    var o := Recover(c, SegmentScanner(maxRec));
    && n <= |h| && Interval(h, start, n + 1)
    && o.ok && AtRest(o.st.dir, o.st.w, h[..n], maxRec)
    && LogOf(o.st.dir.files, maxRec) == Recs(h, start, n + 1)
  }

  /** The cut falls strictly inside a segment. */
  predicate Rewrites(w: Writer, upTo: nat) {
    w.firstLSN != 0 && w.firstLSN < upTo < w.nextLSN && upTo !in w.bases
  }

  lemma DecidedBefore(f: Files, c: Dir, bs: seq<nat>, h: seq<Payload>, cut: nat, durable: nat, maxRec: nat)
      returns (n: nat)
    requires bs != [] && Laid(f, Plain(bs), h) && Storable(h, maxRec) && Durable(f, Plain(bs))
      && Safe(f, Plain(bs), h, durable)
    requires CrashedFiles(f, c.files) && cut !in f
    ensures durable <= n && Decided(f, c, h, bs[0], cut, n, maxRec)
    ensures SyncedOn(f, [LastBase(bs)]) ==> n == |h|
  {
    NoTail(maxRec);
    hide Laid, Durable, Safe, Storable, TornTail, CrashedFiles, AtRest, LogOf, SyncedOn;
    n := CrashRecovers(f, c, Plain(bs), h, durable, maxRec);
  }

  lemma MidRemoval(g: Files, m: nat, t: Shape, h: seq<Payload>, durable: nat)
    requires Laid(g, t, h) && t.torn == [] && Durable(g, t) && Safe(g, t, h, durable) && m <= |t.prior|
    ensures var im, u := g - Elements(t.prior[..m]), t.(prior := t.prior[m..]);
      && Laid(im, u, h) && Durable(im, u) && Safe(im, u, h, durable)
      && t.bs != [] && t.bs[0] in im
      && (SyncedOn(g, [LastBase(t.bs)]) ==> SyncedOn(im, [LastBase(t.bs)]))
  {
    hide Durable, Safe, Laid;
    var im, u := g - Elements(t.prior[..m]), t.(prior := t.prior[m..]);
    WithoutPrior(g, t, h, m);
    WithoutNoLess(g, t, h, m);
    LaidIn(im, u, h);
    FirstBaseIn(im, u, h);
    AgreeSub(g, im, [LastBase(u.bs)]);
    if SyncedOn(g, [LastBase(t.bs)]) {
      SyncedFrame(g, im, [LastBase(u.bs)]);
    }
  }

  lemma DecidedAfter(g: Files, m: nat, c: Dir, t: Shape, h: seq<Payload>, first: nat, durable: nat, maxRec: nat)
      returns (n: nat)
    requires Laid(g, t, h) && t.torn == [] && Storable(h, maxRec) && Durable(g, t) && Safe(g, t, h, durable)
    requires m <= |t.prior| && t.bs != [] && CrashedFiles(g - Elements(t.prior[..m]), c.files)
    ensures durable <= n && Decided(g - Elements(t.prior[..m]), c, h, first, t.bs[0], n, maxRec)
    ensures SyncedOn(g, [LastBase(t.bs)]) ==> n == |h|
  {
    NoTail(maxRec);
    hide Laid, Durable, Safe, Storable, TornTail, CrashedFiles, AtRest, LogOf, SyncedOn, Elements;
    MidRemoval(g, m, t, h, durable);
    n := CrashRecovers(g - Elements(t.prior[..m]), c, t.(prior := t.prior[m..]), h, durable, maxRec);
  }

  lemma FirstBaseIn(f: Files, t: Shape, h: seq<Payload>)
    requires Laid(f, t, h)
    ensures t.bs != [] && t.bs[0] in f
  {
    hide Span, Whole, Tip, Ascending;
    assert (t.prior + t.bs)[|t.prior|] == t.bs[0];
    assert t.bs[0] in Elements(t.prior + t.bs);
  }

  /** What the rewrite publishes. */
  ghost predicate Published(g: Files, bs: seq<nat>, k: nat, cut: nat, h: seq<Payload>, durable: nat)
    requires k < |bs|
  {
    var t := Overlap(bs, k, cut, Next(h));
    Laid(g, t, h) && Durable(g, t) && Safe(g, t, h, durable)
  }

  lemma DecidedImage(s: St, h: seq<Payload>, durable: nat, k: nat, cut: nat, g: Files, im: Dir, c: Dir, maxRec: nat)
      returns (n: nat)
    requires Running(s, h, durable, true, maxRec) && k < |s.w.bases| && cut !in s.dir.files
    requires Published(g, s.w.bases, k, cut, h, durable)
    requires CutImage(im, s.dir.files, g, s.w.bases[..k + 1]) && CrashedFiles(im.files, c.files)
    ensures durable <= n && Decided(im.files, c, h, s.w.bases[0], cut, n, maxRec)
    ensures
      SyncedOn(s.dir.files, [LastBase(s.w.bases)]) && SyncedOn(g, [LastBase(Overlap(s.w.bases, k, cut, Next(h)).bs)])
      ==> n == |h|
  {
    hide Laid, Durable, Safe, Storable, Traced, CrashedFiles, Decided, SyncedOn, Elements, Bygone;
    var bs := s.w.bases;
    if im.files == s.dir.files {
      n := DecidedBefore(s.dir.files, c, bs, h, cut, durable, maxRec);
    } else {
      var m: nat :| m <= k + 1 && im.files == g - Elements(bs[..k + 1][..m]);
      n := DecidedAfter(g, m, c, Overlap(bs, k, cut, Next(h)), h, bs[0], durable, maxRec);
    }
  }

  lemma PublishedBy(s: St, h: seq<Payload>, durable: nat, k: nat, cut: nat, cfg: Config)
    requires Running(s, h, durable, true, cfg.maxRecordSize) && Inside(s.w.bases, k, cut, Next(h))
    requires k == |s.w.bases| - 1 ==> SyncedOn(s.dir.files, [LastBase(s.w.bases)])
    ensures cut !in s.dir.files && s.w.bases[k] in s.dir.files && s.dir.files[s.w.bases[k]].headerOk
    ensures var a := RewriteFrom(s, s.dir.files[s.w.bases[k]].body, cut, cfg);
      a.ok && Published(a.st.dir.files, s.w.bases, k, cut, h, durable)
  {
    RunningFirst(s, h, durable, true, cfg.maxRecordSize);
    RunningAscending(s, h, durable, true, cfg.maxRecordSize);
    InsideNew(s.w.bases, k, cut, s.dir.files, h);
    hide Laid, RewriteFrom, Path, Durable, Safe, Bygone, Running, Overlap, Ascending;
    RewritePath(s, h, k, cut, Bounds(h, |h|, durable, Next(h), true), cfg);
  }

  lemma InsideNew(bs: seq<nat>, k: nat, cut: nat, f: Files, h: seq<Payload>)
    requires bs != [] && Inside(bs, k, cut, Next(h)) && Laid(f, Plain(bs), h)
    ensures cut !in f && cut <= Next(h)
  {
    hide Span, Whole, Tip;
    assert [] + bs == bs;
    OverlapAscending(bs, k, cut, Next(h));
  }

  lemma RewriteFiles(s: St, body: seq<byte>, cut: nat, cfg: Config) returns (x: File)
    requires RewriteFrom(s, body, cut, cfg).ok
    ensures x.synced == |x.body| && RewriteFrom(s, body, cut, cfg).st.dir.files == s.dir.files[cut := x]
  {
    hide Frame, ScanAll;
    var s2 := Do(Do(s, RemoveTemp(cut)), CreateTemp(cut));
    var rs := ScanAll(body, cfg.maxRecordSize).recs;
    WriteTempsQuiet(s2, cut, rs);
    x := Synced(WriteTemps(s2, cut, rs).dir.temps[cut]);
    hide WriteTemps;
  }

  /** If the active file is on stable storage, so is the active file after publishing. */
  lemma PublishedSynced(f: Files, x: File, bs: seq<nat>, k: nat, cut: nat, next: nat)
    requires k < |bs| && x.synced == |x.body| && SyncedOn(f, [LastBase(bs)])
    ensures SyncedOn(f[cut := x], [LastBase(Overlap(bs, k, cut, next).bs)])
  {
    assert [LastBase(bs)][0] in f;
    LastAfterCut(bs, k, cut);
    assert k + 1 == |bs| ==> [cut] + bs[k + 1..] == [cut];
  }

  lemma RewriteBranch(s: St, h: seq<Payload>, durable: nat, crash: bool, upTo: nat, cfg: Config)
    requires Running(s, h, durable, crash, cfg.maxRecordSize) && Rewrites(s.w, upTo)
    ensures s.w.bases != []
    ensures var k := BoundaryIndex(s.w.bases, upTo);
      && Cut(s, upTo, cfg) == CutRewriteBoundary(s, k, upTo, cfg) && Inside(s.w.bases, k, upTo, Next(h))
      && (k == |s.w.bases| - 1 ==> PublishesAbove(s.w, upTo))
  {
    hide Running;
    RunningWriter(s, h, durable, crash, cfg.maxRecordSize);
    hide Ascending, CutRewriteBoundary;
    BoundaryIs(s.w.bases, upTo);
    var k := BoundaryIndex(s.w.bases, upTo);
    hide BoundaryIndex;
    NotABase(s.w.bases, k, upTo);
    assert Cut(s, upTo, cfg) == CutRewriteBoundary(s, k, upTo, cfg);
    hide Cut;
    assert Inside(s.w.bases, k, upTo, Next(h));
  }

  lemma NotABase(bs: seq<nat>, k: nat, cut: nat)
    requires k < |bs| && cut !in bs
    ensures bs[k] != cut
  {
  }

  /** The images of a cut that rewrites the boundary segment. */
  lemma CutImageAt(s: St, h: seq<Payload>, durable: nat, k: nat, cut: nat, cfg: Config, j: nat) returns (g: Files)
    requires Running(s, h, durable, true, cfg.maxRecordSize) && Inside(s.w.bases, k, cut, Next(h))
    requires k == |s.w.bases| - 1 ==> SyncedOn(s.dir.files, [LastBase(s.w.bases)])
    requires |s.trace| - 1 <= j < |CutRewriteBoundary(s, k, cut, cfg).st.trace|
    ensures cut !in s.dir.files && Published(g, s.w.bases, k, cut, h, durable)
    ensures CutImage(CutRewriteBoundary(s, k, cut, cfg).st.trace[j], s.dir.files, g, s.w.bases[..k + 1])
    ensures SyncedOn(s.dir.files, [LastBase(s.w.bases)]) ==>
      SyncedOn(g, [LastBase(Overlap(s.w.bases, k, cut, Next(h)).bs)])
  {
    hide RewriteFrom, CutRewriteBoundary, Published, Without, AtRest, Live, Overlap;
    PublishedBy(s, h, durable, k, cut, cfg);
    var body := s.dir.files[s.w.bases[k]].body;
    CutImages(s, k, cut, cfg);
    g := RewriteFrom(s, body, cut, cfg).st.dir.files;
    var x := RewriteFiles(s, body, cut, cfg);
    var r := CutRewriteBoundary(s, k, cut, cfg).st;
    if j == |s.trace| - 1 {
      assert r.trace[j] == s.dir;
    }
    if SyncedOn(s.dir.files, [LastBase(s.w.bases)]) {
      PublishedSynced(s.dir.files, x, s.w.bases, k, cut, Next(h));
    }
  }

  /** All or nothing: whichever of its steps a crash interrupts, a cut that rewrites its boundary
      segment leaves the log as it was or cut at `upTo`, short of unsynced records at most. */
  lemma CutAllOrNothing(s: St, h: seq<Payload>, durable: nat, upTo: nat, cfg: Config, j: nat, c: Dir) returns (n: nat)
    requires Running(s, h, durable, true, cfg.maxRecordSize) && Rewrites(s.w, upTo) && CutSafe(s.dir, s.w, upTo)
    requires |s.trace| - 1 <= j < |Cut(s, upTo, cfg).st.trace| && CrashImage(Cut(s, upTo, cfg).st.trace[j], c)
    ensures durable <= n && Decided(Cut(s, upTo, cfg).st.trace[j].files, c, h, s.w.bases[0], upTo, n, cfg.maxRecordSize)
    ensures SyncedOn(s.dir.files, [LastBase(s.w.bases)]) ==> n == |h|
  {
    hide Running, Decided, BoundaryIndex, CutRewriteBoundary;
    RewriteBranch(s, h, durable, true, upTo, cfg);
    var k := BoundaryIndex(s.w.bases, upTo);
    var im := Cut(s, upTo, cfg).st.trace[j];
    hide Cut, Published, CutImage, SyncedOn, Overlap;
    var g := CutImageAt(s, h, durable, k, upTo, cfg, j);
    n := DecidedImage(s, h, durable, k, upTo, g, im, c, cfg.maxRecordSize);
  }

  /** With nothing unsynced, that is exactly the old log or exactly the records from `upTo` on. */
  lemma CutExactlyOldOrNew(s: St, h: seq<Payload>, durable: nat, upTo: nat, cfg: Config, j: nat, c: Dir)
    requires Running(s, h, durable, true, cfg.maxRecordSize) && Rewrites(s.w, upTo)
    requires SyncedOn(s.dir.files, [LastBase(s.w.bases)])
    requires |s.trace| - 1 <= j < |Cut(s, upTo, cfg).st.trace| && CrashImage(Cut(s, upTo, cfg).st.trace[j], c)
    ensures var o := Recover(c, SegmentScanner(cfg.maxRecordSize));
      var log := LogOf(s.dir.files, cfg.maxRecordSize);
      && o.ok
      && LogOf(o.st.dir.files, cfg.maxRecordSize)
         == (if upTo in Cut(s, upTo, cfg).st.trace[j].files then Above(log, upTo) else log)
      && o.st.w.nextLSN == s.w.nextLSN && o.st.w.lastLSN == s.w.lastLSN
  {
    RunningLast(s, h, durable, true, cfg.maxRecordSize);
    RunningLog(s, h, durable, true, cfg.maxRecordSize);
    BoundsOf(s, h, durable, true, cfg.maxRecordSize);
    AboveBelow(h, s.w.bases[0], upTo);
    CutSafeSynced(s, upTo);
    hide Cut, Running, SyncedOn, LogOf, CutSafe, Gapless;
    var n := CutAllOrNothing(s, h, durable, upTo, cfg, j, c);
    DecidedWhole(Cut(s, upTo, cfg).st.trace[j].files, c, h, s.w.bases[0], upTo, cfg.maxRecordSize);
    hide Decided;
  }

  lemma CutSafeSynced(s: St, upTo: nat)
    requires s.w.bases != [] && SyncedOn(s.dir.files, [LastBase(s.w.bases)])
    ensures CutSafe(s.dir, s.w, upTo)
  {
    hide SyncedOn;
  }

  lemma DecidedWhole(im: Files, c: Dir, h: seq<Payload>, first: nat, cut: nat, maxRec: nat)
    requires Decided(im, c, h, first, cut, |h|, maxRec)
    ensures var o := Recover(c, SegmentScanner(maxRec));
      && o.ok && o.st.w.nextLSN == Next(h) && o.st.w.lastLSN == |h|
      && Interval(h, if cut in im then cut else first, Next(h))
      && LogOf(o.st.dir.files, maxRec) == Recs(h, if cut in im then cut else first, Next(h))
  {
    hide Recover, LogOf, Laid;
    assert h[..|h|] == h;
  }

  lemma RunningLast(s: St, h: seq<Payload>, durable: nat, crash: bool, maxRec: nat)
    requires Running(s, h, durable, crash, maxRec)
    ensures s.w.lastLSN == |h|
  {
    hide Laid, Live;
  }
}
