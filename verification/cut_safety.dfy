/** Exactly when CutOffset is safe against a power failure. */
module CutSafety {
  import opened Bytes
  import opened Seqs
  import opened Records
  import opened History
  import opened Directory
  import opened State
  import opened Recovery
  import opened RecoveryTheorems
  import opened RecoveryIdempotence
  import opened Layout
  import opened Resting
  import opened Crash
  import opened Steps
  import opened WriterOps
  import opened Operations
  import opened Cutting
  import opened Exactness
  import opened AtomicCut

  /** The directory `c` recovers to a prefix of `h` that has every record up to LSN `durable` and
      starts no later than `floor`. */
  ghost predicate Recovers(c: Dir, h: seq<Payload>, low: nat, floor: nat, maxRec: nat) {
    exists n: nat :: RecoversTo(c, h, n, low, floor, maxRec)
  }

  ghost predicate RecoversTo(c: Dir, h: seq<Payload>, n: nat, low: nat, floor: nat, maxRec: nat) {
    var o := Recover(c, SegmentScanner(maxRec));
    && low <= n <= |h|
    && o.ok && AtRest(o.st.dir, o.st.w, h[..n], maxRec) && o.st.w.bases[0] <= floor
  }

  lemma PrefixOfPrefix(h: seq<Payload>, n: nat, m: nat)
    requires n <= m <= |h|
    ensures h[..m][..n] == h[..n]
  {
  }

  /** Every directory an operation passes through survives a crash. */
  lemma PassingRecovers(d: Dir, b: Bounds, c: Dir, maxRec: nat)
    requires Passing(d, b) && b.crash && Storable(b.h, maxRec) && CrashImage(d, c)
    ensures Recovers(c, b.h, b.durable, b.floor, maxRec)
  {
    hide Laid, Durable, Safe, Storable, TornTail, AtRest, Recover, LogOf, SyncedOn;
    var m: nat, t: Shape :| PassingAt(d, b, m, t);
    NoTail(maxRec);
    StorablePrefix(b.h, m, maxRec);
    var n := CrashRecovers(d.files, c, t, b.h[..m], b.durable, maxRec);
    PrefixOfPrefix(b.h, n, m);
    assert RecoversTo(c, b.h, n, b.durable, b.floor, maxRec);
  }

  lemma PathImage(s: St, r: St, b: Bounds, j: nat)
    requires Path(s, r, b) && Passing(s.dir, b) && |s.trace| - 1 <= j < |r.trace|
    ensures Passing(r.trace[j], b)
  {
    hide Passing, Evolves;
    if j == |s.trace| - 1 {
      assert r.trace[j] == s.dir;
    }
  }

  /** The active file cut one byte short, under a file published above it. */
  function Shortened(f: File): File
    requires f.body != []
  {
    f.(body := f.body[..|f.body| - 1])
  }

  lemma ShortSpan(h: seq<Payload>, b: nat, maxRec: nat) returns (n: nat, t: seq<byte>)
    requires Storable(h, maxRec) && Interval(h, b, Next(h)) && Span(h, b, Next(h)) != []
    ensures Interval(h, b, n) && t != [] && TornTail(t, maxRec)
    ensures Span(h, b, Next(h))[..|Span(h, b, Next(h))| - 1] == Span(h, b, n) + t
  {
    var size := |Span(h, b, Next(h))|;
    n, t := CutSpan(h, b, Next(h), size - 1, maxRec);
    if t == [] {
      EmptyUnit(Span(h, b, n));
      SpanMonotone(h, b, n, Next(h));
    }
  }

  /** Scanning it reports a torn record. */
  lemma ShortTorn(f: File, h: seq<Payload>, b: nat, maxRec: nat)
    requires Storable(h, maxRec) && Interval(h, b, Next(h)) && f.body == Span(h, b, Next(h)) && f.body != []
    ensures var r := SegmentScanner(maxRec)(Shortened(f).body);
      r.err.Some? && (r.records > 0 ==> r.lastLSN >= 1)
  {
    hide ScanAll, Frame;
    var n, t := ShortSpan(h, b, maxRec);
    hide Span, TornTail;
    ScanSpan(h, b, n, t, maxRec);
  }

  lemma TornRefused(f: Files, names: seq<nat>, i: nat, scan: BodyScanner)
    requires Listed(f, names) && i < |names| - 1 && Res(f, names[i], scan).err.Some?
    ensures !Accepts(f, names, scan)
  {
    assert !Follows(f, names, i, scan);
  }

  /** Such a directory does not open. */
  lemma TornInside(f: Files, bs: seq<nat>, h: seq<Payload>, cut: nat, x: File, c: Dir, maxRec: nat)
    requires bs != [] && Laid(f, Plain(bs), h) && Storable(h, maxRec)
    requires LastBase(bs) < cut && Interval(h, cut, Next(h)) && x.body == Span(h, cut, Next(h))
    requires LastBase(bs) in f && f[LastBase(bs)].body != []
    requires c.files == f[cut := x][LastBase(bs) := Shortened(f[LastBase(bs)])]
    ensures !Recover(c, SegmentScanner(maxRec)).ok
  {
    hide Span, ScanSegment, Storable, Laid, Recover, RecoverListed;
    var scan := SegmentScanner(maxRec);
    var b := LastBase(bs);
    TornAtBase(f, bs, h, maxRec);
    assert c.files[b].body == Shortened(f[b]).body;
    var s, names := RecoverWhole(c, scan);
    LaidRange(f, Plain(bs), h);
    assert b in names && cut in names;
    var i :| 0 <= i < |names| && names[i] == b;
    var k :| 0 <= k < |names| && names[k] == cut;
    assert i < k;
    if Listed(c.files, names) {
      TornRefused(c.files, names, i, scan);
    }
  }

  lemma TornAtBase(f: Files, bs: seq<nat>, h: seq<Payload>, maxRec: nat)
    requires bs != [] && Laid(f, Plain(bs), h) && Storable(h, maxRec)
    requires LastBase(bs) in f && f[LastBase(bs)].body != []
    ensures SegmentScanner(maxRec)(Shortened(f[LastBase(bs)]).body).err.Some?
  {
    var b := LastBase(bs);
    NoTail(maxRec);
    hide Span, ScanSegment, Storable, TornTail;
    EmptyUnit(Span(h, b, Next(h)));
    assert Tip(f, b, h, []);
    hide Laid;
    ShortTorn(f[b], h, b, maxRec);
  }

  /** Losing the last byte of the active file. */
  function LoseByte(d: Dir, b: nat): Dir
    requires b in d.files && d.files[b].body != []
  {
    Dir(d.files[b := Shortened(d.files[b])], map[], map[])
  }

  lemma LoseByteIsCrash(d: Dir, b: nat)
    requires b in d.files && d.files[b].synced < |d.files[b].body|
    requires forall x | x in d.files :: d.files[x].synced <= |d.files[x].body|
    ensures CrashImage(d, LoseByte(d, b))
  {
    var c := LoseByte(d, b);
    forall x | x in d.files
      ensures CrashedFile(d.files[x], c.files[x])
    {
      assert d.files[x].body[..|d.files[x].body|] == d.files[x].body;
    }
  }

  /** A file published above an unsynced active one, and then a power failure. */
  lemma PublishedAbove(s: St, im: Dir, h: seq<Payload>, cut: nat, x: File, durable: nat, crash: bool, maxRec: nat)
    requires Running(s, h, durable, crash, maxRec) && s.w.bases != []
    requires LastBase(s.w.bases) < cut && Interval(h, cut, Next(h))
    requires x.body == Span(h, cut, Next(h)) && x.synced <= |x.body|
    requires im.files == s.dir.files[cut := x] && !SyncedOn(s.dir.files, [LastBase(s.w.bases)])
    ensures LastBase(s.w.bases) in im.files && im.files[LastBase(s.w.bases)].body != []
    ensures var c := LoseByte(im, LastBase(s.w.bases));
      CrashImage(im, c) && !Recover(c, SegmentScanner(maxRec)).ok
  {
    hide Live, Laid, Storable, Span, Recover;
    var b := LastBase(s.w.bases);
    LaidWell(s.dir.files, Plain(s.w.bases), h);
    assert [b][0] == b;
    assert !(s.dir.files[b].synced == |s.dir.files[b].body|);
    LoseByteIsCrash(im, b);
    TornInside(s.dir.files, s.w.bases, h, cut, x, LoseByte(im, b), maxRec);
  }

  /** The image at which cut-everything has published its empty segment. */
  lemma RestartImage(s: St)
    requires s.w.bases != [] && s.w.nextLSN !in s.dir.files
    ensures var r := CutEverything(s);
      && |s.trace| + 1 < |r.trace|
      && r.trace[|s.trace| + 1].files == s.dir.files[s.w.nextLSN := EMPTY_FILE]
  {
    var s1 := Do(Do(s, Remove(s.w.nextLSN)), Create(s.w.nextLSN));
    RemoveAllEffect(s1, s.w.bases);
    hide RemoveAll;
    assert CutEverything(s).trace[|s.trace| + 1] == s1.trace[|s.trace| + 1];
  }

  /** The image at which a rewriting cut has published seg-cut. */
  lemma PublishImage(s: St, h: seq<Payload>, durable: nat, k: nat, cut: nat, cfg: Config) returns (j: nat, x: File)
    requires Running(s, h, durable, false, cfg.maxRecordSize) && Inside(s.w.bases, k, cut, Next(h))
      && k == |s.w.bases| - 1
    ensures Interval(h, cut, Next(h)) && x.body == Span(h, cut, Next(h)) && x.synced == |x.body|
    ensures var r := CutRewriteBoundary(s, k, cut, cfg).st;
      |s.trace| <= j < |r.trace| && r.trace[j].files == s.dir.files[cut := x]
  {
    hide Running, Laid, Live, RewriteFrom, Path, Overlap, Span, RemoveAll;
    RunningFirst(s, h, durable, false, cfg.maxRecordSize);
    var b := Bounds(h, |h|, durable, Next(h), false);
    RewritePath(s, h, k, cut, b, cfg);
    var body := s.dir.files[s.w.bases[k]].body;
    x := RewriteFiles(s, body, cut, cfg);
    var t := RewriteFrom(s, body, cut, cfg).st;
    PublishTrace(s, body, cut, cfg);
    RemoveAllEffect(t, s.w.bases[..k + 1]);
    j := |t.trace| - 1;
    PublishedBody(t.dir, s.w.bases, k, cut, h, durable);
  }

  lemma {:induction false} WriteTempsGrows(s: St, cut: nat, rs: seq<Record>)
    ensures s.trace <= WriteTemps(s, cut, rs).trace
    decreases |rs|
  {
    hide Frame;
    if rs != [] {
      WriteTempsGrows(if rs[0].lsn < cut then s else Do(s, WriteTemp(cut, Frame(rs[0]))), cut, rs[1..]);
    }
  }

  lemma PublishTrace(s: St, body: seq<byte>, cut: nat, cfg: Config)
    requires RewriteFrom(s, body, cut, cfg).ok
    ensures var t := RewriteFrom(s, body, cut, cfg).st;
      |s.trace| < |t.trace| && t.trace[|t.trace| - 1] == t.dir
  {
    hide ScanAll;
    WriteTempsGrows(Do(Do(s, RemoveTemp(cut)), CreateTemp(cut)), cut, ScanAll(body, cfg.maxRecordSize).recs);
    hide WriteTemps;
  }

  lemma PublishedBody(d: Dir, bs: seq<nat>, k: nat, cut: nat, h: seq<Payload>, durable: nat)
    requires k == |bs| - 1 && Live(d, Overlap(bs, k, cut, Next(h)), h, durable, false)
    ensures cut in d.files && Interval(h, cut, Next(h)) && d.files[cut].body == Span(h, cut, Next(h))
  {
    hide Whole, Ordered;
    assert Overlap(bs, k, cut, Next(h)).bs == [cut];
    assert Tip(d.files, cut, h, []);
    EmptyUnit(Span(h, cut, Next(h)));
  }

  /** An unsafe cut has an image, and that image a crash, after which the log does not open. */
  lemma UnsafeImage(s: St, h: seq<Payload>, durable: nat, crash: bool, upTo: nat, cfg: Config) returns (j: nat, c: Dir)
    requires Running(s, h, durable, crash, cfg.maxRecordSize) && s.w.bases != [] && !CutSafe(s.dir, s.w, upTo)
    ensures |s.trace| <= j < |Cut(s, upTo, cfg).st.trace| && CrashImage(Cut(s, upTo, cfg).st.trace[j], c)
    ensures !Recover(c, SegmentScanner(cfg.maxRecordSize)).ok
  {
    hide Running;
    var maxRec := cfg.maxRecordSize;
    RunningWriter(s, h, durable, crash, maxRec);
    RunningCalm(s, h, durable, crash, maxRec);
    var cut := Min(upTo, s.w.nextLSN);
    var x;
    if cut == s.w.nextLSN {
      j, x := |s.trace| + 1, EMPTY_FILE;
      EmptySpan(h, Next(h));
      EmptyUnit(Span(h, Next(h), Next(h)));
      RunningNextIsNew(s, h, durable, crash, maxRec);
      RestartImage(s);
    } else {
      AboveActiveRewrites(s.w, cut);
      RewriteBranch(s, h, durable, crash, upTo, cfg);
      var k := BoundaryIndex(s.w.bases, upTo);
      AboveActiveIsLast(s.w.bases, k, upTo, Next(h));
      hide BoundaryIndex, CutRewriteBoundary, Cut, Ascending, CutSafe;
      j, x := PublishImage(s, h, durable, k, upTo, cfg);
    }
    hide Cut, Recover, Span;
    PublishedAbove(s, Cut(s, upTo, cfg).st.trace[j], h, cut, x, durable, crash, maxRec);
    c := LoseByte(Cut(s, upTo, cfg).st.trace[j], LastBase(s.w.bases));
  }

  lemma RunningNextIsNew(s: St, h: seq<Payload>, durable: nat, crash: bool, maxRec: nat)
    requires Running(s, h, durable, crash, maxRec) && s.w.bases != [] && LastBase(s.w.bases) < Next(h)
    ensures Next(h) !in s.dir.files
  {
    hide Live, Laid;
    NextIsNew(s.dir, s.w.bases, h);
  }

  lemma AboveActiveRewrites(w: Writer, cut: nat)
    requires w.bases != [] && Ascending(w.bases) && w.Active() < cut
    ensures cut !in w.bases
  {
  }

  lemma AboveActiveIsLast(bs: seq<nat>, k: nat, cut: nat, next: nat)
    requires Inside(bs, k, cut, next) && Ascending(bs) && LastBase(bs) < cut
    ensures k == |bs| - 1
  {
  }

  /** Every crash at every step of the cut leaves a log that opens. */
  ghost predicate SurvivesCut(s: St, upTo: nat, cfg: Config)
    requires s.w.bases != []
  {
    var r := Cut(s, upTo, cfg).st;
    forall j: nat, c | |s.trace| - 1 <= j < |r.trace| && CrashImage(r.trace[j], c) ::
      Recover(c, SegmentScanner(cfg.maxRecordSize)).ok
  }

  /** CutOffset survives a power failure at each of its steps if and only if it publishes no file
      above the active one or has that one on stable storage beforehand. */
  lemma CutSafeIff(s: St, h: seq<Payload>, durable: nat, upTo: nat, cfg: Config)
    requires Running(s, h, durable, true, cfg.maxRecordSize)
    ensures s.w.bases != []
    ensures SurvivesCut(s, upTo, cfg) <==> CutSafe(s.dir, s.w, upTo)
  {
    RunningFirst(s, h, durable, true, cfg.maxRecordSize);
    if CutSafe(s.dir, s.w, upTo) {
      hide CutSafe;
      SafeCutSurvives(s, h, durable, upTo, cfg);
    } else {
      hide CutSafe;
      var j, c := UnsafeImage(s, h, durable, true, upTo, cfg);
    }
  }

  /** Where a cut may leave the start of the log. */
  function CutFloor(w: Writer, upTo: nat): nat
    requires w.bases != []
  {
    var cut := Min(upTo, w.nextLSN);
    if cut < w.bases[0] then w.bases[0] else cut
  }

  lemma RunningPasses(s: St, h: seq<Payload>, b: Bounds, maxRec: nat)
    requires Running(s, h, b.durable, b.crash, maxRec) && s.w.bases != []
    requires Allows(b, h, b.durable, b.crash, s.w.bases[0])
    ensures Passing(s.dir, b)
  {
    hide Live, AtRest;
    LiveStart(s.dir, s.w.bases, h, b.durable, b.crash, b);
  }

  lemma RunningStorable(s: St, h: seq<Payload>, durable: nat, crash: bool, maxRec: nat)
    requires Running(s, h, durable, crash, maxRec)
    ensures Storable(h, maxRec) && s.w.bases != [] && s.w.nextLSN == Next(h)
  {
    hide Live, Laid, Storable;
  }

  lemma SafeCutSurvives(s: St, h: seq<Payload>, durable: nat, upTo: nat, cfg: Config)
    requires Running(s, h, durable, true, cfg.maxRecordSize) && s.w.bases != [] && CutSafe(s.dir, s.w, upTo)
    ensures SurvivesCut(s, upTo, cfg)
    ensures var r := Cut(s, upTo, cfg).st;
      forall j: nat, c | |s.trace| - 1 <= j < |r.trace| && CrashImage(r.trace[j], c) ::
        Recovers(c, h, durable, CutFloor(s.w, upTo), cfg.maxRecordSize)
  {
    hide CutSafe, Recovers, Passing, Recover, Evolves, ScanAll, Recs, Frame, Running, Cut;
    RunningStorable(s, h, durable, true, cfg.maxRecordSize);
    var b := Bounds(h, |h|, durable, CutFloor(s.w, upTo), true);
    hide Path, Storable, AtRest;
    CutPath(s, h, upTo, b, cfg);
    RunningPasses(s, h, b, cfg.maxRecordSize);
    hide CrashImage, SegmentScanner, Allows, FirstAfterCut;
    var r := Cut(s, upTo, cfg).st;
    forall j: nat, c | |s.trace| - 1 <= j < |r.trace| && CrashImage(r.trace[j], c)
      ensures Recovers(c, h, durable, CutFloor(s.w, upTo), cfg.maxRecordSize)
      ensures Recover(c, SegmentScanner(cfg.maxRecordSize)).ok
    {
      PathImage(s, r, b, j);
      PassingRecovers(r.trace[j], b, c, cfg.maxRecordSize);
      RecoversOk(c, h, durable, CutFloor(s.w, upTo), cfg.maxRecordSize);
    }
  }

  lemma RecoversOk(c: Dir, h: seq<Payload>, low: nat, floor: nat, maxRec: nat)
    requires Recovers(c, h, low, floor, maxRec)
    ensures Recover(c, SegmentScanner(maxRec)).ok
  {
    hide Recover, AtRest;
  }
}
