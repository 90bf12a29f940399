/** What is cut stays cut: over a whole run the start of the log never moves back. */
module RunStarts {
  import opened Records
  import opened History
  import opened Directory
  import opened State
  import opened Recovery
  import opened RecoveryIdempotence
  import opened Layout
  import opened LayoutRecovery
  import opened Resting
  import opened Crash
  import opened Steps
  import opened WriterOps
  import opened Operations
  import opened Retention
  import opened Cutting
  import opened Exactness
  import opened AtomicCut
  import opened CutSafety
  import opened Runs
  import opened RunTheorems

  /** The base of the first segment of the log that is open, or that opening gives. */
  ghost function StartOf(y: System, cfg: Config): nat
    requires Current(y, cfg).w.bases != []
  {
    Current(y, cfg).w.bases[0]
  }

  /** What a crash leaves of a laid-out directory opens at the same base. */
  lemma CrashStart(f: Files, c: Dir, t: Shape, h: seq<Payload>, assured: nat, bound: nat, maxRec: nat)
    requires RecoverableAs(f, t, h, assured, bound, maxRec) && CrashedFiles(f, c.files)
    ensures var o := Recover(c, SegmentScanner(maxRec));
      o.st.w.bases != [] && t.bs != [] && o.st.w.bases[0] == t.bs[0]
  {
    hide Laid, Durable, Safe, Readable, CrashedFiles, Recover, LogOf;
    var n := CrashRecovers(f, c, t, h, assured, maxRec);
  }

  lemma {:induction false} PathEvolves(s: St, r: St, b: Bounds, j: nat)
    requires Path(s, r, b) && |s.trace| - 1 <= j < |r.trace|
    ensures Evolves(s.dir, r.trace[j])
    decreases j
  {
    hide Passing, Evolves;
    if j == |s.trace| - 1 {
      assert r.trace[j] == s.dir;
      EvolvesRefl(s.dir);
    } else {
      PathEvolves(s, r, b, j - 1);
      EvolvesChain(s.dir, r.trace[j - 1], r.trace[j]);
    }
  }

  lemma RunningLowest(s: St, h: seq<Payload>, durable: nat, crash: bool, maxRec: nat)
    requires Running(s, h, durable, crash, maxRec)
    ensures s.w.bases != [] && forall b | b in s.dir.files :: s.w.bases[0] <= b
  {
    LaidRange(s.dir.files, Plain(s.w.bases), h);
    hide Laid, Live;
    assert [] + s.w.bases == s.w.bases;
  }

  /** An image of an operation, crashed, opens no lower than the log it started from. */
  lemma ImageStart(s: St, r: St, b: Bounds, j: nat, c: Dir, h: seq<Payload>, bound: nat, maxRec: nat)
    requires Running(s, h, b.durable, true, maxRec) && Path(s, r, b) && Passing(s.dir, b)
    requires b.crash && Storable(b.h, maxRec) && b.floor == Floor(bound)
    requires |s.trace| - 1 <= j < |r.trace| && CrashImage(r.trace[j], c)
    ensures var o := Recover(c, SegmentScanner(maxRec));
      o.st.w.bases != [] && s.w.bases != [] && s.w.bases[0] <= o.st.w.bases[0]
  {
    hide Running, Path, Passing, Storable, CrashImage, Recover, Evolves;
    PathImage(s, r, b, j);
    PathEvolves(s, r, b, j);
    RunningLowest(s, h, b.durable, true, maxRec);
    BasesStayLow(s.dir, r.trace[j], s.w.bases[0]);
    PassingStart(r.trace[j], b, c, s.w.bases[0], bound, maxRec);
  }

  lemma PassingStart(d: Dir, b: Bounds, c: Dir, first: nat, bound: nat, maxRec: nat)
    requires Passing(d, b) && b.crash && Storable(b.h, maxRec) && b.floor == Floor(bound) && CrashImage(d, c)
    requires forall x | x in d.files :: first <= x
    ensures var o := Recover(c, SegmentScanner(maxRec));
      o.st.w.bases != [] && first <= o.st.w.bases[0]
  {
    hide Laid, Durable, Safe, Storable, TornTail, Recover;
    var m: nat, t: Shape :| PassingAt(d, b, m, t);
    NoTail(maxRec);
    StorablePrefix(b.h, m, maxRec);
    FirstBaseIn(d.files, t, b.h[..m]);
    assert RecoverableAs(d.files, t, b.h[..m], b.durable, bound, maxRec);
    CrashStart(d.files, c, t, b.h[..m], b.durable, bound, maxRec);
  }

  lemma OpStart(s: St, h: seq<Payload>, op: Op, assured: nat, bound: nat, cfg: Config)
    requires Open(s, h, assured, bound, cfg.maxRecordSize) && s.w.bases != []
    requires op.DoCut? ==> CutSafe(s.dir, s.w, op.upTo)
    ensures Perform(s, op, cfg).w.bases != [] && s.w.bases[0] <= Perform(s, op, cfg).w.bases[0]
  {
    hide Running, Commit, Truncate, Cut, CutSafe, SyncActive;
    match op
    case DoCommit(batch) => CommitBase(s, batch, cfg);
    case DoTruncate(upTo) => TruncateStart(s, h, assured, upTo, cfg.maxRecordSize);
    case DoCut(upTo) => CutStart(s, h, assured, upTo, cfg);
    case DoSync => SyncBase(s);
  }

  lemma TruncateStart(s: St, h: seq<Payload>, assured: nat, upTo: nat, maxRec: nat)
    requires Running(s, h, assured, true, maxRec) && s.w.bases != []
    ensures var r := Truncate(s, upTo);
      r.w.bases != [] && s.w.bases[0] <= r.w.bases[0]
  {
    RunningAscending(s, h, assured, true, maxRec);
    hide Running;
    TruncateBases(s, upTo);
    hide Truncate, Deletable;
    SuffixStart(s.w.bases, Deletable(s.w.bases, upTo));
  }

  lemma SuffixStart(bases: seq<nat>, k: nat)
    requires k < |bases| && Ascending(bases)
    ensures bases[0] <= bases[k..][0]
  {
  }

  lemma CutStart(s: St, h: seq<Payload>, assured: nat, upTo: nat, cfg: Config)
    requires Running(s, h, assured, true, cfg.maxRecordSize) && s.w.bases != []
    ensures var r := Cut(s, upTo, cfg).st;
      r.w.bases != [] && s.w.bases[0] <= r.w.bases[0]
  {
    hide Running, Cut, LogOf, Above;
    CutExact(s, h, assured, true, upTo, cfg);
    BoundsOf(s, h, assured, true, cfg.maxRecordSize);
    BoundsOf(Cut(s, upTo, cfg).st, h, assured, false, cfg.maxRecordSize);
  }

  lemma CompletesStart(y: System, z: System, h: seq<Payload>, op: Op, cfg: Config)
    requires Good(y, h, cfg) && Completes(y, z, op, cfg, Kills)
    requires Current(y, cfg).w.bases != [] && Current(z, cfg).w.bases != []
    ensures StartOf(y, cfg) <= StartOf(z, cfg)
  {
    hide Books, Open, Perform, CutSafe, Fitting, Acknowledged;
    OpStart(y.m.st, h, op, y.assured, y.bound, cfg);
  }

  lemma InterruptedStart(y: System, z: System, h: seq<Payload>, op: Op, j: nat, c: Dir, cfg: Config)
    requires Good(y, h, cfg) && Interrupted(y, z, op, j, c, cfg, Kills)
      && cfg.maxRecordSize <= MAX_PAYLOAD + HEADER_SIZE
    requires Current(y, cfg).w.bases != [] && Current(z, cfg).w.bases != []
    ensures StartOf(y, cfg) <= StartOf(z, cfg)
  {
    hide Books, Perform, CutSafe, Fitting, CrashImage, Running, Path, Passing, Storable, Payloads, Recover;
    var s := y.m.st;
    OpenFacts(s, h, y.assured, y.bound, cfg.maxRecordSize);
    FittingStorable(s, h, op, cfg);
    OpPath(s, h, op, y.assured, y.bound, cfg);
    OpPasses(s, h, op, y.assured, y.bound, cfg.maxRecordSize);
    ImageStart(s, Perform(s, op, cfg), OpBounds(h, s, op, y.assured, y.bound), j, c, h, NewBound(s, op, y.bound),
               cfg.maxRecordSize);
  }

  lemma ReopensStart(y: System, z: System, h: seq<Payload>, cfg: Config)
    requires Good(y, h, cfg) && Reopens(y, z, cfg)
    requires Current(y, cfg).w.bases != [] && Current(z, cfg).w.bases != []
    ensures StartOf(y, cfg) == StartOf(z, cfg)
  {
    hide Books, Recoverable, Recover, Open;
    RecoverableReopens(y.m.dir, h, y.assured, y.bound, cfg.maxRecordSize);
  }

  /** A crash inside recovery leaves a directory that opens at the same base. */
  lemma ReopeningStart(d: Dir, h: seq<Payload>, assured: nat, bound: nat, j: nat, c: Dir, maxRec: nat)
    requires Recoverable(d.files, h, assured, bound, maxRec)
    requires var trace := Recover(d, SegmentScanner(maxRec)).st.trace; j < |trace| && CrashImage(trace[j], c)
    ensures var o, p := Recover(d, SegmentScanner(maxRec)), Recover(c, SegmentScanner(maxRec));
      o.st.w.bases != [] && p.st.w.bases != [] && o.st.w.bases[0] == p.st.w.bases[0]
  {
    var im := Recover(d, SegmentScanner(maxRec)).st.trace[j];
    if d.files == map[] && h == [] && assured == 0 {
      hide Open, ScanSegment;
      EmptyReopens(d, bound, maxRec);
      NoFilesCrash(im, c);
      FreshStart(d, maxRec);
      FreshStart(c, maxRec);
    } else {
      hide Laid, Durable, Safe, Recover, ScanSegment, Readable, AtRest, Descends, RecoverableAs, CrashImage;
      var t :| RecoverableAs(d.files, t, h, assured, bound, maxRec);
      DescentStart(d, t, im, h, assured, bound, c, maxRec);
    }
  }

  lemma DescentStart(d: Dir, t: Shape, im: Dir, h: seq<Payload>, assured: nat, bound: nat, c: Dir, maxRec: nat)
    requires RecoverableAs(d.files, t, h, assured, bound, maxRec)
    requires im in Recover(d, SegmentScanner(maxRec)).st.trace && CrashImage(im, c)
    ensures var o, p := Recover(d, SegmentScanner(maxRec)), Recover(c, SegmentScanner(maxRec));
      o.st.w.bases != [] && p.st.w.bases != [] && o.st.w.bases[0] == p.st.w.bases[0]
  {
    hide Laid, Durable, Safe, Recover, ScanSegment, Readable, AtRest;
    RecoverLaid(d, t, h, maxRec);
    var u: Shape :| Laid(im.files, u, h) && Readable(u, h, maxRec) && NoLess(d.files, t, im.files, u, h);
    assert RecoverableAs(im.files, u, h, assured, bound, maxRec);
    CrashStart(im.files, c, u, h, assured, bound, maxRec);
  }

  /** An empty directory, or one with just the first segment, opens at base 1. */
  lemma FreshStart(d: Dir, maxRec: nat)
    requires d.files == map[] || d.files == map[1 := EMPTY_FILE]
    ensures Recover(d, SegmentScanner(maxRec)).st.w.bases == [1]
  {
    SegmentScannerRescannable(maxRec);
    var scan := SegmentScanner(maxRec);
    hide ScanSegment, Rescannable;
    if d.files == map[] {
      var s, names := RecoverWhole(d, scan);
      NoFilesNoNames(names);
      EmptyDirectoryImages(d, s, scan);
    } else {
      RecoverFreshLog(d, scan);
    }
  }

  lemma MoveStart(y: System, z: System, h: seq<Payload>, cfg: Config)
    requires Good(y, h, cfg) && Moves(y, z, cfg, Kills) && cfg.maxRecordSize <= MAX_PAYLOAD + HEADER_SIZE
    requires Current(y, cfg).w.bases != [] && Current(z, cfg).w.bases != []
    ensures StartOf(y, cfg) <= StartOf(z, cfg)
  {
    hide Good, Completes, Interrupted, Reopens, CrashesReopening, Current;
    if op :| Completes(y, z, op, cfg, Kills) {
      CompletesStart(y, z, h, op, cfg);
    } else if op, j, c :| Interrupted(y, z, op, j, c, cfg, Kills) {
      InterruptedStart(y, z, h, op, j, c, cfg);
    } else if Reopens(y, z, cfg) {
      ReopensStart(y, z, h, cfg);
    } else {
      var j: nat, c :| CrashesReopening(y, z, j, c, cfg, Kills);
      CrashesReopeningStart(y, z, h, j, c, cfg);
    }
  }

  lemma CrashesReopeningStart(y: System, z: System, h: seq<Payload>, j: nat, c: Dir, cfg: Config)
    requires Good(y, h, cfg) && CrashesReopening(y, z, j, c, cfg, Kills)
    requires Current(y, cfg).w.bases != [] && Current(z, cfg).w.bases != []
    ensures StartOf(y, cfg) == StartOf(z, cfg)
  {
    hide Books, Recoverable, Recover, CrashImage;
    ReopeningStart(y.m.dir, h, y.assured, y.bound, j, c, cfg.maxRecordSize);
  }

  /** The start of the log never moves back, through operations, crashes and reopenings: what a completed
      truncation or cut removed is never there again. */
  lemma {:induction false} CutsStayCut(ys: seq<System>, cfg: Config, i: nat, j: nat)
    requires Run(ys, cfg, Kills) && i <= j < |ys|
    ensures Current(ys[i], cfg).w.bases != [] && Current(ys[j], cfg).w.bases != []
    ensures StartOf(ys[i], cfg) <= StartOf(ys[j], cfg)
    ensures forall r | r in LogOf(Current(ys[j], cfg).dir.files, cfg.maxRecordSize) :: StartOf(ys[i], cfg) <= r.lsn
    decreases j - i
  {
    hide Moves, Good, Current, LogOf;
    var h := RunGood(ys, cfg, j);
    CurrentOpen(ys[j], h, cfg);
    LogAbove(h, Current(ys[j], cfg).w.bases[0]);
    if i < j {
      CutsStayCut(ys, cfg, i, j - 1);
      var g := RunGood(ys, cfg, j - 1);
      assert MovesAt(ys, j - 1, cfg, Kills);
      MoveStart(ys[j - 1], ys[j], g, cfg);
    }
  }

  lemma LogAbove(h: seq<Payload>, a: nat)
    requires Interval(h, a, History.Next(h))
    ensures forall r | r in Recs(h, a, History.Next(h)) :: a <= r.lsn
  {
  }
}
