/** When a published first LSN of 0 says that the log is empty: always, but for an empty batch on an empty log. */
module Flags {
  import opened Records
  import opened History
  import opened Directory
  import opened State
  import opened Recovery
  import opened RecoveryTheorems
  import opened RecoveryIdempotence
  import opened Layout
  import opened Resting
  import opened WriterOps
  import opened Operations
  import opened Retention
  import opened Cutting
  import opened Exactness
  import opened Runs

  /** The log of a running writer is empty when its first base is the next LSN. */
  lemma FlaggedIs(s: St, h: seq<Payload>, durable: nat, crash: bool, maxRec: nat)
    requires Running(s, h, durable, crash, maxRec)
    ensures Flagged(s, maxRec) <==> s.w.firstLSN == 0 || s.w.firstLSN < s.w.nextLSN
    ensures s.w.firstLSN <= s.w.nextLSN
  {
    hide Running, LogOf;
    RunningLog(s, h, durable, crash, maxRec);
    BoundsOf(s, h, durable, crash, maxRec);
  }

  lemma FlagAfterTruncate(s: St, h: seq<Payload>, durable: nat, crash: bool, upTo: nat, maxRec: nat)
    requires Running(s, h, durable, crash, maxRec)
    ensures s.w.bases != []
    ensures Flagged(Truncate(s, upTo), maxRec) <==> Flagged(s, maxRec)
  {
    hide Running, LogOf, Flagged, Truncate;
    RunningWriter(s, h, durable, crash, maxRec);
    TruncateExact(s, h, durable, crash, upTo, maxRec);
    FlaggedIs(s, h, durable, crash, maxRec);
    FlaggedIs(Truncate(s, upTo), h, durable, false, maxRec);
    TruncateFirst(s, upTo);
  }

  lemma TruncateFirst(s: St, upTo: nat)
    requires s.w.bases != [] && Ascending(s.w.bases) && (|s.w.bases| > 1 ==> LastBase(s.w.bases) < s.w.nextLSN)
    requires s.w.firstLSN == 0 || s.w.firstLSN == s.w.bases[0]
    ensures var r := Truncate(s, upTo);
      && r.w.nextLSN == s.w.nextLSN
      && (r.w == s.w || (|s.w.bases| > 1 && 0 < r.w.firstLSN < r.w.nextLSN && s.w.bases[0] < s.w.nextLSN))
  {
    hide Apply;
    var k := Deletable(s.w.bases, upTo);
    hide Deletable;
    if k > 0 {
      RemoveAllEffect(s, s.w.bases[..k]);
      BaseBelowNext(s.w.bases, k);
      assert s.w.bases[0] < s.w.bases[k];
    }
  }

  lemma FlagAfterCut(s: St, h: seq<Payload>, durable: nat, crash: bool, upTo: nat, cfg: Config)
    requires Running(s, h, durable, crash, cfg.maxRecordSize)
    ensures s.w.bases != []
    ensures Flagged(Cut(s, upTo, cfg).st, cfg.maxRecordSize) <==> Flagged(s, cfg.maxRecordSize)
  {
    hide Running, LogOf, Flagged, Cut;
    CutExact(s, h, durable, crash, upTo, cfg);
    FlaggedIs(s, h, durable, crash, cfg.maxRecordSize);
    FlaggedIs(Cut(s, upTo, cfg).st, h, durable, false, cfg.maxRecordSize);
  }

  /** Opening always leaves it right. */
  lemma FlagAfterOpening(y: System, z: System, h: seq<Payload>, cfg: Config)
    requires Good(y, h, cfg) && Reopens(y, z, cfg)
    ensures z.m.Up? && Flagged(z.m.st, cfg.maxRecordSize)
  {
    hide Recover, Recoverable, Books, LogOf, Fresh, Open;
    ReopensGood(y, z, h, cfg);
    var maxRec := cfg.maxRecordSize;
    RecoveredFirst(y.m.dir, h, y.assured, y.bound, maxRec);
    OpenRunning(z.m.st, h, y.assured, y.bound, maxRec);
    FreshWriter(Recover(y.m.dir, SegmentScanner(maxRec)).st);
    FlaggedIs(z.m.st, h, y.assured, true, maxRec);
  }

  lemma OpenRunning(s: St, h: seq<Payload>, assured: nat, bound: nat, maxRec: nat)
    requires Open(s, h, assured, bound, maxRec)
    ensures Running(s, h, assured, true, maxRec)
  {
    hide Running;
  }

  lemma FreshWriter(s: St)
    ensures Fresh(s).w == s.w
  {
  }

  lemma RecoveredFirst(d: Dir, h: seq<Payload>, assured: nat, bound: nat, maxRec: nat)
    requires Recoverable(d.files, h, assured, bound, maxRec)
    ensures var w := Recover(d, SegmentScanner(maxRec)).st.w; w.firstLSN == 0 || w.firstLSN < w.nextLSN
  {
    if d.files == map[] && h == [] && assured == 0 {
      var scan := SegmentScanner(maxRec);
      hide ScanSegment;
      var s, names := RecoverWhole(d, scan);
      NoFilesNoNames(names);
      EmptyDirectoryImages(d, s, scan);
    } else {
      var t :| RecoverableAs(d.files, t, h, assured, bound, maxRec);
      RecoverLaid(d, t, h, maxRec);
      LowestBelowNext(d.files, t, h);
      hide Laid, Durable, Safe, Recover, ScanSegment, Storable, TornTail, AtRest, Descends;
    }
  }

  lemma LowestBelowNext(f: Files, t: Shape, h: seq<Payload>)
    requires Laid(f, t, h)
    ensures t.bs != [] && t.bs[0] <= Next(h)
  {
    hide Whole, Tip;
    OrderedListing(t, Next(h));
  }

  /** Appending this batch to an empty log writes nothing, yet counts. */
  predicate Hollow(log: seq<Record>, batch: seq<Request>) {
    log == [] && Accepted(batch) == [] && AnyLive(batch)
  }

  /** In a run it fails exactly with such a batch: it holds after every opening, and a move takes it from a
      running log if and only if the move is one. */
  lemma FlagAfterMove(y: System, z: System, h: seq<Payload>, cfg: Config)
    requires Good(y, h, cfg) && Moves(y, z, cfg, Kills) && cfg.maxRecordSize <= MAX_PAYLOAD + HEADER_SIZE && z.m.Up?
    requires y.m.Up? ==> Flagged(y.m.st, cfg.maxRecordSize)
    ensures !Flagged(z.m.st, cfg.maxRecordSize) <==> exists batch ::
      Completes(y, z, DoCommit(batch), cfg, Kills) && Hollow(LogOf(y.m.st.dir.files, cfg.maxRecordSize), batch)
  {
    hide Good, Completes, Interrupted, Reopens, CrashesReopening, Flagged, Hollow, LogOf;
    if op :| Completes(y, z, op, cfg, Kills) {
      CompletesUp(y, z, op, cfg);
      FlagAfterOp(y, z, h, op, cfg);
      forall batch | Completes(y, z, DoCommit(batch), cfg, Kills)
        ensures !Flagged(z.m.st, cfg.maxRecordSize) <==> Hollow(LogOf(y.m.st.dir.files, cfg.maxRecordSize), batch)
      {
        FlagAfterOp(y, z, h, DoCommit(batch), cfg);
      }
    } else if Reopens(y, z, cfg) {
      FlagAfterOpening(y, z, h, cfg);
      OnlyRunningCompletes(y, z, cfg);
    } else {
      CrashesAreDown(y, z, cfg);
    }
  }

  lemma CompletesUp(y: System, z: System, op: Op, cfg: Config)
    requires Completes(y, z, op, cfg, Kills)
    ensures y.m.Up? && z.m.Up?
  {
    hide Perform, Allowed;
  }

  lemma OnlyRunningCompletes(y: System, z: System, cfg: Config)
    requires Reopens(y, z, cfg)
    ensures forall op :: !Completes(y, z, op, cfg, Kills)
  {
    hide Recover, Fresh;
  }

  lemma CrashesAreDown(y: System, z: System, cfg: Config)
    requires
      || (exists op, j, c :: Interrupted(y, z, op, j, c, cfg, Kills))
      || (exists j, c :: CrashesReopening(y, z, j, c, cfg, Kills))
    ensures z.m.Down?
  {
    hide Crashes, Recover, Perform;
  }

  lemma FlagAfterOp(y: System, z: System, h: seq<Payload>, op: Op, cfg: Config)
    requires Good(y, h, cfg) && Completes(y, z, op, cfg, Kills) && cfg.maxRecordSize <= MAX_PAYLOAD + HEADER_SIZE
    requires y.m.Up? && z.m.Up? && Flagged(y.m.st, cfg.maxRecordSize)
    ensures !Flagged(z.m.st, cfg.maxRecordSize)
      <==> op.DoCommit? && Hollow(LogOf(y.m.st.dir.files, cfg.maxRecordSize), op.batch)
  {
    hide Books, Flagged, LogOf, Running, Commit, Truncate, Cut, Accepted, AnyLive, CutSafe, Fitting, Acknowledged;
    hide Storable;
    var s, maxRec := y.m.st, cfg.maxRecordSize;
    OpenFacts(s, h, y.assured, y.bound, maxRec);
    FittingStorable(s, h, op, cfg);
    SettledFlag(Perform(s, op, cfg), maxRec);
    match op
    case DoCommit(batch) => FlagAfterCommit(s, h, y.assured, true, batch, cfg);
    case DoTruncate(upTo) => FlagAfterTruncate(s, h, y.assured, true, upTo, maxRec);
    case DoCut(upTo) => FlagAfterCut(s, h, y.assured, true, upTo, cfg);
    case DoSync => FlagAfterSync(s, h, y.assured, y.bound, cfg);
  }

  lemma SettledFlag(s: St, maxRec: nat)
    ensures Flagged(Settled(s), maxRec) <==> Flagged(s, maxRec)
  {
    hide LogOf;
  }

  lemma FlagAfterSync(s: St, h: seq<Payload>, assured: nat, bound: nat, cfg: Config)
    requires Open(s, h, assured, bound, cfg.maxRecordSize) && s.w.bases != [] && Storable(h, cfg.maxRecordSize)
    ensures Flagged(SyncActive(s), cfg.maxRecordSize) <==> Flagged(s, cfg.maxRecordSize)
  {
    hide Running, Flagged, Path, Storable, LogOf;
    OpenFacts(s, h, assured, bound, cfg.maxRecordSize);
    assert h + [] == h;
    OpCompletes(s, h, DoSync, assured, bound, cfg);
    FlaggedIs(s, h, assured, true, cfg.maxRecordSize);
    FlaggedIs(Settled(SyncActive(s)), h, s.w.lastLSN, true, cfg.maxRecordSize);
    SettledFlag(SyncActive(s), cfg.maxRecordSize);
  }
}
