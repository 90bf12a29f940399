/** What every run of the log guarantees. */
module RunTheorems {
  import opened Records
  import opened History
  import opened Directory
  import opened State
  import opened Recovery
  import opened RecoveryTheorems
  import opened RecoveryIdempotence
  import opened Layout
  import opened Steps
  import opened WriterOps
  import opened Operations
  import opened Cutting
  import opened Exactness
  import opened AtomicCut
  import opened CutSafety
  import opened Runs

  /** The state of the log: the running one, or the one that opening what is on disk would give. */
  ghost function Current(y: System, cfg: Config): St {
    match y.m
    case Up(s) => s
    case Down(d) => Recover(d, SegmentScanner(cfg.maxRecordSize)).st
  }

  /** The log consists of consecutive LSNs, holds only records that were written, and holds every
      acknowledged record at or above the highest truncation or cut asked for. */
  ghost predicate Faithful(log: seq<Record>, y: System) {
    && Gapless(log)
    && (forall r | r in log :: r in y.written)
    && (forall r | r in y.acked && r.lsn >= y.bound :: r in log)
  }

  lemma HistoryFaithful(y: System, h: seq<Payload>, a: nat, cfg: Config)
    requires Books(y, h, cfg) && Interval(h, a, History.Next(h)) && a <= Floor(y.bound)
    ensures Faithful(Recs(h, a, History.Next(h)), y)
    ensures forall i | 0 <= i < |y.acked| :: y.acked[i].lsn < History.Next(h)
  {
    var log := Recs(h, a, History.Next(h));
    forall r | r in log
      ensures r in y.written
    {
      var i :| 0 <= i < |log| && log[i] == r;
      assert r == Record(a + i - 1 + 1, h[a + i - 1]);
    }
    forall r | r in y.acked && r.lsn >= y.bound
      ensures r in log
    {
      var i :| 0 <= i < |y.acked| && y.acked[i] == r;
      assert InHistory(y.acked[i], h);
      assert log[r.lsn - a] == r;
    }
    forall i | 0 <= i < |y.acked|
      ensures y.acked[i].lsn < History.Next(h)
    {
      assert InHistory(y.acked[i], h);
    }
  }

  /** The log that is open, or that opening gives. */
  lemma CurrentOpen(y: System, h: seq<Payload>, cfg: Config)
    requires Good(y, h, cfg)
    ensures y.m.Down? ==> Recover(y.m.dir, SegmentScanner(cfg.maxRecordSize)).ok
    ensures var s := Current(y, cfg);
      && s.w.bases != [] && s.w.bases[0] <= Floor(y.bound) && s.w.nextLSN == History.Next(h)
      && Interval(h, s.w.bases[0], History.Next(h))
      && LogOf(s.dir.files, cfg.maxRecordSize) == Recs(h, s.w.bases[0], History.Next(h))
  {
    hide Books, Running, Recoverable, LogOf, Recover;
    var s := Current(y, cfg);
    if y.m.Down? {
      RecoverableReopens(y.m.dir, h, y.assured, y.bound, cfg.maxRecordSize);
      RunningLog(Fresh(s), h, y.assured, true, cfg.maxRecordSize);
      RunningStorable(Fresh(s), h, y.assured, true, cfg.maxRecordSize);
    } else {
      RunningLog(s, h, y.assured, true, cfg.maxRecordSize);
      RunningStorable(s, h, y.assured, true, cfg.maxRecordSize);
    }
  }

  /** At every point of every run the log opens, never reports corruption, and is faithful: after any
      crash at any step of any operation, or of recovery itself, nothing promised is missing,
      nothing invented is there, and no acknowledged LSN is ever handed out again. */
  lemma RunFaithful(ys: seq<System>, cfg: Config, i: nat)
    requires Run(ys, cfg, Kills) && i < |ys|
    ensures ys[i].m.Down? ==> Recover(ys[i].m.dir, SegmentScanner(cfg.maxRecordSize)).ok
    ensures var s := Current(ys[i], cfg);
      && Faithful(LogOf(s.dir.files, cfg.maxRecordSize), ys[i])
      && Ascends(ys[i].acked)
      && forall k | 0 <= k < |ys[i].acked| :: ys[i].acked[k].lsn < s.w.nextLSN
  {
    hide Run, LogOf, Recover, Faithful;
    var h := RunGood(ys, cfg, i);
    CurrentOpen(ys[i], h, cfg);
    hide Stored, Current;
    HistoryFaithful(ys[i], h, Current(ys[i], cfg).w.bases[0], cfg);
  }

  /** With a policy that syncs every commit, an acknowledgement is never lost by a crash. */
  lemma {:induction false} AcknowledgementsStay(ys: seq<System>, cfg: Config, i: nat, j: nat)
    requires Run(ys, cfg, Kills) && i <= j < |ys| && cfg.policy != SyncInterval
    ensures ys[i].acked <= ys[j].acked
    decreases j - i
  {
    hide Moves, Good;
    if i < j {
      AcknowledgementsStay(ys, cfg, i, j - 1);
      var h := RunGood(ys, cfg, j - 1);
      assert MovesAt(ys, j - 1, cfg, Kills);
      MoveKeeps(ys[j - 1], ys[j], h, cfg);
    }
  }

  lemma MoveKeeps(y: System, z: System, h: seq<Payload>, cfg: Config)
    requires Good(y, h, cfg) && Moves(y, z, cfg, Kills) && cfg.policy != SyncInterval
    ensures y.acked <= z.acked
  {
    hide Stored, Perform, Recover, Acknowledged, Ascends, AllIn, Attested, Allowed, Crashes;
    RetainedAll(y.acked, y.assured);
  }

  // Without kills, and with every commit synced, cuts need no proviso.

  lemma RemoveAllSynced(s: St, bs: seq<nat>)
    requires AllSynced(s.dir.files)
    ensures AllSynced(RemoveAll(s, bs).dir.files)
  {
    RemoveAllEffect(s, bs);
  }

  lemma CutSynced(s: St, upTo: nat, cfg: Config)
    requires s.w.bases != [] && AllSynced(s.dir.files) && Cut(s, upTo, cfg).ok
    ensures AllSynced(Cut(s, upTo, cfg).st.dir.files)
  {
    var cut := Min(upTo, s.w.nextLSN);
    if !(s.w.firstLSN == 0 || cut <= s.w.firstLSN) {
      if cut >= s.w.nextLSN {
        RestartSynced(s);
      } else {
        var k := BoundaryIndex(s.w.bases, cut);
        if s.w.bases[k] == cut {
          RemoveAllSynced(s, s.w.bases[..k]);
        } else {
          RewriteSynced(s, k, cut, cfg);
        }
      }
    }
  }

  lemma RestartSynced(s: St)
    requires s.w.bases != [] && AllSynced(s.dir.files)
    ensures AllSynced(CutEverything(s).dir.files)
  {
    var s1 := Do(Do(s, Remove(s.w.nextLSN)), Create(s.w.nextLSN));
    RemoveAllSynced(s1, s.w.bases);
    hide RemoveAll;
  }

  lemma RewriteSynced(s: St, k: nat, cut: nat, cfg: Config)
    requires k < |s.w.bases| && AllSynced(s.dir.files) && CutRewriteBoundary(s, k, cut, cfg).ok
    ensures AllSynced(CutRewriteBoundary(s, k, cut, cfg).st.dir.files)
  {
    var body := s.dir.files[s.w.bases[k]].body;
    var a := RewriteFrom(s, body, cut, cfg);
    var x := RewriteFiles(s, body, cut, cfg);
    hide RewriteFrom, RemoveAll;
    RemoveAllSynced(a.st, s.w.bases[..k + 1]);
  }

  lemma LaidSynced(f: Files, bs: seq<nat>, h: seq<Payload>)
    requires bs != [] && Laid(f, Plain(bs), h) && Durable(f, Plain(bs)) && SyncedOn(f, [LastBase(bs)])
    ensures AllSynced(f)
  {
    hide Span, Whole, Tip, Ascending;
    assert [] + bs == bs;
    SyncedParts(f, Front(bs), [LastBase(bs)]);
    assert Front(bs) + [LastBase(bs)] == bs;
    forall b | b in f
      ensures f[b].synced == |f[b].body|
    {
      assert b in Elements(bs);
      var i :| 0 <= i < |bs| && bs[i] == b;
    }
  }

  lemma CommitSynced(s: St, h: seq<Payload>, batch: seq<Request>, assured: nat, cfg: Config)
    requires Running(s, h, assured, true, cfg.maxRecordSize) && s.w.bases != [] && AllSynced(s.dir.files)
    requires Storable(h + Accepted(batch), cfg.maxRecordSize) && cfg.policy != SyncInterval
    ensures AllSynced(Commit(s, batch, cfg).st.dir.files)
  {
    RunningFirst(s, h, assured, true, cfg.maxRecordSize);
    var b := Bounds(h + Accepted(batch), |h|, assured, s.w.bases[0], true);
    var r := Commit(s, batch, cfg).st;
    hide Running, Commit, Path, Accepted, Storable, AllSynced, Answers;
    CommitPath(s, h, batch, b, cfg);
    if AnyLive(batch) {
      RunningParts(r, h + Accepted(batch), DurableAfter(h, batch, assured, cfg), cfg.maxRecordSize);
      LaidSynced(r.dir.files, r.w.bases, h + Accepted(batch));
    }
  }

  lemma RunningParts(s: St, h: seq<Payload>, durable: nat, maxRec: nat)
    requires Running(s, h, durable, true, maxRec)
    ensures s.w.bases != [] && Laid(s.dir.files, Plain(s.w.bases), h) && Durable(s.dir.files, Plain(s.w.bases))
  {
    hide Laid, Durable;
  }

  lemma PerformSynced(s: St, h: seq<Payload>, op: Op, assured: nat, bound: nat, cfg: Config)
    requires Open(s, h, assured, bound, cfg.maxRecordSize) && s.w.bases != [] && AllSynced(s.dir.files)
    requires Storable(h + Payloads(op), cfg.maxRecordSize) && cfg.policy != SyncInterval
    ensures AllSynced(Perform(s, op, cfg).dir.files)
  {
    hide Running, Cut, LogOf;
    match op
    case DoCommit(batch) => CommitSynced(s, h, batch, assured, cfg);
    case DoTruncate(upTo) =>
      RemoveAllSynced(s, s.w.bases[..Deletable(s.w.bases, upTo)]);
    case DoCut(upTo) =>
      CutExact(s, h, assured, true, upTo, cfg);
      CutSynced(s, upTo, cfg);
    case DoSync =>
  }

  /** Recovering a directory that is on stable storage ends with one that is. */
  lemma RecoverSynced(d: Dir, scan: BodyScanner)
    requires Rescannable(scan) && AllSynced(d.files) && Recover(d, scan).ok
    ensures AllSynced(Recover(d, scan).st.dir.files)
  {
    var s, names := RecoverWhole(d, scan);
    if names == [] {
      hide Recover;
    } else {
      RecoverClosed(s, names, scan);
      hide Recover, RecoverListed, AllSynced, Rescannable, Contiguous, EndFiles;
      FewerSynced(d.files, Elements(names[..Start(d.files, names, |names| - 1, scan)]));
      EndSynced(Reconciled(d.files, names, scan), Surviving(d.files, names, scan), scan);
    }
  }

  ghost predicate AllOnDisk(y: System) {
    AllSynced(match y.m case Up(s) => s.dir.files case Down(d) => d.files)
  }

  lemma SyncedCutSafe(y: System, h: seq<Payload>, op: Op, cfg: Config)
    requires Good(y, h, cfg) && AllOnDisk(y) && y.m.Up? && y.m.st.w.bases != []
    requires Allowed(y.m.st, op, cfg, PowerOnly)
    ensures Allowed(y.m.st, op, cfg, Kills)
  {
    hide Laid;
    var s := y.m.st;
    LaidRange(s.dir.files, Plain(s.w.bases), h);
    hide Books, Running, Fitting;
  }

  /** A move without kills is a move, and leaves everything on stable storage. */
  lemma PowerMove(y: System, z: System, h: seq<Payload>, cfg: Config)
    requires Good(y, h, cfg) && AllOnDisk(y) && Moves(y, z, cfg, PowerOnly)
    requires cfg.policy != SyncInterval && cfg.maxRecordSize <= MAX_PAYLOAD + HEADER_SIZE
    ensures Moves(y, z, cfg, Kills) && AllOnDisk(z)
  {
    hide Good, Perform, Recover, Allowed, CrashImage, AllSynced;
    if op :| Completes(y, z, op, cfg, PowerOnly) {
      SyncedCutSafe(y, h, op, cfg);
      assert Completes(y, z, op, cfg, Kills);
      CompletesOnDisk(y, z, h, op, cfg);
    } else if op, j, c :| Interrupted(y, z, op, j, c, cfg, PowerOnly) {
      SyncedCutSafe(y, h, op, cfg);
      assert Interrupted(y, z, op, j, c, cfg, Kills);
    } else if Reopens(y, z, cfg) {
      ReopensOnDisk(y, z, h, cfg);
    } else {
      var j, c :| CrashesReopening(y, z, j, c, cfg, PowerOnly);
      assert CrashesReopening(y, z, j, c, cfg, Kills);
    }
  }

  lemma CompletesOnDisk(y: System, z: System, h: seq<Payload>, op: Op, cfg: Config)
    requires Good(y, h, cfg) && AllOnDisk(y) && Completes(y, z, op, cfg, Kills)
    requires cfg.policy != SyncInterval && cfg.maxRecordSize <= MAX_PAYLOAD + HEADER_SIZE
    ensures AllOnDisk(z)
  {
    var s := y.m.st;
    hide Open, Books, Perform, CutSafe, Storable, AllSynced, Fitting, Acknowledged, NewBound, NewAssured, Payloads;
    OpenFacts(s, h, y.assured, y.bound, cfg.maxRecordSize);
    FittingStorable(s, h, op, cfg);
    PerformSynced(s, h, op, y.assured, y.bound, cfg);
  }

  lemma ReopensOnDisk(y: System, z: System, h: seq<Payload>, cfg: Config)
    requires Good(y, h, cfg) && AllOnDisk(y) && Reopens(y, z, cfg)
    ensures AllOnDisk(z)
  {
    hide Books, Recoverable, Recover, AllSynced, Rescannable;
    SegmentScannerRescannable(cfg.maxRecordSize);
    if Recover(y.m.dir, SegmentScanner(cfg.maxRecordSize)).ok {
      RecoverSynced(y.m.dir, SegmentScanner(cfg.maxRecordSize));
    }
  }

  /** The first `n + 1` states of a run are a run. */
  lemma RunPrefix(ys: seq<System>, n: nat, cfg: Config, regime: Regime)
    requires Run(ys, cfg, regime) && n < |ys|
    ensures Run(ys[..n + 1], cfg, regime)
  {
    hide Moves;
    var zs := ys[..n + 1];
    forall i: nat | i < |zs| - 1
      ensures MovesAt(zs, i, cfg, regime)
    {
      assert MovesAt(ys, i, cfg, regime);
    }
  }

  lemma RunExtends(ys: seq<System>, z: System, cfg: Config, regime: Regime)
    requires Run(ys, cfg, regime) && Moves(ys[|ys| - 1], z, cfg, regime)
    ensures Run(ys + [z], cfg, regime)
  {
    hide Moves;
    forall i: nat | i < |ys|
      ensures MovesAt(ys + [z], i, cfg, regime)
    {
      if i < |ys| - 1 {
        assert MovesAt(ys, i, cfg, regime);
      }
    }
  }

  /** With SyncImmediate or SyncBatched, and crashes that are power failures, every cut is safe: the
      guarantees above hold with no condition on the cuts. */
  lemma {:induction false} PowerRunIsRun(ys: seq<System>, cfg: Config) returns (h: seq<Payload>)
    requires Run(ys, cfg, PowerOnly) && cfg.policy != SyncInterval
    ensures Run(ys, cfg, Kills) && AllOnDisk(ys[|ys| - 1])
    ensures Good(ys[|ys| - 1], h, cfg)
    decreases |ys|
  {
    hide Moves, Good, AllOnDisk;
    var n := |ys| - 1;
    if n == 0 {
      InitialGood(ys[0], cfg);
      InitialOnDisk(ys[0]);
      h := [];
    } else {
      RunPrefix(ys, n - 1, cfg, PowerOnly);
      var g := PowerRunIsRun(ys[..n], cfg);
      assert MovesAt(ys, n - 1, cfg, PowerOnly);
      PowerMove(ys[n - 1], ys[n], g, cfg);
      RunExtends(ys[..n], ys[n], cfg, Kills);
      assert ys[..n] + [ys[n]] == ys;
      h := MovesGood(ys[n - 1], ys[n], g, cfg);
    }
  }

  lemma InitialOnDisk(y: System)
    requires Initial(y)
    ensures AllOnDisk(y)
  {
  }

  /** Under SyncImmediate or SyncBatched, with crashes that are power failures, and no condition on the cuts:
      the log always opens, is faithful, and hands out no acknowledged LSN again; and what was
      acknowledged at any moment is acknowledged, and kept, at every later one. */
  lemma PowerRunFaithful(ys: seq<System>, cfg: Config, i: nat, j: nat)
    requires Run(ys, cfg, PowerOnly) && cfg.policy != SyncInterval && i <= j < |ys|
    ensures ys[j].m.Down? ==> Recover(ys[j].m.dir, SegmentScanner(cfg.maxRecordSize)).ok
    ensures ys[i].acked <= ys[j].acked && Ascends(ys[j].acked)
    ensures var s := Current(ys[j], cfg);
      && Faithful(LogOf(s.dir.files, cfg.maxRecordSize), ys[j])
      && forall k | 0 <= k < |ys[j].acked| :: ys[j].acked[k].lsn < s.w.nextLSN
  {
    hide Run, Recover, LogOf, Faithful, Good, AllOnDisk, Ascends;
    var h := PowerRunIsRun(ys, cfg);
    RunFaithful(ys, cfg, j);
    AcknowledgementsStay(ys, cfg, i, j);
  }
}
