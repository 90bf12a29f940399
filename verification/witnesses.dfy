/** Concrete runs: one that appends, and the ones in which the two properties that fail do fail. */
module Witnesses {
  import opened Wrappers
  import opened Bytes
  import opened Seqs
  import opened Records
  import opened History
  import opened Directory
  import opened State
  import opened Recovery
  import opened RecoveryTheorems
  import opened RecoveryIdempotence
  import opened WriterOps
  import opened Operations
  import opened Cutting
  import opened CutSafety
  import opened Exactness
  import opened Runs
  import opened RunTheorems
  import opened Flags

  const FIRST_WRITER := Writer([1], 1, 0, 0)

  /** The first segment with one record, none of it on stable storage. */
  function Unsynced(p: Payload): Files {
    map[1 := File(true, Frame(Record(1, p)), 0)]
  }

  function Appending(ps: seq<Payload>): Op {
    DoCommit([Request(ps, false)])
  }

  predicate IsFresh(s: St) {
    s.dir.files == map[1 := EMPTY_FILE] && s.w == FIRST_WRITER && s.trace == [s.dir]
  }

  lemma FreshRecovery(d: Dir, maxRec: nat)
    requires d.files == map[]
    ensures var o := Recover(d, SegmentScanner(maxRec));
      o.ok && IsFresh(Fresh(o.st))
  {
    var scan := SegmentScanner(maxRec);
    hide ScanSegment;
    var s, names := RecoverWhole(d, scan);
    NoFilesNoNames(names);
    EmptyDirectoryImages(d, s, scan);
  }

  /** Opening an empty directory. */
  lemma FirstOpening(cfg: Config) returns (y: System, z: System)
    ensures Initial(y) && Moves(y, z, cfg, Kills)
    ensures z.m.Up? && IsFresh(z.m.st) && Good(z, [], cfg) && z.acked == [] && z.bound == 0 && z.assured == 0
  {
    var d := Dir(map[], map[], map[]);
    hide Open, Recover, Books, Fresh, Stored, IsFresh;
    y := System(Down(d), [], {}, 0, 0);
    InitialGood(y, cfg);
    FreshRecovery(d, cfg.maxRecordSize);
    z := y.(m := Up(Fresh(Recover(d, SegmentScanner(cfg.maxRecordSize)).st)));
    assert Reopens(y, z, cfg);
    ReopensGood(y, z, [], cfg);
  }

  lemma OneLive(ps: seq<Payload>)
    ensures Accepted([Request(ps, false)]) == ps && AnyLive([Request(ps, false)])
  {
    assert [Request(ps, false)][1..] == [];
    assert !([Request(ps, false)][0].cancelled);
  }

  lemma OneFits(s: St, p: Payload, cfg: Config)
    requires Admitted(p, cfg) && s.w.nextLSN == 1
    ensures Fitting(s, Appending([p]), cfg) && Attempted(s, Appending([p])) == [Record(1, p)]
  {
    OneLive([p]);
    hide Accepted;
  }

  /** The state after an operation that completed. */
  function After(y: System, op: Op, cfg: Config): System
    requires y.m.Up? && y.m.st.w.bases != []
  {
    System(Up(Settled(Perform(y.m.st, op, cfg))), y.acked + Acknowledged(y.m.st, op, cfg),
           y.written + Range(Attempted(y.m.st, op)),
           NewAssured(y.m.st, op, y.assured, cfg), NewBound(y.m.st, op, y.bound))
  }

  lemma AfterMoves(y: System, op: Op, cfg: Config)
    requires y.m.Up? && y.m.st.w.bases != [] && Allowed(y.m.st, op, cfg, Kills)
    ensures Completes(y, After(y, op, cfg), op, cfg, Kills) && Moves(y, After(y, op, cfg), cfg, Kills)
  {
    hide Allowed, Perform, Acknowledged, Attempted, Range, NewAssured, NewBound, Settled;
  }

  lemma ThreeRun(y0: System, y1: System, y2: System, cfg: Config)
    requires Initial(y0) && Moves(y0, y1, cfg, Kills) && Moves(y1, y2, cfg, Kills)
    requires cfg.maxRecordSize <= MAX_PAYLOAD + HEADER_SIZE
    ensures Run([y0, y1, y2], cfg, Kills)
  {
    hide Moves, Initial;
    var ys := [y0, y1, y2];
    assert MovesAt(ys, 0, cfg, Kills) && MovesAt(ys, 1, cfg, Kills);
  }

  /** Runs do happen: one opens an empty directory and appends any payload the API admits. */
  lemma AppendingRun(cfg: Config, p: Payload) returns (ys: seq<System>)
    requires Admitted(p, cfg) && cfg.maxRecordSize <= MAX_PAYLOAD + HEADER_SIZE
    ensures Run(ys, cfg, Kills) && |ys| == 3 && ys[2].m.Up? && ys[2].acked == [Record(1, p)]
    ensures ys[1].m.Up? && IsFresh(ys[1].m.st) && ys[2] == After(ys[1], Appending([p]), cfg)
    ensures LogOf(Current(ys[2], cfg).dir.files, cfg.maxRecordSize) == [Record(1, p)]
  {
    hide Good, Moves, Initial, Admitted, LogOf, Completes, Perform, Attempted, Fitting, Acknowledged, Run;
    hide Settled, Range, NewAssured;
    var y0, y1 := FirstOpening(cfg);
    var op := Appending([p]);
    OneFits(y1.m.st, p, cfg);
    AcknowledgedIs(y1.m.st, op, cfg);
    AfterMoves(y1, op, cfg);
    var y2 := After(y1, op, cfg);
    ThreeRun(y0, y1, y2, cfg);
    AppendedLog(y1, y2, p, cfg);
    ys := [y0, y1, y2];
  }

  lemma AppendedLog(y: System, z: System, p: Payload, cfg: Config)
    requires Good(y, [], cfg) && Completes(y, z, Appending([p]), cfg, Kills)
    requires cfg.maxRecordSize <= MAX_PAYLOAD + HEADER_SIZE && z.m.Up? && z.bound == 0
    ensures LogOf(Current(z, cfg).dir.files, cfg.maxRecordSize) == [Record(1, p)]
  {
    hide Good, Completes, LogOf, Accepted;
    CompletesGood(y, z, [], Appending([p]), cfg);
    OneLive([p]);
    assert [] + [p] == [p];
    CurrentOpen(z, [p], cfg);
    assert Recs([p], 1, 2) == [Record(1, p)];
  }

  // The first commit, step by step.

  /** The log just after the record is written, before anything is synced or published. */
  function Wrote(s: St, p: Payload): St {
    var t := Do(s, Write(1, Frame(Record(1, p))));
    t.(w := t.w.(nextLSN := 2))
  }

  lemma FirstBatch(s: St, p: Payload, cfg: Config)
    requires IsFresh(s)
    ensures WriteBatch(s, [Request([p], false)], cfg) == Written(Wrote(s, p), [Assigned([1])], true)
  {
    hide Frame, Apply;
    var r := Request([p], false);
    assert !MustRoll(s, p, cfg);
    assert WriteRecord(s, p, cfg) == Wrote(s, p);
    assert [p][1..] == [] && [r][1..] == [];
    assert WriteRequest(Wrote(s, p), [], cfg) == Wrote(s, p);
    assert WriteRequest(s, [p], cfg) == Wrote(s, p);
    assert Consecutive(1, 1) == [1];
    assert WriteBatch(Wrote(s, p), [], cfg) == Written(Wrote(s, p), [], false);
  }

  lemma WroteFiles(s: St, p: Payload)
    requires IsFresh(s)
    ensures Wrote(s, p).dir.files == Unsynced(p) && Wrote(s, p).w == Writer([1], 2, 0, 0)
    ensures Wrote(s, p).trace == [s.dir, Wrote(s, p).dir]
  {
    EmptyUnit(Frame(Record(1, p)));
    hide Frame;
  }

  lemma FirstPerform(s: St, p: Payload, cfg: Config)
    requires IsFresh(s)
    ensures var t, r := Wrote(s, p), Perform(s, Appending([p]), cfg);
      && r.w == Writer([1], 2, 1, 1) && |r.trace| >= 2 && r.trace[0] == s.dir && r.trace[1] == t.dir
      && (cfg.policy == SyncInterval ==> r.dir == t.dir)
  {
    FirstBatch(s, p, cfg);
    WroteFiles(s, p);
    hide WriteBatch, Wrote, Apply;
  }

  // A cut that a power failure may spoil.

  lemma Spoilable(d: Dir, p: Payload)
    requires d.files == Unsynced(p)
    ensures !CutSafe(d, Writer([1], 2, 1, 1), 2)
  {
    hide Frame;
    assert [1][0] == 1;
  }

  /** In such a state the cut indeed has an image that does not open again after some crash. */
  lemma CutMayFail(ys: seq<System>, cfg: Config, i: nat, upTo: nat)
    requires Run(ys, cfg, Kills) && i < |ys| && ys[i].m.Up? && ys[i].m.st.w.bases != []
    requires !CutSafe(ys[i].m.st.dir, ys[i].m.st.w, upTo)
    ensures !SurvivesCut(ys[i].m.st, upTo, cfg)
  {
    hide Run, Books, Running, SurvivesCut, CutSafe;
    var h := RunGood(ys, cfg, i);
    CutSafeIff(ys[i].m.st, h, ys[i].assured, upTo, cfg);
  }

  /** Under SyncInterval one append is enough: cutting the whole log then is not safe. */
  lemma UnsafeCutRun(cfg: Config, p: Payload) returns (ys: seq<System>)
    requires Admitted(p, cfg) && cfg.maxRecordSize <= MAX_PAYLOAD + HEADER_SIZE && cfg.policy == SyncInterval
    ensures Run(ys, cfg, Kills) && |ys| == 3 && ys[2].m.Up? && ys[2].m.st.w.bases != []
    ensures !CutSafe(ys[2].m.st.dir, ys[2].m.st.w, 2) && !SurvivesCut(ys[2].m.st, 2, cfg)
  {
    hide Run, LogOf, Perform, Acknowledged, Attempted, CutSafe, SurvivesCut, Unsynced, Wrote;
    ys := AppendingRun(cfg, p);
    var s := ys[1].m.st;
    FirstPerform(s, p, cfg);
    WroteFiles(s, p);
    Spoilable(ys[2].m.st.dir, p);
    CutMayFail(ys, cfg, 2, 2);
  }

  // ... under any policy once a process is killed between its write and its sync.

  lemma ScanOne(r: Record, maxRec: nat)
    requires Fits(r, maxRec)
    ensures SegmentScanner(maxRec)(Frame(r)) == ScanResult(None, 1, r.lsn, |Frame(r)|)
  {
    ScanFrame(r, [], maxRec);
    hide Frame;
    EmptyUnit(Frame(r));
  }

  lemma RecoverUnsynced(c: Dir, p: Payload, maxRec: nat)
    requires c.files == Unsynced(p) && |p| <= MAX_PAYLOAD && |p| <= maxRec
    ensures var o := Recover(c, SegmentScanner(maxRec));
      o.ok && o.st.dir.files == Unsynced(p) && o.st.w == Writer([1], 2, 1, 1)
  {
    hide ScanSegment, Frame;
    ScanOne(Record(1, p), maxRec);
    RecoverOne(c, SegmentScanner(maxRec), |Frame(Record(1, p))|);
  }

  /** Recovery of a single segment that holds record 1 and nothing else. */
  lemma RecoverOne(c: Dir, scan: BodyScanner, size: nat)
    requires c.files.Keys == {1} && c.files[1].headerOk && scan(c.files[1].body) == ScanResult(None, 1, 1, size)
    ensures var o := Recover(c, scan);
      o.ok && o.st.dir.files == c.files && o.st.w == Writer([1], 2, 1, 1)
  {
    hide RecoverListed, Recover;
    var s, names := RecoverWhole(c, scan);
    assert Listing([1], c.files.Keys);
    ListingUnique(names, [1], c.files.Keys);
    assert Contiguous(c.files, [1], scan);
    ContiguousIsReconciled(c.files, [1], scan);
    RecoverClosed(s, [1], scan);
    assert FinalFiles(c.files, [1], scan) == c.files;
    assert FinalWriter(c.files, [1], scan) == Writer([1], 2, 1, 1);
  }

  /** The kill: what the process had written is there, unsynced. */
  lemma KilledBeforeSync(y: System, p: Payload, cfg: Config) returns (z: System)
    requires y.m.Up? && IsFresh(y.m.st) && Admitted(p, cfg)
    ensures Moves(y, z, cfg, Kills) && z.m.Down? && z.m.dir.files == Unsynced(p)
  {
    hide Appending, Wrote, Perform, Attempted, Completes, Frame, Do;
    var s, op := y.m.st, Appending([p]);
    FirstPerform(s, p, cfg);
    WroteFiles(s, p);
    OneFits(s, p, cfg);
    var c := Dir(Unsynced(p), map[], map[]);
    UnsyncedIsCrash(Wrote(s, p).dir, c, p);
    hide Unsynced, CrashImage, Fitting, Range, Retained;
    z := System(Down(c), Retained(y.acked, y.assured), y.written + Range(Attempted(s, op)), y.assured,
                NewBound(s, op, y.bound));
    assert Interrupted(y, z, op, 1, c, cfg, Kills);
  }

  lemma UnsyncedIsCrash(d: Dir, c: Dir, p: Payload)
    requires d.files == Unsynced(p) && c == Dir(Unsynced(p), map[], map[])
    ensures CrashImage(d, c)
  {
    hide Frame;
    var body := Frame(Record(1, p));
    assert body[..|body|] == body;
  }

  lemma ReopensAs(y: System, cfg: Config) returns (z: System)
    requires y.m.Down? && Recover(y.m.dir, SegmentScanner(cfg.maxRecordSize)).ok
    ensures Moves(y, z, cfg, Kills) && z.m == Up(Fresh(Recover(y.m.dir, SegmentScanner(cfg.maxRecordSize)).st))
  {
    hide Recover, Fresh;
    z := y.(m := Up(Fresh(Recover(y.m.dir, SegmentScanner(cfg.maxRecordSize)).st)));
    assert Reopens(y, z, cfg);
  }

  /** Under any policy: a process killed after its write and before its sync, the log reopened, and
      cutting the whole log is not safe. */
  lemma KilledCutRun(cfg: Config, p: Payload) returns (ys: seq<System>)
    requires Admitted(p, cfg) && cfg.maxRecordSize <= MAX_PAYLOAD + HEADER_SIZE
    ensures Run(ys, cfg, Kills) && |ys| == 4 && ys[2].m.Down? && ys[3].m.Up? && ys[3].m.st.w.bases != []
    ensures !CutSafe(ys[3].m.st.dir, ys[3].m.st.w, 2) && !SurvivesCut(ys[3].m.st, 2, cfg)
  {
    hide Good, Moves, Initial, Run, CutSafe, SurvivesCut, Unsynced, Recover, IsFresh, MovesAt;
    var y0, y1 := FirstOpening(cfg);
    var y2 := KilledBeforeSync(y1, p, cfg);
    RecoverUnsynced(y2.m.dir, p, cfg.maxRecordSize);
    var y3 := ReopensAs(y2, cfg);
    Spoilable(y3.m.st.dir, p);
    ThreeRun(y0, y1, y2, cfg);
    RunExtends([y0, y1, y2], y3, cfg, Kills);
    ys := [y0, y1, y2] + [y3];
    CutMayFail(ys, cfg, 3, 2);
  }

  // An empty batch.

  lemma NothingFits(s: St, cfg: Config)
    requires s.w.nextLSN == 1
    ensures Fitting(s, Appending([]), cfg)
  {
    OneLive([]);
    hide Accepted;
  }

  /** Appending an empty batch to an empty log publishes a first LSN that no record carries. */
  lemma EmptyBatchRun(cfg: Config) returns (ys: seq<System>)
    requires cfg.maxRecordSize <= MAX_PAYLOAD + HEADER_SIZE
    ensures Run(ys, cfg, Kills) && |ys| == 3 && ys[1].m.Up? && ys[2].m.Up?
    ensures Flagged(ys[1].m.st, cfg.maxRecordSize) && !Flagged(ys[2].m.st, cfg.maxRecordSize)
  {
    hide Good, Moves, Initial, LogOf, Completes, Attempted, Fitting, Acknowledged, Run, Commit, Flagged;
    hide Range, NewAssured;
    var y0, y1 := FirstOpening(cfg);
    var op := Appending([]);
    NothingFits(y1.m.st, cfg);
    AfterMoves(y1, op, cfg);
    var y2 := After(y1, op, cfg);
    ThreeRun(y0, y1, y2, cfg);
    EmptyFlags(y1, cfg);
    ys := [y0, y1, y2];
    SettledFlag(Commit(y1.m.st, [Request([], false)], cfg).st, cfg.maxRecordSize);
  }

  lemma EmptyFlags(y: System, cfg: Config)
    requires Good(y, [], cfg) && y.m.Up? && IsFresh(y.m.st)
    ensures Flagged(y.m.st, cfg.maxRecordSize)
    ensures !Flagged(Commit(y.m.st, [Request([], false)], cfg).st, cfg.maxRecordSize)
  {
    var s := y.m.st;
    hide Running, LogOf, Commit, Books, Accepted, AnyLive, Storable;
    RunningLog(s, [], y.assured, true, cfg.maxRecordSize);
    OpenFacts(s, [], y.assured, y.bound, cfg.maxRecordSize);
    OneLive([]);
    var none: seq<Payload> := [];
    assert none + none == none;
    FlagAfterCommit(s, [], y.assured, true, [Request([], false)], cfg);
  }

  // A log of two segments.

  lemma FirstSize(s: St, p: Payload, cfg: Config)
    requires IsFresh(s)
    ensures var r := Perform(s, Appending([p]), cfg);
      1 in r.dir.files && |r.dir.files[1].body| == HEADER_SIZE + |p| && r.w == Writer([1], 2, 1, 1)
  {
    FirstBatch(s, p, cfg);
    WroteFiles(s, p);
    hide WriteBatch, Wrote, Frame;
  }

  /** A record that does not fit goes to a segment of its own. */
  lemma RollingCommit(s: St, p: Payload, cfg: Config)
    requires s.w == Writer([1], 2, 1, 1) && MustRoll(s, p, cfg)
    ensures var r := Perform(s, Appending([p]), cfg); r.w == Writer([1, 2], 3, 1, 2)
  {
    hide Frame, Apply, MustRoll;
    var q := Request([p], false);
    var t := WriteRecord(s, p, cfg);
    assert [1] + [2] == [1, 2];
    assert t.w == Writer([1, 2], 3, 1, 1);
    assert [p][1..] == [] && [q][1..] == [];
    assert WriteRequest(t, [], cfg) == t && WriteRequest(s, [p], cfg) == t;
    assert WriteBatch(t, [], cfg) == Written(t, [], false);
    assert WriteBatch(s, [q], cfg).st == t && WriteBatch(s, [q], cfg).wroteAny;
  }

  /** With a segment size that two such records exceed, two appends fill two segments. */
  lemma TwoSegmentsRun(cfg: Config, p: Payload) returns (ys: seq<System>, k: seq<Payload>)
    requires Admitted(p, cfg) && cfg.maxRecordSize <= MAX_PAYLOAD + HEADER_SIZE
    requires cfg.maxSegmentSize < SEGMENT_HEADER + 2 * (HEADER_SIZE + |p|)
    ensures Run(ys, cfg, Kills) && |ys| == 4 && ys[3].m.Up? && ys[3].m.st.w == Writer([1, 2], 3, 1, 2)
    ensures Running(ys[3].m.st, k, ys[3].assured, false, cfg.maxRecordSize) && Storable(k + [p], cfg.maxRecordSize)
  {
    hide Run, LogOf, Perform, Acknowledged, Attempted, Running, MovesAt, IsFresh, Good, Completes, Moves;
    var xs := AppendingRun(cfg, p);
    FirstSize(xs[1].m.st, p, cfg);
    var y, op := xs[2], Appending([p]);
    var s := y.m.st;
    RollingCommit(s, p, cfg);
    SecondFits(s, p, cfg);
    AfterMoves(y, op, cfg);
    RunExtends(xs, After(y, op, cfg), cfg, Kills);
    ys := xs + [After(y, op, cfg)];
    k := RunGood(ys, cfg, 3);
    OpenCalm(ys[3], k, cfg);
    OneMoreStorable(k, p, cfg);
  }

  lemma OpenCalm(y: System, k: seq<Payload>, cfg: Config)
    requires Good(y, k, cfg) && y.m.Up?
    ensures Running(y.m.st, k, y.assured, false, cfg.maxRecordSize)
    ensures Storable(k, cfg.maxRecordSize) && y.m.st.w.nextLSN == History.Next(k)
  {
    hide Running, Books, Storable;
    RunningCalm(y.m.st, k, y.assured, true, cfg.maxRecordSize);
    RunningStorable(y.m.st, k, y.assured, true, cfg.maxRecordSize);
  }

  lemma OneMoreStorable(k: seq<Payload>, p: Payload, cfg: Config)
    requires Storable(k, cfg.maxRecordSize) && |k| == 2 && Admitted(p, cfg)
    requires cfg.maxRecordSize <= MAX_PAYLOAD + HEADER_SIZE
    ensures Storable(k + [p], cfg.maxRecordSize)
  {
    Powers();
  }

  lemma SecondFits(s: St, p: Payload, cfg: Config)
    requires Admitted(p, cfg) && s.w.nextLSN == 2
    ensures Fitting(s, Appending([p]), cfg)
  {
    OneLive([p]);
    hide Accepted;
  }

  /** A record of LSN 0 in the second segment: the first one's record still counts, if it is all that is left. */
  const COLLAPSING := Dir(map[1 := File(true, Frame(Record(1, [])), 0), 2 := File(true, Frame(Record(0, [])), 0)],
                          map[], map[])

  /** Recovering this directory and interrupting it does not always end alike. */
  lemma CollapsingLog(maxRec: nat)
    ensures Recover(COLLAPSING, SegmentScanner(maxRec)).ok && !Interruptible(COLLAPSING, SegmentScanner(maxRec))
  {
    hide Frame, ScanSegment, Recover;
    ScanOne(Record(1, []), maxRec);
    ScanOne(Record(0, []), maxRec);
    var n, m := |Frame(Record(1, []))|, |Frame(Record(0, []))|;
    CollapsingEnds(COLLAPSING, SegmentScanner(maxRec), n, m);
  }

  lemma CollapsingEnds(d: Dir, scan: BodyScanner, n: nat, m: nat)
    requires d.files.Keys == {1, 2} && d.files[1].headerOk && d.files[2].headerOk
    requires scan(d.files[1].body) == ScanResult(None, 1, 1, n) && scan(d.files[2].body) == ScanResult(None, 1, 0, m)
    ensures Recover(d, scan).ok && !Interruptible(d, scan)
  {
    hide Recover, RecoverListed, Accepts, Contiguous, Resumable, Surviving, Reconciled;
    var s, names := RecoverWhole(d, scan);
    assert Listing([1, 2], d.files.Keys);
    ListingUnique(names, [1, 2], d.files.Keys);
    CollapsingPair(d.files, scan, n, m);
    ContiguousIsReconciled(d.files, [1, 2], scan);
    assert SortedKeys(d.files.Keys) == [1, 2];
  }

  lemma CollapsingPair(f: Files, scan: BodyScanner, n: nat, m: nat)
    requires f.Keys == {1, 2}
    requires scan(f[1].body) == ScanResult(None, 1, 1, n) && scan(f[2].body) == ScanResult(None, 1, 0, m)
    ensures Contiguous(f, [1, 2], scan) && !Resumable(f, [1, 2], scan)
  {
    assert Contiguous(f, [1, 2], scan);
    hide Contiguous;
    assert !PrunesLast(f, [1, 2], scan);
  }

  /** A lone empty segment based at 0 opens with a last LSN of 2^64 - 1, which is 0 less one in 64 bits. */
  lemma ZeroBase(c: Dir, scan: BodyScanner)
    requires Rescannable(scan) && c.files == map[0 := EMPTY_FILE]
    ensures var o := Recover(c, scan);
      o.ok && o.st.dir.files == c.files && o.st.w == Writer([0], 1, 0, 0xFFFF_FFFF_FFFF_FFFF)
  {
    hide Recover, RecoverListed, Rescannable, Accepts, EndFiles, EndWriter, Surviving, Reconciled;
    var s, names := RecoverWhole(c, scan);
    assert Listing([0], c.files.Keys);
    ListingUnique(names, [0], c.files.Keys);
    ZeroBaseEnds(c.files, scan);
    ContiguousIsReconciled(c.files, [0], scan);
    RecoverClosed(s, [0], scan);
  }

  lemma ZeroBaseEnds(f: Files, scan: BodyScanner)
    requires Rescannable(scan) && f == map[0 := EMPTY_FILE]
    ensures Contiguous(f, [0], scan) && EndFiles(f, [0], scan) == f
    ensures EndWriter(f, [0], scan) == Writer([0], 1, 0, 0xFFFF_FFFF_FFFF_FFFF)
  {
  }
}
