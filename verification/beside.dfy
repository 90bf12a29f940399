/** Readers and followers beside the writer's operations, step by step. */
module Beside {
  import opened Wrappers
  import opened Seqs
  import opened Records
  import opened History
  import opened Directory
  import opened State
  import opened RecoveryIdempotence
  import opened Layout
  import opened Resting
  import opened Steps
  import opened WriterOps
  import opened Operations
  import opened Retention
  import opened Cutting
  import opened AtomicCut
  import opened CutSafety
  import opened Runs
  import opened Reading
  import opened Readers
  import opened Followers
  import opened Moments

  // The moments of a commit: the index grows with every roll, before anything is published.

  function RecordMoments(s: St, p: Payload, cfg: Config): seq<Moment>
    requires s.w.bases != []
  {
    var r := WriteRecord(s, p, cfg);
    if MustRoll(s, p, cfg) then MomentsOf(s, Roll(s)) + MomentsOf(Roll(s), r) else MomentsOf(s, r)
  }

  function RequestMoments(s: St, ps: seq<Payload>, cfg: Config): seq<Moment>
    requires s.w.bases != []
    decreases |ps|
  {
    if ps == [] then [] else RecordMoments(s, ps[0], cfg) + RequestMoments(WriteRecord(s, ps[0], cfg), ps[1..], cfg)
  }

  function BatchMoments(s: St, batch: seq<Request>, cfg: Config): seq<Moment>
    requires s.w.bases != []
    decreases |batch|
  {
    if batch == [] then []
    else if batch[0].cancelled then BatchMoments(s, batch[1..], cfg)
    else
      RequestMoments(s, batch[0].payloads, cfg)
      + BatchMoments(WriteRequest(s, batch[0].payloads, cfg), batch[1..], cfg)
  }

  function CommitMoments(s: St, batch: seq<Request>, cfg: Config): seq<Moment>
    requires s.w.bases != []
  {
    BatchMoments(s, batch, cfg) + MomentsOf(WriteBatch(s, batch, cfg).st, Commit(s, batch, cfg).st)
  }

  /** Within a commit: so many records are written, none of the new ones is published. */
  ghost predicate InCommit(s: St, k: seq<Payload>, b: Bounds, h: seq<Payload>) {
    && Writing(s, k, b.durable, b.crash) && b.h <= h && b.low <= |k| && s.w.lastLSN <= b.low
    && s.w.bases[0] <= b.floor && (s.w.firstLSN == 0 || s.w.firstLSN == s.w.bases[0])
  }

  lemma RecordUnfolds(s: St, k: seq<Payload>, p: Payload, b: Bounds, cfg: Config, rest: seq<Moment>, h: seq<Payload>)
    requires s.w.bases != [] && InCommit(s, k, b, h) && k + [p] <= b.h
    requires var r := WriteRecord(s, p, cfg); Unfolds(Moment(r.dir, r.w), rest, h)
    ensures Unfolds(Moment(s.dir, s.w), RecordMoments(s, p, cfg) + rest, h)
    ensures WriteRecord(s, p, cfg).w.bases != [] && InCommit(WriteRecord(s, p, cfg), k + [p], b, h)
  {
    hide Live, Path, Unfolds, World, MomentsOf, MustRoll, Roll;
    WriteRecordPath(s, k, p, b, cfg);
    LiveWorld(s, k, b.durable, b.crash, h);
    if MustRoll(s, p, cfg) {
      RolledUnfolds(s, k, p, b, cfg, rest, h);
    } else {
      hide WriteRecord;
      StepUnfolds(s, WriteRecord(s, p, cfg), b, rest, h);
    }
  }

  /** The record that rolls: between the two, the index already names the new segment. */
  lemma RolledUnfolds(s: St, k: seq<Payload>, p: Payload, b: Bounds, cfg: Config, rest: seq<Moment>, h: seq<Payload>)
    requires s.w.bases != [] && InCommit(s, k, b, h) && k + [p] <= b.h && MustRoll(s, p, cfg)
    requires var r := WriteRecord(s, p, cfg);
      Unfolds(Moment(r.dir, r.w), rest, h) && r.w.lastLSN == s.w.lastLSN
    ensures Unfolds(Moment(s.dir, s.w), MomentsOf(s, Roll(s)) + MomentsOf(Roll(s), WriteRecord(s, p, cfg)) + rest, h)
  {
    hide Live, Path, Unfolds, World, MomentsOf, Roll, Frame;
    RollLeavesSomething(s, k, b.durable, b.crash, p, cfg);
    RollPath(s, k, b);
    var t, r := Roll(s), WriteRecord(s, p, cfg);
    assert MustRoll(s, p, cfg);
    hide MustRoll;
    PathTraced(s, t, b);
    PathRefl(t, b);
    AppendPath(t, t, k, p, b);
    hide Do;
    LiveWorld(s, k, b.durable, b.crash, h);
    LiveWorld(t, k, b.durable, b.crash, h);
    StepUnfolds(t, r, b, rest, h);
    StepUnfolds(s, t, b, MomentsOf(t, r) + rest, h);
    ConcatAssociates(MomentsOf(s, t), MomentsOf(t, r), rest);
  }

  lemma {:induction false} RequestUnfolds(s: St, k: seq<Payload>, ps: seq<Payload>, b: Bounds, cfg: Config,
                                          rest: seq<Moment>, h: seq<Payload>)
    requires s.w.bases != [] && InCommit(s, k, b, h) && k + ps <= b.h
    requires var r := WriteRequest(s, ps, cfg); Unfolds(Moment(r.dir, r.w), rest, h)
    ensures Unfolds(Moment(s.dir, s.w), RequestMoments(s, ps, cfg) + rest, h)
    ensures WriteRequest(s, ps, cfg).w.bases != [] && InCommit(WriteRequest(s, ps, cfg), k + ps, b, h)
    decreases |ps|
  {
    hide InCommit, Unfolds, RecordMoments, WriteRecord;
    if ps == [] {
      assert k + ps == k;
      EmptyUnit(rest);
    } else {
      assert k + [ps[0]] + ps[1..] == k + ps;
      var t := WriteRecord(s, ps[0], cfg);
      RecordKeeps(s, k, ps[0], b, cfg, h);
      RequestUnfolds(t, k + [ps[0]], ps[1..], b, cfg, rest, h);
      RecordUnfolds(s, k, ps[0], b, cfg, RequestMoments(t, ps[1..], cfg) + rest, h);
      ConcatAssociates(RecordMoments(s, ps[0], cfg), RequestMoments(t, ps[1..], cfg), rest);
    }
  }

  lemma RecordKeeps(s: St, k: seq<Payload>, p: Payload, b: Bounds, cfg: Config, h: seq<Payload>)
    requires s.w.bases != [] && InCommit(s, k, b, h) && k + [p] <= b.h
    ensures WriteRecord(s, p, cfg).w.bases != [] && InCommit(WriteRecord(s, p, cfg), k + [p], b, h)
  {
    hide Writing, Path, WriteRecord;
    WriteRecordPath(s, k, p, b, cfg);
    WritingBases(WriteRecord(s, p, cfg), k + [p], b.durable, b.crash);
  }

  lemma WritingBases(s: St, k: seq<Payload>, durable: nat, crash: bool)
    requires Writing(s, k, durable, crash)
    ensures s.w.bases != []
  {
    hide Live;
  }

  lemma RequestKeeps(s: St, k: seq<Payload>, ps: seq<Payload>, b: Bounds, cfg: Config, h: seq<Payload>)
    requires s.w.bases != [] && InCommit(s, k, b, h) && k + ps <= b.h
    ensures WriteRequest(s, ps, cfg).w.bases != [] && InCommit(WriteRequest(s, ps, cfg), k + ps, b, h)
  {
    hide Writing, Path, WriteRequest;
    WriteRequestPath(s, k, ps, b, cfg);
    WritingBases(WriteRequest(s, ps, cfg), k + ps, b.durable, b.crash);
  }

  lemma {:induction false} BatchUnfolds(s: St, k: seq<Payload>, batch: seq<Request>, b: Bounds, cfg: Config,
                                        rest: seq<Moment>, h: seq<Payload>)
    requires s.w.bases != [] && InCommit(s, k, b, h) && k + Accepted(batch) <= b.h
    requires var r := WriteBatch(s, batch, cfg).st; Unfolds(Moment(r.dir, r.w), rest, h)
    ensures Unfolds(Moment(s.dir, s.w), BatchMoments(s, batch, cfg) + rest, h)
    decreases |batch|
  {
    hide InCommit, Unfolds, RequestMoments, WriteRequest;
    if batch == [] {
      EmptyUnit(rest);
    } else if batch[0].cancelled {
      assert Accepted(batch) == Accepted(batch[1..]);
      BatchUnfolds(s, k, batch[1..], b, cfg, rest, h);
    } else {
      var ps := batch[0].payloads;
      assert k + ps + Accepted(batch[1..]) == k + Accepted(batch);
      var t := WriteRequest(s, ps, cfg);
      RequestKeeps(s, k, ps, b, cfg, h);
      BatchUnfolds(t, k + ps, batch[1..], b, cfg, rest, h);
      RequestUnfolds(s, k, ps, b, cfg, BatchMoments(t, batch[1..], cfg) + rest, h);
      ConcatAssociates(RequestMoments(s, ps, cfg), BatchMoments(t, batch[1..], cfg), rest);
    }
  }

  /** The end of a commit: the sync, then the new bounds. */
  lemma FlushUnfolds(t: St, r: St, k: seq<Payload>, b: Bounds, cfg: Config, rest: seq<Moment>, h: seq<Payload>)
    requires t.w.bases != [] && InCommit(t, k, b, h) && Storable(k, cfg.maxRecordSize) && k <= b.h
    requires r == t || r == Publish(if cfg.policy == SyncInterval then t else SyncActive(t))
    requires Unfolds(Moment(r.dir, r.w), rest, h) && t.w.lastLSN <= r.w.lastLSN
    ensures Unfolds(Moment(t.dir, t.w), MomentsOf(t, r) + rest, h)
  {
    hide Live, Path, Unfolds, World, MomentsOf, Running, Publish, SyncActive, Storable;
    PathRefl(t, b);
    LiveWorld(t, k, b.durable, b.crash, h);
    if r != t {
      FlushPath(t, t, k, b, cfg);
    }
    StepUnfolds(t, r, b, rest, h);
  }

  lemma CommitUnfolds(s: St, k: seq<Payload>, batch: seq<Request>, b: Bounds, cfg: Config, rest: seq<Moment>,
                      h: seq<Payload>)
    requires s.w.bases != [] && InCommit(s, k, b, h) && b.h == k + Accepted(batch) && Storable(b.h, cfg.maxRecordSize)
    requires var r := Commit(s, batch, cfg).st;
      Unfolds(Moment(r.dir, r.w), rest, h) && s.w.lastLSN <= r.w.lastLSN
    ensures Unfolds(Moment(s.dir, s.w), CommitMoments(s, batch, cfg) + rest, h)
  {
    hide Unfolds, BatchMoments, MomentsOf, WriteBatch, Publish, SyncActive, Storable, Writing, Accepted;
    var t, r := WriteBatch(s, batch, cfg).st, Commit(s, batch, cfg).st;
    BatchKeeps(s, k, batch, b, cfg, h);
    hide InCommit;
    FlushUnfolds(t, r, b.h, b, cfg, rest, h);
    BatchUnfolds(s, k, batch, b, cfg, MomentsOf(t, r) + rest, h);
    ConcatAssociates(BatchMoments(s, batch, cfg), MomentsOf(t, r), rest);
  }

  lemma BatchKeeps(s: St, k: seq<Payload>, batch: seq<Request>, b: Bounds, cfg: Config, h: seq<Payload>)
    requires s.w.bases != [] && InCommit(s, k, b, h) && k + Accepted(batch) <= b.h
    ensures var t := WriteBatch(s, batch, cfg).st;
      t.w.bases != [] && InCommit(t, k + Accepted(batch), b, h) && t.w.lastLSN == s.w.lastLSN
  {
    hide Writing, Path, WriteBatch, Accepted, AnyLive;
    WriteBatchPath(s, k, batch, b, cfg);
    WritingBases(WriteBatch(s, batch, cfg).st, k + Accepted(batch), b.durable, b.crash);
  }

  /** Every operation is a path, whether or not a crash would survive it. */
  lemma OpCalmPath(s: St, k: seq<Payload>, durable: nat, op: Op, cfg: Config) returns (b: Bounds)
    requires Running(s, k, durable, false, cfg.maxRecordSize) && s.w.bases != []
    requires Storable(k + Payloads(op), cfg.maxRecordSize)
    ensures b.h == k + Payloads(op) && b.low == |k|
    ensures var r := Perform(s, op, cfg);
      && Path(s, r, b)
      && Running(r, k + Payloads(op), durable, false, cfg.maxRecordSize)
      && s.w.lastLSN <= r.w.lastLSN
  {
    hide Storable, Next, Commit, Cut, Laid;
    var upTo := if op.DoTruncate? || op.DoCut? then op.upTo else 0;
    b := Bounds(k + Payloads(op), |k|, durable, Next(k) + upTo, false);
    RunningLast(s, k, durable, false, cfg.maxRecordSize);
    RunningFirst(s, k, durable, false, cfg.maxRecordSize);
    hide Running, Path;
    assert k + [] == k;
    match op
    case DoCommit(batch) =>
      hide Answers;
      CommitPath(s, k, batch, b, cfg);
    case DoTruncate(upTo) =>
      hide Truncate;
      TruncatePath(s, k, upTo, b, cfg.maxRecordSize);
    case DoCut(upTo) =>
      CutPath(s, k, upTo, b, cfg);
    case DoSync =>
      SyncCalmPath(s, k, b, cfg.maxRecordSize);
    RunningLast(Perform(s, op, cfg), k + Payloads(op), durable, false, cfg.maxRecordSize);
  }

  lemma SyncCalmPath(s: St, k: seq<Payload>, b: Bounds, maxRec: nat)
    requires Running(s, k, b.durable, false, maxRec) && s.w.bases != [] && !b.crash
    requires Allows(b, k, b.durable, b.crash, s.w.bases[0])
    ensures var r := SyncActive(s);
      Path(s, r, b) && Running(r, k, b.durable, false, maxRec)
  {
    hide Live, Evolves, Passing, Laid, Apply, Storable;
    FsyncPath(s, s.w.bases, k, b);
    var r := Do(s, Fsync(LastBase(s.w.bases)));
    hide Do, Path;
    PathTraced(s, r, b);
    RunningBy(r, s.w, k, b.durable, false, maxRec);
  }

  /** The moments of one operation. */
  function OpMoments(s: St, op: Op, cfg: Config): seq<Moment>
    requires s.w.bases != []
  {
    match op
    case DoCommit(batch) => CommitMoments(s, batch, cfg)
    case _ => MomentsOf(s, Perform(s, op, cfg))
  }

  /** The moments of a sequence of operations. */
  function MomentsOfAll(s: St, ops: seq<Op>, cfg: Config): seq<Moment>
    decreases |ops|
  {
    if ops == [] || s.w.bases == [] then []
    else OpMoments(s, ops[0], cfg) + MomentsOfAll(Settled(Perform(s, ops[0], cfg)), ops[1..], cfg)
  }

  function AllPayloads(ops: seq<Op>): seq<Payload> {
    if ops == [] then [] else Payloads(ops[0]) + AllPayloads(ops[1..])
  }

  lemma SettledRunning(r: St, k: seq<Payload>, durable: nat, maxRec: nat)
    requires Running(r, k, durable, false, maxRec)
    ensures Running(Settled(r), k, durable, false, maxRec) && r.w.bases != []
  {
    hide Live, AtRest;
    RunningStorable(r, k, durable, false, maxRec);
  }

  lemma RunningWrites(s: St, k: seq<Payload>, b: Bounds, maxRec: nat, h: seq<Payload>)
    requires Running(s, k, b.durable, b.crash, maxRec) && b.h <= h && b.low == |k| && s.w.bases != []
    requires s.w.bases[0] <= b.floor
    ensures InCommit(s, k, b, h)
  {
    hide Live, Laid, Storable;
    LiveLast(s.dir, s.w.bases, k, b.durable, b.crash);
  }

  lemma StorableInit(h: seq<Payload>, k: seq<Payload>, maxRec: nat)
    requires Storable(h, maxRec) && k <= h
    ensures Storable(k, maxRec)
  {
  }

  /** One operation, step by step. */
  lemma OpUnfolds(s: St, k: seq<Payload>, durable: nat, op: Op, cfg: Config, rest: seq<Moment>, h: seq<Payload>)
    requires Running(s, k, durable, false, cfg.maxRecordSize) && s.w.bases != []
    requires k + Payloads(op) <= h && Storable(k + Payloads(op), cfg.maxRecordSize)
    requires var r := Perform(s, op, cfg); Unfolds(Moment(r.dir, r.w), rest, h)
    ensures Unfolds(Moment(s.dir, s.w), OpMoments(s, op, cfg) + rest, h)
    ensures Running(Perform(s, op, cfg), k + Payloads(op), durable, false, cfg.maxRecordSize)
  {
    hide Running, World, Path, Unfolds, Perform, Commit, Payloads, MomentsOf, CommitMoments, Storable;
    var b := OpCalmPath(s, k, durable, op, cfg);
    var r := Perform(s, op, cfg);
    if op.DoCommit? {
      RunningFirst(s, k, durable, false, cfg.maxRecordSize);
      var c := Bounds(k + Payloads(op), |k|, durable, Next(k), false);
      RunningWrites(s, k, c, cfg.maxRecordSize, h);
      CommitIsOp(s, op, cfg);
      CommitUnfolds(s, k, op.batch, c, cfg, rest, h);
    } else {
      RunningWorld(s, k, durable, false, cfg.maxRecordSize, h);
      RunningLast(s, k, durable, false, cfg.maxRecordSize);
      StepUnfolds(s, r, b, rest, h);
    }
  }

  lemma CommitIsOp(s: St, op: Op, cfg: Config)
    requires op.DoCommit? && s.w.bases != []
    ensures Perform(s, op, cfg) == Commit(s, op.batch, cfg).st && Payloads(op) == Accepted(op.batch)
  {
    hide Commit, Accepted;
  }

  /** Whatever the writer does, every directory and index it passes through is a world for readers, and
      flows from the one before. */
  lemma {:induction false} AllUnfold(s: St, k: seq<Payload>, durable: nat, ops: seq<Op>, cfg: Config, h: seq<Payload>)
    requires Running(s, k, durable, false, cfg.maxRecordSize)
    requires h == k + AllPayloads(ops) && Storable(h, cfg.maxRecordSize)
    ensures Unfolds(Moment(s.dir, s.w), MomentsOfAll(s, ops, cfg), h)
    decreases |ops|
  {
    hide Running, World, Path, Perform, Payloads, Flows, OpMoments;
    RunningWorld(s, k, durable, false, cfg.maxRecordSize, h);
    RunningStorable(s, k, durable, false, cfg.maxRecordSize);
    if ops != [] {
      var k1 := k + Payloads(ops[0]);
      assert h == k1 + AllPayloads(ops[1..]);
      StorableInit(h, k1, cfg.maxRecordSize);
      hide Storable, Unfolds;
      var r := Perform(s, ops[0], cfg);
      var b := OpCalmPath(s, k, durable, ops[0], cfg);
      SettledRunning(r, k1, durable, cfg.maxRecordSize);
      AllUnfold(Settled(r), k1, durable, ops[1..], cfg, h);
      OpUnfolds(s, k, durable, ops[0], cfg, MomentsOfAll(Settled(r), ops[1..], cfg), h);
    }
  }

  /** The moments the writer passes through with `ops`. */
  function Course(s: St, ops: seq<Op>, cfg: Config): seq<Moment> {
    [Moment(s.dir, s.w)] + MomentsOfAll(s, ops, cfg)
  }

  /** How many of them are still to come when a reader joins. */
  function Joining(s: St, ops: seq<Op>, cfg: Config, pace: seq<nat>): nat {
    Left(|MomentsOfAll(s, ops, cfg)|, Delay(pace, 0))
  }

  /** The directory as the writer takes it through `ops`. */
  method Share(s: St, ghost k: seq<Payload>, ghost durable: nat, ops: seq<Op>, cfg: Config, pace: seq<nat>)
      returns (disk: Disk)
    requires Running(s, k, durable, false, cfg.maxRecordSize)
    requires Storable(k + AllPayloads(ops), cfg.maxRecordSize)
    ensures fresh(disk) && disk.Valid() && disk.h == k + AllPayloads(ops)
    ensures disk.course == Course(s, ops, cfg)
    ensures s.w.lastLSN <= disk.now.w.lastLSN
    ensures |disk.future| == Joining(s, ops, cfg, pace) && disk.pace == Later(pace, 1)
    ensures Placed(disk.now, |disk.future|, disk.course)
  {
    ghost var h := k + AllPayloads(ops);
    hide Running, Storable, World, Perform, Unfolds, MomentsOfAll, Flows, OnCourse;
    AllUnfold(s, k, durable, ops, cfg, h);
    disk := new Disk(Moment(s.dir, s.w), MomentsOfAll(s, ops, cfg), pace, cfg.maxRecordSize, h);
    ghost var before := disk.now;
    disk.Advance();
    FlowsLast(before, disk.now);
    NowAt(disk.now, disk.future, disk.course);
  }

  /** Reading beside the writer: the reader joins, at `begun`, at any of the writer's steps, and however the later
      ones fall between its looks, it yields what was written, in order, once each, everything in its
      window that is on disk at `last`, when it finishes, and nothing that was gone at `begun`. */
  method ReplayBeside(s: St, ghost k: seq<Payload>, ghost durable: nat, ops: seq<Op>, cfg: Config, pace: seq<nat>,
                      fromLSN: nat)
      returns (begun: Moment, last: Moment, entries: seq<Record>, endLSN: nat)
    requires Running(s, k, durable, false, cfg.maxRecordSize)
    requires Storable(k + AllPayloads(ops), cfg.maxRecordSize)
    ensures Placed(begun, Joining(s, ops, cfg, pace), Course(s, ops, cfg)) && endLSN == begun.w.lastLSN
    ensures last in Course(s, ops, cfg) && s.w.lastLSN <= endLSN
    ensures Entries(entries, fromLSN, endLSN, k + AllPayloads(ops))
    ensures Covers(entries, last.dir, fromLSN, endLSN, k + AllPayloads(ops)) && NoneGone(entries, begun.dir)
  {
    hide Running, Storable, World, Perform, Unfolds, MomentsOfAll, Flows, OnCourse, NoneGone, Placed, Course, Joining;
    var disk := Share(s, k, durable, ops, cfg, pace);
    begun := disk.now;
    entries, endLSN := Replay(disk, fromLSN);
    last := disk.now;
    CourseHolds(last, disk.future, disk.course);
  }

  /** Following beside the writer, from `begun` on: the stream is unbroken. Its turns, `earlier` and then `t`, took
      place on the course of the writer one after the other, the first at the very moment the writer's pace
      says, and every record comes from one of them. Unless the consumer stopped it, the stream ends as
      truncated exactly when in its last turn the index said that the record due next was gone or a record
      above it was met; otherwise, at `last`, when it ends and `left` moments are still to come, nothing is
      left on disk above the high-water mark of what the turn went for. */
  method FollowBeside(s: St, ghost k: seq<Payload>, ghost durable: nat, ops: seq<Op>, cfg: Config, pace: seq<nat>,
                      fromLSN: nat, follow: bool, patience: nat, delays: seq<nat>, waits: seq<Wakeup>)
      returns (begun: Moment, last: Moment, received: seq<Record>, highWater: nat, err: Option<FollowError>,
               stopped: bool, ghost t: Turning, ghost earlier: seq<Turning>, ghost left: nat)
    requires Running(s, k, durable, false, cfg.maxRecordSize)
    requires Storable(k + AllPayloads(ops), cfg.maxRecordSize)
    ensures Placed(begun, Joining(s, ops, cfg, pace), Course(s, ops, cfg)) && s.w.lastLSN <= begun.w.lastLSN
    ensures Placed(last, left, Course(s, ops, cfg)) && Ended(t, left)
    ensures Series(earlier + [t], Later(pace, 1) == [], Course(s, ops, cfg), k + AllPayloads(ops))
    ensures received == GivenAll(earlier + [t])
    ensures var first := (earlier + [t])[0];
      && first.at == Left(Joining(s, ops, cfg, pace), Delay(pace, 1)) && first.started == (fromLSN > 0)
      && first.mark == if fromLSN > 0 then fromLSN - 1 else 0
    ensures t.end == (if follow then t.snap.w.lastLSN else begun.w.lastLSN) && begun.w.lastLSN <= t.end
    ensures Stream(received, fromLSN, highWater, k + AllPayloads(ops)) && highWater == Mark(t)
    ensures exists result: BatchResult ::
      && TurnsOut(result, t, last, k + AllPayloads(ops))
      && (stopped <==> result == Stopped) && (err == Some(Truncated) <==> result == Gap)
    ensures !stopped && err != Some(Truncated) ==> Caught(received, last.dir, fromLSN, t.end)
    ensures !follow ==> earlier == [] && (err == None || err == Some(Truncated))
    ensures !follow && stopped ==> |t.handed| == patience + 1
    ensures !stopped && err != Some(Truncated) && follow ==>
      var n := |earlier|;
      && n <= |waits| && (forall i | 0 <= i < n :: waits[i] == Woken) && (n < |waits| ==> waits[n] != Woken)
      && (n == |waits| || waits[n] == ContextCanceled ==> err == Some(FollowError.Canceled))
      && (n < |waits| && waits[n] == WalClosed ==> err == Some(Closed))
      && (n < |waits| && waits[n] == ClosedByUser ==> err == None)
  {
    hide Running, Storable, World, Perform, Unfolds, MomentsOfAll, Flows, OnCourse, Stream, Caught, Gone, TurnsOut;
    hide Placed, Course, Joining, Series, Ended, GivenAll, Punctual, Left;
    var disk := Share(s, k, durable, ops, cfg, pace);
    begun := disk.now;
    var consumer := new Consumer(patience, delays);
    var follower := new Follower(disk, consumer, fromLSN, follow);
    LaterOne(pace);
    stopped, t, earlier := follower.StreamRecords(waits);
    received, highWater, err := consumer.received, follower.highWater, follower.err;
    last, left := disk.now, |disk.future|;
    NowAt(last, disk.future, disk.course);
  }

  lemma LaterOne(pace: seq<nat>)
    ensures Delay(Later(pace, 1), 0) == Delay(pace, 1)
  {
  }
}
