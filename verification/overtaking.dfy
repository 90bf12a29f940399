/** Followers that are overtaken and not told: by a cut of everything, by a cut that leaves records, and for
    as long as nothing new is committed. */
module Overtaking {
  import opened Wrappers
  import opened Bytes
  import opened Seqs
  import opened Records
  import opened History
  import opened Directory
  import opened State
  import opened RecoveryIdempotence
  import opened Layout
  import opened Steps
  import opened WriterOps
  import opened Operations
  import opened Retention
  import opened Cutting
  import opened AtomicCut
  import opened CutSafety
  import opened Exactness
  import opened Sweeps
  import opened Runs
  import opened Reading
  import opened Readers
  import opened Followers
  import opened Moments
  import opened Beside
  import opened Silence
  import Protocol

  // What removal leaves readable.

  /** What a handle of the file based at `b` reads is the same in both. */
  ghost predicate SameBody(d: Dir, e: Dir, b: nat) {
    b in Known(d) && b in Known(e) && Body(e, b) == Body(d, b)
  }

  /** The step does not write to the file or put another in its place. */
  predicate Spares(step: Step, b: nat) {
    match step
    case Create(x) => x != b
    case Write(x, _) => x != b
    case Chop(x, _) => x != b
    case Rename(x) => x != b
    case _ => true
  }

  lemma StepSpares(s: St, step: Step, b: nat)
    requires Spares(step, b) && b in Known(s.dir)
    ensures SameBody(s.dir, Do(s, step).dir, b)
  {
  }

  lemma {:induction false} RemoveAllSpares(s: St, bs: seq<nat>, b: nat)
    requires b in Known(s.dir)
    ensures SameBody(s.dir, RemoveAll(s, bs).dir, b)
    decreases |bs|
  {
    hide Do, Known, Body;
    if bs != [] {
      StepSpares(s, Remove(bs[0]), b);
      RemoveAllSpares(Do(s, Remove(bs[0])), bs[1..], b);
    }
  }

  lemma {:induction false} WriteTempsSpares(s: St, cut: nat, rs: seq<Record>, b: nat)
    requires b in Known(s.dir)
    ensures SameBody(s.dir, WriteTemps(s, cut, rs).dir, b)
    decreases |rs|
  {
    hide Do, Known, Body, Frame;
    if rs != [] {
      var t := if rs[0].lsn < cut then s else Do(s, WriteTemp(cut, Frame(rs[0])));
      if rs[0].lsn >= cut {
        StepSpares(s, WriteTemp(cut, Frame(rs[0])), b);
      }
      WriteTempsSpares(t, cut, rs[1..], b);
    }
  }

  lemma RewriteSpares(s: St, body: seq<byte>, cut: nat, cfg: Config, b: nat)
    requires b in Known(s.dir) && b != cut
    ensures SameBody(s.dir, RewriteFrom(s, body, cut, cfg).st.dir, b)
  {
    hide Do, Known, Body, ScanAll, WriteTemps;
    var scan := ScanAll(body, cfg.maxRecordSize);
    var s1 := Do(s, RemoveTemp(cut));
    StepSpares(s, RemoveTemp(cut), b);
    StepSpares(s1, CreateTemp(cut), b);
    var s2 := Do(s1, CreateTemp(cut));
    WriteTempsSpares(s2, cut, scan.recs, b);
    var s3 := WriteTemps(s2, cut, scan.recs);
    StepSpares(s3, RemoveTemp(cut), b);
    StepSpares(s3, FsyncTemp(cut), b);
    StepSpares(Do(s3, FsyncTemp(cut)), Rename(cut), b);
  }

  /** A cut changes nothing that an open handle reads, whatever file it was opened on. */
  lemma CutSpares(s: St, k: seq<Payload>, durable: nat, upTo: nat, cfg: Config, b: nat)
    requires Running(s, k, durable, false, cfg.maxRecordSize) && b in Known(s.dir)
    ensures s.w.bases != [] && SameBody(s.dir, Cut(s, upTo, cfg).st.dir, b)
  {
    hide Do, Known, Body, ScanAll, WriteTemps, RemoveAll, RewriteFrom, BoundaryIndex, Running, Ascending;
    RunningWriter(s, k, durable, false, cfg.maxRecordSize);
    RunningFirst(s, k, durable, false, cfg.maxRecordSize);
    KnownBases(s, k, durable, cfg.maxRecordSize);
    var cut := Min(upTo, s.w.nextLSN);
    if s.w.firstLSN == 0 || cut <= s.w.firstLSN {
    } else if cut >= s.w.nextLSN {
      NextUnknown(s, k, durable, cfg.maxRecordSize);
      StepSpares(s, Remove(cut), b);
      StepSpares(Do(s, Remove(cut)), Create(cut), b);
      RemoveAllSpares(Do(Do(s, Remove(cut)), Create(cut)), s.w.bases, b);
    } else {
      BoundaryIs(s.w.bases, cut);
      var i := BoundaryIndex(s.w.bases, cut);
      if s.w.bases[i] == cut {
        RemoveAllSpares(s, s.w.bases[..i], b);
      } else {
        if b == cut {
          BaseIsBoundary(s.w.bases, i, cut);
        }
        RewriteCutSpares(s, i, cut, cfg, b);
      }
    }
  }

  /** A file that can still be read is a segment of the log, or lies below it. */
  lemma KnownBases(s: St, k: seq<Payload>, durable: nat, maxRec: nat)
    requires Running(s, k, durable, false, maxRec)
    ensures s.w.bases != [] && forall b | b in Known(s.dir) :: b in s.w.bases || b < s.w.bases[0]
  {
    hide Laid, Storable, IsSpan;
    FilesAre(s.dir.files, s.w.bases, k);
    assert [] + s.w.bases == s.w.bases;
  }

  lemma FilesAre(f: Files, bs: seq<nat>, k: seq<Payload>)
    requires bs != [] && Laid(f, Plain(bs), k)
    ensures f.Keys == Elements(bs)
  {
    PlainParts(f, bs, k, []);
    hide Laid;
  }

  lemma NextUnknown(s: St, k: seq<Payload>, durable: nat, maxRec: nat)
    requires Running(s, k, durable, false, maxRec) && 0 < s.w.firstLSN < s.w.nextLSN
    ensures s.w.nextLSN !in Known(s.dir)
  {
    hide Running, Known;
    RunningWriter(s, k, durable, false, maxRec);
    KnownBases(s, k, durable, maxRec);
  }

  lemma RewriteCutSpares(s: St, k: nat, cut: nat, cfg: Config, b: nat)
    requires k < |s.w.bases| && b in Known(s.dir) && b != cut
    ensures SameBody(s.dir, CutRewriteBoundary(s, k, cut, cfg).st.dir, b)
  {
    hide Known, Body, RemoveAll, RewriteFrom;
    var x := s.w.bases[k];
    if x in s.dir.files {
      RewriteSpares(s, s.dir.files[x].body, cut, cfg, b);
      RemoveAllSpares(RewriteFrom(s, s.dir.files[x].body, cut, cfg).st, s.w.bases[..k + 1], b);
    }
  }

  // A commit only adds segments.

  lemma RecordAddsBases(s: St, p: Payload, cfg: Config)
    requires s.w.bases != []
    ensures s.w.bases <= WriteRecord(s, p, cfg).w.bases
  {
    hide Apply, MustRoll, Frame;
  }

  lemma {:induction false} RequestAddsBases(s: St, ps: seq<Payload>, cfg: Config)
    requires s.w.bases != []
    ensures s.w.bases <= WriteRequest(s, ps, cfg).w.bases
    decreases |ps|
  {
    hide WriteRecord;
    if ps != [] {
      RecordAddsBases(s, ps[0], cfg);
      RequestAddsBases(WriteRecord(s, ps[0], cfg), ps[1..], cfg);
    }
  }

  lemma {:induction false} BatchAddsBases(s: St, batch: seq<Request>, cfg: Config)
    requires s.w.bases != []
    ensures s.w.bases <= WriteBatch(s, batch, cfg).st.w.bases
    decreases |batch|
  {
    hide WriteRequest;
    if batch == [] {
    } else if batch[0].cancelled {
      BatchAddsBases(s, batch[1..], cfg);
    } else {
      RequestAddsBases(s, batch[0].payloads, cfg);
      BatchAddsBases(WriteRequest(s, batch[0].payloads, cfg), batch[1..], cfg);
    }
  }

  lemma CommitAddsBases(s: St, batch: seq<Request>, cfg: Config)
    requires s.w.bases != []
    ensures s.w.bases <= Commit(s, batch, cfg).st.w.bases
  {
    hide WriteBatch, Apply;
    BatchAddsBases(s, batch, cfg);
  }

  // Where the writer's moments end.

  /** The state after a sequence of operations. */
  function Finally(s: St, ops: seq<Op>, cfg: Config): St
    decreases |ops|
  {
    if ops == [] || s.w.bases == [] then s else Finally(Settled(Perform(s, ops[0], cfg)), ops[1..], cfg)
  }

  function LastMoment(ms: seq<Moment>): Moment
    requires ms != []
  {
    ms[|ms| - 1]
  }

  lemma MomentsOfEnd(s: St, r: St)
    requires |s.trace| <= |r.trace|
    ensures MomentsOf(s, r) != [] && LastMoment(MomentsOf(s, r)) == Moment(r.dir, r.w)
  {
  }

  lemma CommitEnds(s: St, batch: seq<Request>, cfg: Config)
    requires s.w.bases != []
    ensures var r := Commit(s, batch, cfg).st;
      CommitMoments(s, batch, cfg) != [] && LastMoment(CommitMoments(s, batch, cfg)) == Moment(r.dir, r.w)
  {
    hide WriteBatch, BatchMoments, MomentsOf, Apply;
    var t, r := WriteBatch(s, batch, cfg).st, Commit(s, batch, cfg).st;
    assert |t.trace| <= |r.trace|;
    MomentsOfEnd(t, r);
  }

  lemma OpEnds(s: St, k: seq<Payload>, durable: nat, op: Op, cfg: Config)
    requires Running(s, k, durable, false, cfg.maxRecordSize) && s.w.bases != []
    requires Storable(k + Payloads(op), cfg.maxRecordSize)
    ensures var r := Perform(s, op, cfg);
      OpMoments(s, op, cfg) != [] && LastMoment(OpMoments(s, op, cfg)) == Moment(r.dir, r.w)
  {
    hide Running, Path, Perform, Commit, CommitMoments, MomentsOf, Payloads, Storable;
    if op.DoCommit? {
      CommitEnds(s, op.batch, cfg);
      CommitIsOp(s, op, cfg);
    } else {
      var b := OpCalmPath(s, k, durable, op, cfg);
      PathGrows(s, Perform(s, op, cfg), b);
      MomentsOfEnd(s, Perform(s, op, cfg));
    }
  }

  lemma {:induction false} CourseEnds(s: St, k: seq<Payload>, durable: nat, ops: seq<Op>, cfg: Config)
    requires Running(s, k, durable, false, cfg.maxRecordSize) && Storable(k + AllPayloads(ops), cfg.maxRecordSize)
    ensures var r := Finally(s, ops, cfg);
      && LastMoment([Moment(s.dir, s.w)] + MomentsOfAll(s, ops, cfg)) == Moment(r.dir, r.w)
      && Running(r, k + AllPayloads(ops), durable, false, cfg.maxRecordSize)
    decreases |ops|
  {
    hide Running, Perform, Payloads, OpMoments, Storable;
    RunningStorable(s, k, durable, false, cfg.maxRecordSize);
    if ops == [] {
      assert k + AllPayloads(ops) == k;
    } else {
      var k1 := k + Payloads(ops[0]);
      assert k + AllPayloads(ops) == k1 + AllPayloads(ops[1..]);
      StorableInit(k + AllPayloads(ops), k1, cfg.maxRecordSize);
      OpEnds(s, k, durable, ops[0], cfg);
      var b := OpCalmPath(s, k, durable, ops[0], cfg);
      var r := Perform(s, ops[0], cfg);
      SettledRunning(r, k1, durable, cfg.maxRecordSize);
      CourseEnds(Settled(r), k1, durable, ops[1..], cfg);
      LastOfConcat(Moment(s.dir, s.w), OpMoments(s, ops[0], cfg), MomentsOfAll(Settled(r), ops[1..], cfg));
    }
  }

  lemma LastOfConcat(m: Moment, a: seq<Moment>, b: seq<Moment>)
    requires a != []
    ensures LastMoment([m] + (a + b)) == LastMoment([LastMoment(a)] + b)
  {
  }

  /** Between operations the log starts at the first base. */
  lemma RestGone(s: St, k: seq<Payload>, durable: nat, maxRec: nat, n: nat)
    requires Running(s, k, durable, false, maxRec)
    ensures s.w.bases != [] && (Gone(s.dir, n) <==> n < s.w.bases[0])
    ensures s.w.firstLSN == 0 || s.w.firstLSN == s.w.bases[0]
    ensures s.w.firstLSN == 0 ==> s.w.bases[0] == s.w.lastLSN + 1
  {
    LaidRange(s.dir.files, Plain(s.w.bases), k);
    hide Live, Laid, Storable;
    assert [] + s.w.bases == s.w.bases;
  }

  // A cut of everything.

  lemma CutAllLeaves(s: St, k: seq<Payload>, durable: nat, upTo: nat, cfg: Config)
    requires Running(s, k, durable, false, cfg.maxRecordSize) && s.w.nextLSN <= upTo
    requires 0 < s.w.firstLSN <= s.w.lastLSN
    ensures s.w.bases != []
    ensures var r := Finally(s, [DoCut(upTo)], cfg);
      && r.w.firstLSN == 0 && r.w.lastLSN == s.w.lastLSN && Gone(r.dir, s.w.lastLSN)
      && AllPayloads([DoCut(upTo)]) == []
  {
    hide Running, Cut, Gone, LogOf;
    RunningStorable(s, k, durable, false, cfg.maxRecordSize);
    RunningLast(s, k, durable, false, cfg.maxRecordSize);
    RunningFirst(s, k, durable, false, cfg.maxRecordSize);
    RunningWriter(s, k, durable, false, cfg.maxRecordSize);
    CutExact(s, k, durable, false, upTo, cfg);
    var r := Cut(s, upTo, cfg).st;
    RestGone(r, k, durable, cfg.maxRecordSize, s.w.lastLSN);
    OneOp(s, DoCut(upTo), cfg);
    assert AllPayloads([DoCut(upTo)]) == [] + AllPayloads([DoCut(upTo)][1..]);
  }

  lemma OneOp(s: St, op: Op, cfg: Config)
    requires s.w.bases != []
    ensures Finally(s, [op], cfg) == Settled(Perform(s, op, cfg))
  {
    hide Perform, Settled;
    assert [op][1..] == [];
  }

  /** A snapshot follower that everything was taken from before its first look, at `snap`: whatever the writer did
      until then and does later, and however its steps fall, no record is delivered, and the follower is told
      exactly when the index it looks at says so. */
  method FollowGone(s: St, ghost k: seq<Payload>, ghost durable: nat, ops: seq<Op>, cfg: Config, pace: seq<nat>,
                    fromLSN: nat, patience: nat, delays: seq<nat>)
      returns (last: Moment, received: seq<Record>, err: Option<FollowError>, stopped: bool, ghost snap: Moment)
    requires Running(s, k, durable, false, cfg.maxRecordSize)
    requires Storable(k + AllPayloads(ops), cfg.maxRecordSize) && 1 <= fromLSN
    ensures Placed(snap, Joining(s, ops, cfg, pace), Course(s, ops, cfg)) && last in Course(s, ops, cfg)
    ensures Joining(s, ops, cfg, pace) == 0 ==> last == snap
    ensures Gone(snap.dir, s.w.lastLSN) ==>
      received == [] && !stopped && err == if fromLSN < snap.w.firstLSN then Some(Truncated) else None
  {
    hide Running, Storable, MomentsOfAll, Flows, Stream, Caught, Gone, TurnsOut, Course, Series, Ended, Given, Timed;
    ghost var h := k + AllPayloads(ops);
    ghost var begun, highWater, t, earlier, left;
    begun, last, received, highWater, err, stopped, t, earlier, left :=
      FollowBeside(s, k, durable, ops, cfg, [0] + pace, fromLSN, false, patience, delays, []);
    snap := t.snap;
    JoinsAtOnce(s, ops, cfg, pace);
    OneTurn(t, Later([0] + pace, 1) == [], Course(s, ops, cfg), h);
    TimedEnds(t, left, Course(s, ops, cfg));
    PlacedIn(last, left, Course(s, ops, cfg));
    PlacedIn(snap, t.at, Course(s, ops, cfg));
    ghost var result :| TurnsOut(result, t, last, h) && (stopped <==> result == Stopped)
      && (err == Some(Truncated) <==> result == Gap);
    BeganAt(begun, s, ops, cfg);
    if Gone(snap.dir, s.w.lastLSN) {
      NothingToHand(result, t, last, h);
      if !stopped {
        GoneBefore(result, t, last, h);
      }
      NoneHanded(t, 0);
    }
  }

  /** The stream is this turn. */
  lemma OneTurn(t: Turning, calm: bool, course: seq<Moment>, h: seq<Payload>)
    requires Series([] + [t], calm, course, h)
    ensures Timed(t, course) && ([] + [t])[0] == t && GivenAll([] + [t]) == Given(t.handed)
  {
    hide Timed, Given;
    assert [] + [t] == [t] && [t][..0] == [];
    assert GivenAll([t]) == GivenAll([]) + Given(t.handed);
    EmptyUnit(Given(t.handed));
  }

  lemma JoinsAtOnce(s: St, ops: seq<Op>, cfg: Config, pace: seq<nat>)
    ensures Joining(s, ops, cfg, [0] + pace) == |MomentsOfAll(s, ops, cfg)| && Delay([0] + pace, 1) == Delay(pace, 0)
  {
    hide MomentsOfAll;
  }

  lemma BeganAt(begun: Moment, s: St, ops: seq<Op>, cfg: Config)
    requires Placed(begun, |MomentsOfAll(s, ops, cfg)|, Course(s, ops, cfg))
    ensures begun == Moment(s.dir, s.w)
  {
    hide MomentsOfAll;
  }

  lemma TimedEnds(t: Turning, left: nat, course: seq<Moment>)
    requires Timed(t, course) && Ended(t, left)
    ensures left <= t.at && Placed(t.snap, t.at, course)
  {
    ToComeFalls(t, course);
    hide TimedAt, Placed;
  }

  lemma PlacedIn(m: Moment, left: nat, course: seq<Moment>)
    requires Placed(m, left, course)
    ensures m in course && (left == 0 ==> m == LastMoment(course))
  {
  }

  /** A snapshot follower behind a cut of everything: it was made over a log with records from `fromLSN` on, the
      cut completes before its first look, and it ends with no record and no error. */
  method FollowAfterCut(s: St, ghost k: seq<Payload>, ghost durable: nat, upTo: nat, cfg: Config, fromLSN: nat,
                        patience: nat, delays: seq<nat>)
      returns (last: Moment, received: seq<Record>, err: Option<FollowError>, stopped: bool)
    requires Running(s, k, durable, false, cfg.maxRecordSize) && s.w.nextLSN <= upTo
    requires 0 < s.w.firstLSN <= s.w.lastLSN
    requires 1 <= fromLSN <= s.w.lastLSN
    ensures var r := Finally(s, [DoCut(upTo)], cfg);
      last == Moment(r.dir, r.w) && last.w.lastLSN == s.w.lastLSN
    ensures received == [] && err == None && !stopped
  {
    hide Running, Storable, MomentsOfAll, Gone, Finally;
    CutAllLeaves(s, k, durable, upTo, cfg);
    RunningStorable(s, k, durable, false, cfg.maxRecordSize);
    assert k + AllPayloads([DoCut(upTo)]) == k;
    CourseEnds(s, k, durable, [DoCut(upTo)], cfg);
    ghost var snap;
    last, received, err, stopped, snap :=
      FollowGone(s, k, durable, [DoCut(upTo)], cfg, [|MomentsOfAll(s, [DoCut(upTo)], cfg)|], fromLSN, patience, delays);
    PlacedIn(snap, 0, Course(s, [DoCut(upTo)], cfg));
  }

  lemma NoneHanded(t: Turning, left: nat)
    requires t.handed == []
    ensures Given(t.handed) == [] && LeftOf(t.handed, left) == left && Mark(t) == t.mark
  {
  }

  // A cut that leaves records.

  /** The operations: a commit of new records, and a cut among those. */
  function Overtakers(batch: seq<Request>, upTo: nat): seq<Op> {
    [DoCommit(batch), DoCut(upTo)]
  }

  lemma OvertakersPay(batch: seq<Request>, upTo: nat)
    ensures AllPayloads(Overtakers(batch, upTo)) == Accepted(batch)
  {
    hide Accepted;
    assert Overtakers(batch, upTo)[1..] == [DoCut(upTo)];
    assert AllPayloads([DoCut(upTo)]) == [] + AllPayloads([DoCut(upTo)][1..]);
    EmptyUnit(Accepted(batch));
  }

  lemma OvertakersAre(s: St, batch: seq<Request>, upTo: nat, cfg: Config)
    requires s.w.bases != [] && Commit(s, batch, cfg).st.w.bases != []
    ensures Finally(s, Overtakers(batch, upTo), cfg) == Settled(Cut(Settled(Commit(s, batch, cfg).st), upTo, cfg).st)
  {
    hide Commit, Cut, Accepted;
    assert Overtakers(batch, upTo)[1..] == [DoCut(upTo)];
    OneOp(Settled(Commit(s, batch, cfg).st), DoCut(upTo), cfg);
  }

  /** The segment `b` holds the records before LSN `end`, and no other, for whoever has it open. */
  ghost predicate EndsBefore(d: Dir, b: nat, end: nat, h: seq<Payload>) {
    b in Known(d) && Interval(h, b, end) && |Body(d, b)| <= |Span(h, b, end)|
  }

  lemma EndsThere(d: Dir, b: nat, end: nat, n: nat, h: seq<Payload>)
    requires EndsBefore(d, b, end, h) && Supplies(d, Some(b), n, h)
    ensures n < end
  {
    hide Span, Body;
    if end <= n {
      SpanMonotone(h, b, end, n + 1);
    }
  }

  /** Afterwards nothing of what was committed before is on disk, and the first segment of then is closed. */
  lemma OvertakenLeaves(s: St, k: seq<Payload>, durable: nat, batch: seq<Request>, upTo: nat, cfg: Config)
    requires Running(s, k, durable, false, cfg.maxRecordSize) && Storable(k + Accepted(batch), cfg.maxRecordSize)
    requires |s.w.bases| > 1 && s.w.lastLSN < upTo <= s.w.lastLSN + |Accepted(batch)|
    ensures var r := Finally(s, Overtakers(batch, upTo), cfg);
      && r.w.firstLSN == upTo <= r.w.lastLSN && (forall b | b in r.dir.files :: upTo <= b)
      && EndsBefore(r.dir, s.w.bases[0], s.w.bases[1], k + Accepted(batch))
  {
    hide Running, Commit, Cut, Accepted, LogOf, EndsBefore, Finally;
    var h := k + Accepted(batch);
    CommitExact(s, k, durable, false, batch, cfg);
    var u := Commit(s, batch, cfg).st;
    CommitAddsBases(s, batch, cfg);
    SettledRunning(u, h, durable, cfg.maxRecordSize);
    RunningLast(s, k, durable, false, cfg.maxRecordSize);
    RunningStorable(s, k, durable, false, cfg.maxRecordSize);
    FirstSegment(s, k, durable, cfg.maxRecordSize);
    FirstSegment(u, h, durable, cfg.maxRecordSize);
    OvertakersAre(s, batch, upTo, cfg);
    var v := Settled(u);
    CutExact(v, h, durable, false, upTo, cfg);
    var r := Cut(v, upTo, cfg).st;
    RunningLast(v, h, durable, false, cfg.maxRecordSize);
    RestFirst(r, h, durable, cfg.maxRecordSize);
    CutSpares(v, h, durable, upTo, cfg, s.w.bases[0]);
    StillEnds(v.dir, r.dir, s.w.bases[0], s.w.bases[1], h);
  }

  lemma StillEnds(d: Dir, e: Dir, b: nat, end: nat, h: seq<Payload>)
    requires EndsBefore(d, b, end, h) && SameBody(d, e, b)
    ensures EndsBefore(e, b, end, h)
  {
    hide Span, Body, Known;
  }

  lemma FirstSegment(u: St, h: seq<Payload>, durable: nat, maxRec: nat)
    requires Running(u, h, durable, false, maxRec) && |u.w.bases| > 1
    ensures u.w.firstLSN == u.w.bases[0] < u.w.bases[1] <= u.w.lastLSN && u.w.bases[0] != 0
    ensures EndsBefore(u.dir, u.w.bases[0], u.w.bases[1], h) && u.w.bases[0] in Known(u.dir)
  {
    hide Running, Span, EndsBefore;
    RunningWriter(u, h, durable, false, maxRec);
    RunningFirst(u, h, durable, false, maxRec);
    RunningLast(u, h, durable, false, maxRec);
    FirstEnds(u, h, durable, maxRec);
  }

  lemma FirstEnds(u: St, h: seq<Payload>, durable: nat, maxRec: nat)
    requires Running(u, h, durable, false, maxRec) && |u.w.bases| > 1
    ensures EndsBefore(u.dir, u.w.bases[0], u.w.bases[1], h) && u.w.bases[0] in Known(u.dir)
    ensures u.w.bases[1] <= |h| && u.w.firstLSN == u.w.bases[0]
  {
    hide Span, Laid, Storable, Bygone, Durable, Safe;
    var t := Plain(u.w.bases);
    LaidAt(u.dir.files, t, h, 0);
    RunningWriter(u, h, durable, false, maxRec);
    SecondBelow(u.w.bases, |h|);
  }

  lemma SecondBelow(bs: seq<nat>, n: nat)
    requires Ascending(bs) && |bs| > 1 && LastBase(bs) <= n
    ensures bs[0] < bs[1] <= n
  {
  }

  lemma RestFirst(r: St, h: seq<Payload>, durable: nat, maxRec: nat)
    requires Running(r, h, durable, false, maxRec) && r.w.firstLSN != 0
    ensures forall b | b in r.dir.files :: r.w.firstLSN <= b
  {
    LaidRange(r.dir.files, Plain(r.w.bases), h);
    hide Live, Laid, Storable;
    assert [] + r.w.bases == r.w.bases;
  }

  lemma {:induction false} PunctualEnds(hs: seq<Handed>, i: nat, delays: seq<nat>, left: nat, course: seq<Moment>)
    requires Punctual(hs, delays, left, course) && i < |hs| && delays != [] && left <= delays[0]
    ensures course != [] && hs[i].left == 0 && hs[i].after == LastMoment(course)
    decreases i
  {
    assert PunctualAt(hs, i, delays, left, course);
    if i > 0 {
      PunctualEnds(hs, i - 1, delays, left, course);
    }
  }

  /** With nothing of the window left on disk the reader goes on in the file it has open, and only there. */
  lemma {:induction false} StaysInFile(t: Turning, i: nat, b0: nat, b1: nat, fin: Moment, h: seq<Payload>)
    requires Handing(t, h) && i < |t.handed| && t.calm && t.started && t.mark + 1 < b1
    requires forall j | 0 <= j < |t.handed| :: t.handed[j].after == fin
    requires forall b | b in t.snap.dir.files && b < b1 :: b == b0
    requires (forall b | b in fin.dir.files :: t.end < b) && EndsBefore(fin.dir, b0, b1, h)
    ensures t.handed[i].base == b0 && t.handed[i].entry.lsn < b1
    decreases i
  {
    hide EndsBefore, Flows, Supplies;
    var u, x := Upto(t, i), t.handed[i];
    assert Continues(u, x, h);
    SuppliedAbove(x.after.dir, Some(x.base), x.entry.lsn, h);
    if i > 0 {
      StaysInFile(t, i - 1, b0, b1, fin, h);
      assert Reached(u) == fin;
    }
    EndsThere(fin.dir, b0, b1, x.entry.lsn, h);
  }

  /** How the last turn of such a follower comes out. */
  lemma OvertakenTurn(result: BatchResult, t: Turning, fin: Moment, last: Moment, b0: nat, b1: nat, h: seq<Payload>)
    requires TurnsOut(result, t, last, h) && t.calm && t.started && t.mark + 1 < b1 <= t.end
    requires t.snap.w.firstLSN == b0 <= t.mark + 1
    requires (t.handed == [] ==> last == t.snap) && forall j | 0 <= j < |t.handed| :: t.handed[j].after == fin
    requires result == Stopped ==> t.handed != []
    requires b0 in t.snap.dir.files && forall b | b in t.snap.dir.files && b < b1 :: b == b0
    requires (forall b | b in fin.dir.files :: t.end < b) && EndsBefore(fin.dir, b0, b1, h)
    ensures t.handed != [] && Mark(t) < b1 && result != Gap
  {
    hide Flows, Handing, EndsBefore, NothingLeft, Gone;
    if t.handed == [] {
      StartsThere(t.snap.dir, b0, t.mark + 1);
      StartsThere(t.snap.dir, b0, t.end);
      if result != Stopped {
        CalmTurn(result, t, last, h);
      }
    } else {
      StaysInFile(t, |t.handed| - 1, b0, b1, fin, h);
      if result == Gap {
        MetThere(t, h);
        BeyondGone(fin.dir, t.end, t.met.value.entry.lsn);
      }
    }
  }

  lemma StartsThere(d: Dir, b: nat, n: nat)
    requires b in d.files && b <= n
    ensures !Gone(d, n)
  {
  }

  lemma BeyondGone(d: Dir, end: nat, n: nat)
    requires (forall b | b in d.files :: end < b) && n <= end
    ensures Gone(d, n)
  {
  }

  lemma LowFiles(f: Files, bs: seq<nat>, h: seq<Payload>)
    requires Laid(f, Plain(bs), h) && |bs| > 1
    ensures bs[0] in f && forall b | b in f && b < bs[1] :: b == bs[0]
  {
    hide Laid, Whole, Tip, Ascending, Elements;
    PlainParts(f, bs, h, []);
    ElementsAre(bs);
    forall b | b in f && b < bs[1]
      ensures b == bs[0]
    {
      SecondLeast(bs, b);
    }
  }

  lemma ElementsAre(bs: seq<nat>)
    ensures forall b :: b in Elements(bs) <==> b in bs
    ensures bs != [] ==> bs[0] in Elements(bs)
  {
  }

  lemma SecondLeast(bs: seq<nat>, b: nat)
    requires Ascending(bs) && |bs| > 1 && b in bs && b < bs[1]
    ensures b == bs[0]
  {
    var i :| 0 <= i < |bs| && bs[i] == b;
  }

  lemma FirstFiles(s: St, k: seq<Payload>, durable: nat, maxRec: nat)
    requires Running(s, k, durable, false, maxRec) && |s.w.bases| > 1
    ensures s.w.bases[0] in s.dir.files && forall b | b in s.dir.files && b < s.w.bases[1] :: b == s.w.bases[0]
  {
    hide Laid, Storable;
    LowFiles(s.dir.files, s.w.bases, k);
  }

  lemma AllAfter(hs: seq<Handed>, delays: seq<nat>, left: nat, course: seq<Moment>)
    requires Punctual(hs, delays, left, course) && delays != [] && left <= delays[0] && course != []
    ensures forall i | 0 <= i < |hs| :: hs[i].after == LastMoment(course) && hs[i].left == 0
  {
    hide Punctual;
    forall i | 0 <= i < |hs|
      ensures hs[i].after == LastMoment(course) && hs[i].left == 0
    {
      PunctualEnds(hs, i, delays, left, course);
    }
  }

  lemma LeftThen(hs: seq<Handed>, left: nat)
    ensures hs == [] ==> LeftOf(hs, left) == left
    ensures hs != [] ==> LeftOf(hs, left) == hs[|hs| - 1].left && |Given(hs)| == |hs|
  {
  }

  lemma StreamLength(rs: seq<Record>, from: nat, highWater: nat, h: seq<Payload>)
    requires Stream(rs, from, highWater, h) && rs != [] && from > 0
    ensures rs[0].lsn == from && |rs| == highWater + 1 - from
  {
    assert UnbrokenAt(rs, |rs| - 1, h);
  }

  /** A snapshot follower that is overtaken while its consumer has the first record: new records are committed
      and a cut takes away all the others. It goes on to the end of the file it has open and then ends
      without an error, though the log is not empty and records it was to deliver are missing. */
  method FollowThroughCut(s: St, ghost k: seq<Payload>, ghost durable: nat, batch: seq<Request>, upTo: nat, cfg: Config,
                          fromLSN: nat, patience: nat, delays: seq<nat>)
      returns (last: Moment, received: seq<Record>, highWater: nat, err: Option<FollowError>, stopped: bool)
    requires Running(s, k, durable, false, cfg.maxRecordSize) && Storable(k + Accepted(batch), cfg.maxRecordSize)
    requires |s.w.bases| > 1 && s.w.lastLSN < upTo <= s.w.lastLSN + |Accepted(batch)|
    requires s.w.bases[0] <= fromLSN < s.w.bases[1] && s.w.lastLSN <= patience
    requires delays != [] && |MomentsOfAll(s, Overtakers(batch, upTo), cfg)| <= delays[0]
    ensures var r := Finally(s, Overtakers(batch, upTo), cfg);
      last == Moment(r.dir, r.w) && last.w.firstLSN == upTo <= last.w.lastLSN
    ensures !stopped && err == None
    ensures received != [] && received[0].lsn == fromLSN && Stream(received, fromLSN, highWater, k + Accepted(batch))
    ensures highWater < s.w.bases[1] <= s.w.lastLSN
  {
    ghost var h, ops := k + Accepted(batch), Overtakers(batch, upTo);
    hide Running, Storable, World, Perform, Unfolds, MomentsOfAll, Flows, OnCourse, Stream, Caught, Gone, TurnsOut;
    hide Finally, Punctual, Given, LeftOf, Series, GivenAll, Timed, Accepted, Overtakers, EndsBefore;
    ghost var b0, b1 := s.w.bases[0], s.w.bases[1];
    FirstSegment(s, k, durable, cfg.maxRecordSize);
    FirstFiles(s, k, durable, cfg.maxRecordSize);
    OvertakenLeaves(s, k, durable, batch, upTo, cfg);
    OvertakersPay(batch, upTo);
    AllUnfold(s, k, durable, ops, cfg, h);
    CourseEnds(s, k, durable, ops, cfg);
    var disk := new Disk(Moment(s.dir, s.w), MomentsOfAll(s, Overtakers(batch, upTo), cfg), [], cfg.maxRecordSize, h);
    var consumer := new Consumer(patience, delays);
    var follower := new Follower(disk, consumer, fromLSN, false);
    ghost var t, earlier;
    stopped, t, earlier := follower.StreamRecords([]);
    OneTurn(t, true, disk.course, h);
    received, highWater, err, last := consumer.received, follower.highWater, follower.err, disk.now;
    ghost var result :| TurnsOut(result, t, disk.now, h) && (stopped <==> result == Stopped)
      && (follower.err == Some(Truncated) <==> result == Gap);
    AllAfter(t.handed, delays, |disk.course| - 1, disk.course);
    NowAt(disk.now, disk.future, disk.course);
    LeftThen(t.handed, |disk.course| - 1);
    OvertakenTurn(result, t, LastMoment(disk.course), disk.now, b0, b1, h);
    StreamLength(received, fromLSN, highWater, h);
  }

  // Between operations.

  /** A turn that begins between operations, with no file coming or going while it lasts, leaves a follower
      that is behind without its records and without an error exactly when the published first LSN is 0. */
  lemma StallsExactly(result: BatchResult, t: Turning, last: Moment, s: St, k: seq<Payload>, durable: nat, maxRec: nat,
                      h: seq<Payload>)
    requires Running(s, k, durable, false, maxRec) && TurnsOut(result, t, last, h) && result != Stopped
    requires t.snap == Moment(s.dir, s.w) && t.started && t.mark < t.end <= s.w.lastLSN
    requires last.dir.files == s.dir.files
    ensures result == Drained && Mark(t) < t.end <==> s.w.firstLSN == 0
  {
    hide Running, TurnsOut, Gone;
    RestGone(s, k, durable, maxRec, t.end);
    CalmTurn(result, t, last, h);
  }

  /** The follower subscribes again and again: each time the writer signals it. */
  ghost predicate SignalledEach(states: seq<Protocol.Shared>, channels: seq<nat>, from: nat) {
    |states| <= |channels| + 1 && forall i | 0 <= i < |states| - 1 :: SignalledAt(states, channels, i, from)
  }

  ghost predicate SignalledAt(states: seq<Protocol.Shared>, channels: seq<nat>, i: nat, from: nat)
    requires i < |states| - 1 && i < |channels|
  {
    && Protocol.Subscribes(states[i], states[i + 1], channels[i], from)
    && channels[i] in states[i + 1].notified && states[i + 1].parked == states[i].parked
  }

  predicate AllDistinct(channels: seq<nat>) {
    forall i, j | 0 <= i < j < |channels| :: channels[i] != channels[j]
  }

  /** How the protocol stands after the first `i` subscriptions. */
  predicate Signalling(now: Protocol.Shared, start: Protocol.Shared, channels: seq<nat>, i: nat)
    requires i <= |channels|
  {
    && now.writer == start.writer && now.lastLSN == start.lastLSN
    && forall c | c in now.subscribed :: c in start.subscribed || c in channels[..i]
  }

  lemma SignalNext(states: seq<Protocol.Shared>, start: Protocol.Shared, channels: seq<nat>, i: nat, from: nat)
    requires |states| == i + 1 && i < |channels| && SignalledEach(states, channels, from)
    requires Signalling(states[i], start, channels, i) && start.writer.Looping? && from < start.lastLSN
    requires AllDistinct(channels) && forall c | c in channels :: c !in start.subscribed
    ensures var u := Protocol.Subscribed(states[i], channels[i], from);
      && channels[i] in u.notified && Signalling(u, start, channels, i + 1)
      && SignalledEach(states + [u], channels, from)
  {
    var u := Protocol.Subscribed(states[i], channels[i], from);
    assert channels[..i + 1] == channels[..i] + [channels[i]];
    assert channels[i] !in channels[..i];
    forall j | 0 <= j < |states + [u]| - 1
      ensures SignalledAt(states + [u], channels, j, from)
    {
      if j < i {
        assert SignalledAt(states, channels, j, from);
      }
    }
  }

  /** After a cut of everything a follower in follow mode that is behind subscribes, is signalled at once, finds
      nothing and subscribes again: none of any number of turns delivers a record, or ends the stream,
      until something is committed. */
  method FollowStalled(s: St, ghost k: seq<Payload>, ghost durable: nat, cfg: Config, fromLSN: nat,
                       patience: nat, start: Protocol.Shared, channels: seq<nat>)
      returns (received: seq<Record>, err: Option<FollowError>, states: seq<Protocol.Shared>)
    requires Running(s, k, durable, false, cfg.maxRecordSize) && s.w.firstLSN == 0
    requires 1 <= fromLSN <= s.w.lastLSN
    requires start.writer.Looping? && start.lastLSN == s.w.lastLSN
    requires AllDistinct(channels) && forall c | c in channels :: c !in start.subscribed
    ensures |states| == |channels| + 1 && states[0] == start && SignalledEach(states, channels, fromLSN - 1)
    ensures received == [] && err == None
  {
    hide Running, Storable, World, Unfolds, Flows, OnCourse, Stream, Caught, Gone, TurnsOut, Punctual, Given, LeftOf;
    hide Timed, Ended, Placed, SignalledEach, Signalling, AllDistinct, Left;
    RunningStorable(s, k, durable, false, cfg.maxRecordSize);
    RunningWorld(s, k, durable, false, cfg.maxRecordSize, k);
    RestGone(s, k, durable, cfg.maxRecordSize, s.w.lastLSN);
    NoFuture(Moment(s.dir, s.w), k);
    var disk := new Disk(Moment(s.dir, s.w), [], [], cfg.maxRecordSize, k);
    var consumer := new Consumer(patience, []);
    var follower := new Follower(disk, consumer, fromLSN, true);
    StreamBegins(disk.now, fromLSN, follower.highWater);
    states := [start];
    SignalFirst(start, channels, fromLSN - 1);
    for i := 0 to |channels|
      invariant follower.Valid() && follower.err == None && consumer.received == [] && follower.highWater == fromLSN - 1
      invariant disk.now == Moment(s.dir, s.w) && disk.future == [] && disk.pace == []
      invariant Caught(consumer.received, disk.now.dir, fromLSN, follower.highWater)
      invariant |states| == i + 1 && states[0] == start && SignalledEach(states, channels, fromLSN - 1)
      invariant Signalling(states[i], start, channels, i)
    {
      ghost var t;
      var result;
      result, t := follower.Turn();
      NothingToHand(result, t, disk.now, k);
      NoneHanded(t, 0);
      StaysPut(disk.now, disk.future, disk.course, Moment(s.dir, s.w));
      if result != Stopped {
        GoneBefore(result, t, disk.now, k);
      }
      SignalNext(states, start, channels, i, follower.highWater);
      var next := Protocol.Subscribed(states[i], channels[i], follower.highWater);
      var again := follower.WaitForCommit(if channels[i] in next.notified then Woken else ContextCanceled);
      states := states + [next];
    }
    received, err := consumer.received, follower.err;
  }

  lemma SignalFirst(start: Protocol.Shared, channels: seq<nat>, from: nat)
    ensures SignalledEach([start], channels, from) && Signalling(start, start, channels, 0)
  {
  }

  /** A course of one moment. */
  lemma StaysPut(now: Moment, future: seq<Moment>, course: seq<Moment>, m: Moment)
    requires OnCourse(now, future, course) && course == [m]
    ensures future == [] && now == m
  {
    CourseHolds(now, future, course);
  }

  lemma NoFuture(m: Moment, h: seq<Payload>)
    requires World(m, h)
    ensures Unfolds(m, [], h)
  {
    hide World;
  }

  lemma StreamBegins(m: Moment, from: nat, highWater: nat)
    requires from > 0 && highWater == from - 1
    ensures Caught([], m.dir, from, highWater)
  {
  }
}
