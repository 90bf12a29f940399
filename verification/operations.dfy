/** The writer's operations, step by step: what holds of every directory they pass through, and
    what they leave behind. */
module Operations {
  import opened Records
  import opened History
  import opened Directory
  import opened State
  import opened RecoveryIdempotence
  import opened Layout
  import opened Resting
  import opened Steps
  import opened WriterOps

  ghost predicate Traced(s: St) {
    s.trace != [] && s.trace[|s.trace| - 1] == s.dir
  }

  /** What is asked of every directory on the way: it holds some prefix of `h` of at least `low`
      records, starting no later than LSN `floor`; with `crash` it survives one without losing
      LSNs up to `durable`. */
  datatype Bounds = Bounds(h: seq<Payload>, low: nat, durable: nat, floor: nat, crash: bool)

  ghost predicate Passing(d: Dir, b: Bounds) {
    exists n: nat, t: Shape :: PassingAt(d, b, n, t)
  }

  ghost predicate PassingAt(d: Dir, b: Bounds, n: nat, t: Shape) {
    b.low <= n <= |b.h| && Live(d, t, b.h[..n], b.durable, b.crash) && t.bs[0] <= b.floor
  }

  ghost predicate Path(s: St, r: St, b: Bounds) {
    && Traced(s) && Traced(r) && s.trace <= r.trace
    && forall k | |s.trace| <= k < |r.trace| :: Passing(r.trace[k], b) && Evolves(r.trace[k - 1], r.trace[k])
  }

  lemma PathRefl(s: St, b: Bounds)
    requires Traced(s)
    ensures Path(s, s, b)
  {
  }

  lemma PathChain(s: St, t: St, r: St, b: Bounds)
    requires Path(s, t, b) && Path(t, r, b)
    ensures Path(s, r, b)
  {
    hide Passing, Evolves;
    forall k | |s.trace| <= k < |r.trace|
      ensures Passing(r.trace[k], b) && Evolves(r.trace[k - 1], r.trace[k])
    {
      if k < |t.trace| {
        assert r.trace[k] == t.trace[k] && r.trace[k - 1] == t.trace[k - 1];
      }
    }
  }

  lemma PathStep(s: St, step: Step, b: Bounds, n: nat, t: Shape)
    requires Traced(s) && PassingAt(Apply(s.dir, step), b, n, t) && Evolves(s.dir, Apply(s.dir, step))
    ensures Path(s, Do(s, step), b) && Do(s, step).dir == Apply(s.dir, step) && Do(s, step).w == s.w
  {
    hide Evolves, Apply, Live;
  }

  /** Changing the writer's fields is not a directory step. */
  lemma PathWriter(s: St, r: St, b: Bounds, w: Writer)
    requires Path(s, r, b)
    ensures Path(s, r.(w := w), b)
  {
    hide Passing, Evolves;
  }

  /** The log between two records of a commit. */
  ghost predicate Writing(s: St, h: seq<Payload>, durable: nat, crash: bool) {
    && Traced(s) && s.w.bases != []
    && Live(s.dir, Plain(s.w.bases), h, durable, crash)
    && s.w.nextLSN == Next(h)
    && (|s.w.bases| > 1 ==> LastBase(s.w.bases) < Next(h))
  }

  lemma RollLeavesSomething(s: St, h: seq<Payload>, durable: nat, crash: bool, p: Payload, cfg: Config)
    requires Writing(s, h, durable, crash) && MustRoll(s, p, cfg)
    ensures LastBase(s.w.bases) < Next(h)
  {
    hide Whole, Ordered, Bygone, Durable, Safe;
    var b := LastBase(s.w.bases);
    assert Tip(s.dir.files, b, h, []);
    if b == Next(h) {
      EmptySpan(h, b);
    }
  }

  lemma LiveStart(d: Dir, bs: seq<nat>, h: seq<Payload>, durable: nat, crash: bool, b: Bounds)
    requires bs != [] && Live(d, Plain(bs), h, durable, crash)
    requires h <= b.h && b.low <= |h| && b.durable == durable && b.crash == crash && bs[0] <= b.floor
    ensures PassingAt(d, b, |h|, Plain(bs))
  {
    hide Live;
    assert b.h[..|h|] == h;
  }

  /** The bounds allow directories that hold history `h` from base `first` on. */
  ghost predicate Allows(b: Bounds, h: seq<Payload>, durable: nat, crash: bool, first: nat) {
    h <= b.h && b.low <= |h| && b.durable == durable && b.crash == crash && first <= b.floor
  }

  lemma LivePath(s: St, step: Step, bs: seq<nat>, h: seq<Payload>, b: Bounds)
    requires Traced(s) && bs != [] && Live(Apply(s.dir, step), Plain(bs), h, b.durable, b.crash)
    requires Evolves(s.dir, Apply(s.dir, step))
    requires Allows(b, h, b.durable, b.crash, bs[0])
    ensures var r := Do(s, step);
      Path(s, r, b) && Live(r.dir, Plain(bs), h, b.durable, b.crash) && r.w == s.w
  {
    hide Live, Evolves, Apply;
    LiveStart(Apply(s.dir, step), bs, h, b.durable, b.crash, b);
    PathStep(s, step, b, |h|, Plain(bs));
  }

  lemma FsyncPath(s: St, bs: seq<nat>, h: seq<Payload>, b: Bounds)
    requires Traced(s) && bs != [] && Live(s.dir, Plain(bs), h, b.durable, b.crash)
    requires Allows(b, h, b.durable, b.crash, bs[0])
    ensures var r := Do(s, Fsync(LastBase(bs)));
      && Path(s, r, b) && Live(r.dir, Plain(bs), h, b.durable, b.crash) && r.w == s.w
      && SyncedOn(r.dir.files, [LastBase(bs)])
      && (b.crash ==> Live(r.dir, Plain(bs), h, |h|, b.crash))
  {
    hide Live, Evolves, Apply;
    FsyncStep(s.dir, Plain(bs), h, b.durable, b.crash);
    LivePath(s, Fsync(LastBase(bs)), bs, h, b);
  }

  lemma CreatePath(s: St, bs: seq<nat>, h: seq<Payload>, b: Bounds)
    requires Traced(s) && bs != [] && Live(s.dir, Plain(bs), h, b.durable, b.crash) && LastBase(bs) < Next(h)
    requires b.crash ==> SyncedOn(s.dir.files, [LastBase(bs)])
    requires Allows(b, h, b.durable, b.crash, bs[0])
    ensures Next(h) !in s.dir.files
    ensures var r := Do(s, Create(Next(h)));
      Path(s, r, b) && Live(r.dir, Plain(bs + [Next(h)]), h, b.durable, b.crash) && r.w == s.w
  {
    hide Live, Evolves, Apply, SyncedOn;
    CreateStep(s.dir, bs, h, b.durable, b.crash);
    LivePath(s, Create(Next(h)), bs + [Next(h)], h, b);
  }

  lemma WritePath(s: St, bs: seq<nat>, h: seq<Payload>, p: Payload, b: Bounds)
    requires Traced(s) && bs != [] && Live(s.dir, Plain(bs), h, b.durable, b.crash)
    requires Allows(b, h + [p], b.durable, b.crash, bs[0])
    ensures var r := Do(s, Write(LastBase(bs), Frame(Record(Next(h), p))));
      Path(s, r, b) && Live(r.dir, Plain(bs), h + [p], b.durable, b.crash) && r.w == s.w
  {
    hide Live, Evolves, Apply, Frame;
    WriteStep(s.dir, bs, h, p, b.durable, b.crash);
    LivePath(s, Write(LastBase(bs), Frame(Record(Next(h), p))), bs, h + [p], b);
  }

  /** Sealing the active segment and starting the next one. */
  lemma RollPath(s: St, h: seq<Payload>, b: Bounds)
    requires Writing(s, h, b.durable, b.crash) && LastBase(s.w.bases) < Next(h)
    requires Allows(b, h, b.durable, b.crash, s.w.bases[0])
    ensures var r := Roll(s);
      && Path(s, r, b) && Live(r.dir, Plain(r.w.bases), h, b.durable, b.crash)
      && r.w == s.w.(bases := s.w.bases + [Next(h)])
  {
    hide Live, Evolves, Apply, SyncedOn, Passing;
    var bs := s.w.bases;
    FsyncPath(s, bs, h, b);
    var s1 := Do(s, Fsync(LastBase(bs)));
    CreatePath(s1, bs, h, b);
    var s2 := Do(s1, Create(Next(h)));
    hide Do;
    PathChain(s, s1, s2, b);
    PathWriter(s, s2, b, s.w.(bases := bs + [Next(h)]));
  }

  lemma LiveLast(d: Dir, bs: seq<nat>, h: seq<Payload>, durable: nat, crash: bool)
    requires bs != [] && Live(d, Plain(bs), h, durable, crash)
    ensures LastBase(bs) <= Next(h)
  {
    hide Whole, Tip, Bygone, Durable, Safe;
  }

  /** One record: roll first if need be, then append. */
  lemma WriteRecordPath(s: St, h: seq<Payload>, p: Payload, b: Bounds, cfg: Config)
    requires Writing(s, h, b.durable, b.crash)
    requires h + [p] <= b.h && b.low <= |h| && s.w.bases[0] <= b.floor
    ensures var r := WriteRecord(s, p, cfg);
      && Path(s, r, b) && Writing(r, h + [p], b.durable, b.crash)
      && r.w.bases[0] == s.w.bases[0] && r.w.firstLSN == s.w.firstLSN && r.w.lastLSN == s.w.lastLSN
  {
    hide Live, Evolves, Apply, Frame, Passing;
    if MustRoll(s, p, cfg) {
      RollLeavesSomething(s, h, b.durable, b.crash, p, cfg);
      hide MustRoll;
      RollPath(s, h, b);
      AppendPath(s, Roll(s), h, p, b);
    } else {
      hide MustRoll;
      PathRefl(s, b);
      AppendPath(s, s, h, p, b);
    }
  }

  lemma AppendPath(s: St, s1: St, h: seq<Payload>, p: Payload, b: Bounds)
    requires s1.w.bases != [] && Path(s, s1, b) && Live(s1.dir, Plain(s1.w.bases), h, b.durable, b.crash)
    requires s1.w.nextLSN == Next(h)
    requires Allows(b, h + [p], b.durable, b.crash, s1.w.bases[0])
    ensures var s2 := Do(s1, Write(s1.w.Active(), Frame(Record(s1.w.nextLSN, p))));
      var r := s2.(w := s2.w.(nextLSN := s2.w.nextLSN + 1));
      Path(s, r, b) && Writing(r, h + [p], b.durable, b.crash)
  {
    hide Live, Evolves, Apply, Frame, Passing;
    LiveLast(s1.dir, s1.w.bases, h, b.durable, b.crash);
    WritePath(s1, s1.w.bases, h, p, b);
    var s2 := Do(s1, Write(s1.w.Active(), Frame(Record(s1.w.nextLSN, p))));
    hide Do;
    PathChain(s, s1, s2, b);
    PathWriter(s, s2, b, s2.w.(nextLSN := s2.w.nextLSN + 1));
  }

  lemma {:induction false} WriteRequestPath(s: St, h: seq<Payload>, ps: seq<Payload>, b: Bounds, cfg: Config)
    requires Writing(s, h, b.durable, b.crash)
    requires h + ps <= b.h && b.low <= |h| && s.w.bases[0] <= b.floor
    ensures var r := WriteRequest(s, ps, cfg);
      && Path(s, r, b) && Writing(r, h + ps, b.durable, b.crash)
      && r.w.bases[0] == s.w.bases[0] && r.w.firstLSN == s.w.firstLSN && r.w.lastLSN == s.w.lastLSN
    decreases |ps|
  {
    hide Live, Evolves, Passing, Frame, MustRoll, Roll;
    if ps == [] {
      assert h + ps == h;
      PathRefl(s, b);
    } else {
      assert h + [ps[0]] + ps[1..] == h + ps;
      WriteRecordPath(s, h, ps[0], b, cfg);
      var t := WriteRecord(s, ps[0], cfg);
      hide WriteRecord, Writing;
      WriteRequestPath(t, h + [ps[0]], ps[1..], b, cfg);
      PathChain(s, t, WriteRequest(s, ps, cfg), b);
    }
  }

  /** The payloads of a batch that get an LSN: those of the requests not cancelled in time. */
  function Accepted(batch: seq<Request>): seq<Payload> {
    if batch == [] then [] else (if batch[0].cancelled then [] else batch[0].payloads) + Accepted(batch[1..])
  }

  /** Each cancelled request is told so; each other one gets consecutive LSNs, after those of
      the requests before it. */
  predicate Answers(batch: seq<Request>, results: seq<Result>, next: nat) {
    |results| == |batch| && forall i | 0 <= i < |batch| :: AnswerAt(batch, results[i], next, i)
  }

  predicate AnswerAt(batch: seq<Request>, result: Result, next: nat, i: nat)
    requires i < |batch|
  {
    result == if batch[i].cancelled then Canceled
              else Assigned(Consecutive(next + |Accepted(batch[..i])|, |batch[i].payloads|))
  }

  predicate AnyLive(batch: seq<Request>) {
    exists i :: 0 <= i < |batch| && !batch[i].cancelled
  }

  lemma {:induction false} WriteBatchPath(s: St, h: seq<Payload>, batch: seq<Request>, b: Bounds, cfg: Config)
    requires Writing(s, h, b.durable, b.crash)
    requires h + Accepted(batch) <= b.h && b.low <= |h| && s.w.bases[0] <= b.floor
    ensures var r := WriteBatch(s, batch, cfg);
      && Path(s, r.st, b) && Writing(r.st, h + Accepted(batch), b.durable, b.crash)
      && r.st.w.bases[0] == s.w.bases[0] && r.st.w.firstLSN == s.w.firstLSN && r.st.w.lastLSN == s.w.lastLSN
      && (r.wroteAny <==> AnyLive(batch))
      && (!r.wroteAny ==> r.st == s && Accepted(batch) == [])
    decreases |batch|
  {
    hide Live, Evolves, Passing, WriteRequest;
    if batch == [] {
      assert h + [] == h;
      PathRefl(s, b);
    } else {
      var rest := batch[1..];
      AnyLiveTail(batch);
      if batch[0].cancelled {
        assert Accepted(batch) == Accepted(rest);
        WriteBatchPath(s, h, rest, b, cfg);
      } else {
        var ps := batch[0].payloads;
        assert h + ps + Accepted(rest) == h + Accepted(batch);
        WriteRequestPath(s, h, ps, b, cfg);
        var t := WriteRequest(s, ps, cfg);
        hide Writing;
        WriteBatchPath(t, h + ps, rest, b, cfg);
        PathChain(s, t, WriteBatch(s, batch, cfg).st, b);
      }
    }
  }

  lemma AnyLiveTail(batch: seq<Request>)
    requires batch != []
    ensures AnyLive(batch) <==> !batch[0].cancelled || AnyLive(batch[1..])
  {
    if AnyLive(batch[1..]) {
      var i :| 0 <= i < |batch[1..]| && !batch[1..][i].cancelled;
      assert !batch[i + 1].cancelled;
    }
    if AnyLive(batch) && batch[0].cancelled {
      var i :| 0 <= i < |batch| && !batch[i].cancelled;
      assert !batch[1..][i - 1].cancelled;
    }
  }

  lemma AnswersCons(batch: seq<Request>, first: Result, rest: seq<Result>, next: nat)
    requires batch != []
    requires Answers(batch[1..], rest, next + if batch[0].cancelled then 0 else |batch[0].payloads|)
    requires first == if batch[0].cancelled then Canceled else Assigned(Consecutive(next, |batch[0].payloads|))
    ensures Answers(batch, [first] + rest, next)
  {
    forall i | 0 <= i < |batch|
      ensures AnswerAt(batch, ([first] + rest)[i], next, i)
    {
      if i > 0 {
        assert AnswerAt(batch[1..], rest[i - 1], next + (if batch[0].cancelled then 0 else |batch[0].payloads|), i - 1);
        AnswerShift(batch, rest[i - 1], next, i);
      }
    }
  }

  lemma {:induction false} BatchAnswers(s: St, batch: seq<Request>, cfg: Config)
    requires s.w.bases != []
    ensures Answers(batch, WriteBatch(s, batch, cfg).results, s.w.nextLSN)
    decreases |batch|
  {
    hide WriteRequest;
    if batch != [] {
      var t := if batch[0].cancelled then s else WriteRequest(s, batch[0].payloads, cfg);
      BatchAnswers(t, batch[1..], cfg);
      RequestCounts(s, batch[0].payloads, cfg);
      var first := if batch[0].cancelled then Canceled else Assigned(Consecutive(s.w.nextLSN, |batch[0].payloads|));
      AnswersCons(batch, first, WriteBatch(t, batch[1..], cfg).results, s.w.nextLSN);
    }
  }

  lemma AnswerShift(batch: seq<Request>, result: Result, next: nat, i: nat)
    requires 0 < i < |batch|
    requires AnswerAt(batch[1..], result, next + (if batch[0].cancelled then 0 else |batch[0].payloads|), i - 1)
    ensures AnswerAt(batch, result, next, i)
  {
    assert batch[..i][1..] == batch[1..][..i - 1];
  }

  lemma {:induction false} RequestCounts(s: St, ps: seq<Payload>, cfg: Config)
    requires s.w.bases != []
    ensures WriteRequest(s, ps, cfg).w.nextLSN == s.w.nextLSN + |ps|
    decreases |ps|
  {
    if ps != [] {
      RequestCounts(WriteRecord(s, ps[0], cfg), ps[1..], cfg);
    }
  }

  /** The log between two operations. */
  ghost predicate Running(s: St, h: seq<Payload>, durable: nat, crash: bool, maxRec: nat) {
    && Traced(s) && AtRest(s.dir, s.w, h, maxRec)
    && Live(s.dir, Plain(s.w.bases), h, durable, crash)
  }

  lemma RunningFirst(s: St, h: seq<Payload>, durable: nat, crash: bool, maxRec: nat)
    requires Running(s, h, durable, crash, maxRec)
    ensures 1 <= s.w.bases[0] <= LastBase(s.w.bases) <= Next(h)
  {
    LaidRange(s.dir.files, Plain(s.w.bases), h);
    LiveLast(s.dir, s.w.bases, h, durable, crash);
    hide Live, Laid;
    assert ([] + s.w.bases)[0] == s.w.bases[0];
  }

  /** How far a commit makes the log durable. */
  function DurableAfter(h: seq<Payload>, batch: seq<Request>, durable: nat, cfg: Config): nat {
    if AnyLive(batch) && cfg.policy != SyncInterval then |h| + |Accepted(batch)| else durable
  }

  /** A group commit appends exactly the payloads of its live requests to the log. */
  lemma CommitPath(s: St, h: seq<Payload>, batch: seq<Request>, b: Bounds, cfg: Config)
    requires Running(s, h, b.durable, b.crash, cfg.maxRecordSize)
    requires Storable(h + Accepted(batch), cfg.maxRecordSize)
    requires h + Accepted(batch) <= b.h && b.low <= |h| && s.w.bases[0] <= b.floor
    ensures var r := Commit(s, batch, cfg);
      && Path(s, r.st, b)
      && Running(r.st, h + Accepted(batch),
                 if b.crash then DurableAfter(h, batch, b.durable, cfg) else b.durable, b.crash, cfg.maxRecordSize)
      && r.st.w.bases[0] == s.w.bases[0]
      && Answers(batch, r.results, Next(h))
      && (AnyLive(batch) && cfg.policy != SyncInterval ==> SyncedOn(r.st.dir.files, [LastBase(r.st.w.bases)]))
      && (!AnyLive(batch) ==> r.st == s)
  {
    hide Live, Evolves, Passing, Laid, Storable, WriteBatch, Answers;
    WriteBatchPath(s, h, batch, b, cfg);
    BatchAnswers(s, batch, cfg);
    var k := h + Accepted(batch);
    var t := WriteBatch(s, batch, cfg);
    if t.wroteAny {
      hide AnyLive;
      FlushPath(s, t.st, k, b, cfg);
      LiveLaid(t.st, k, b);
    } else {
      assert k == h;
    }
  }

  lemma LiveLaid(t: St, h: seq<Payload>, b: Bounds)
    requires Writing(t, h, b.durable, b.crash)
    ensures Laid(t.dir.files, Plain(t.w.bases), h) && 1 <= t.w.bases[0]
  {
    LaidRange(t.dir.files, Plain(t.w.bases), h);
    hide Laid;
    assert ([] + t.w.bases)[0] == t.w.bases[0];
  }

  /** The fsync and publication that end a commit. */
  lemma FlushPath(s: St, t: St, h: seq<Payload>, b: Bounds, cfg: Config)
    requires Path(s, t, b) && Writing(t, h, b.durable, b.crash) && Storable(h, cfg.maxRecordSize)
    requires t.w.firstLSN == 0 || t.w.firstLSN == t.w.bases[0]
    requires Allows(b, h, b.durable, b.crash, t.w.bases[0])
    ensures var r := Publish(if cfg.policy == SyncInterval then t else SyncActive(t));
      && Path(s, r, b)
      && Running(r, h, if b.crash && cfg.policy != SyncInterval then |h| else b.durable, b.crash, cfg.maxRecordSize)
      && (cfg.policy != SyncInterval ==> SyncedOn(r.dir.files, [LastBase(r.w.bases)]))
      && r.w.bases == t.w.bases
  {
    hide Evolves, Passing, Laid, Durable, Safe, Bygone, SyncedOn, Storable, Do;
    LiveLaid(t, h, b);
    var t1 := if cfg.policy == SyncInterval then t else SyncActive(t);
    if cfg.policy != SyncInterval {
      FsyncPath(t, t.w.bases, h, b);
      PathChain(s, t, t1, b);
    }
    PathWriter(s, t1, b, Publish(t1).w);
  }
}
