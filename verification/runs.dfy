/** Whole runs: operations, crashes at any of their steps, and reopenings that may crash as well. */
module Runs {
  import opened Bytes
  import opened Seqs
  import opened Records
  import opened History
  import opened Directory
  import opened State
  import opened Recovery
  import opened RecoveryIdempotence
  import opened Layout
  import opened LayoutRecovery
  import opened Resting
  import opened Crash
  import opened Steps
  import opened WriterOps
  import opened Operations
  import opened Retention
  import opened Cutting
  import opened Exactness
  import opened AtomicCut
  import opened CutSafety

  datatype Op = DoCommit(batch: seq<Request>) | DoTruncate(upTo: nat) | DoCut(upTo: nat) | DoSync

  /** An open log between two operations, or what a crash left on disk. */
  datatype Machine = Up(st: St) | Down(dir: Dir)

  /** `acked` are the records callers hold an acknowledgement for; `written` every record a commit
      set out to write; records up to LSN `assured` are promised to be durable; `bound` is the
      highest LSN a truncation or cut was asked for. */
  datatype System = System(m: Machine, acked: seq<Record>, written: set<Record>, assured: nat, bound: nat)

  /** With `Kills` a process may die without the machine: unsynced bytes then live on, still
      unsynced. With `PowerOnly` a crash leaves only what is on stable storage. */
  datatype Regime = Kills | PowerOnly

  function Perform(s: St, op: Op, cfg: Config): St
    requires s.w.bases != []
  {
    match op
    case DoCommit(batch) => Commit(s, batch, cfg).st
    case DoTruncate(upTo) => Truncate(s, upTo)
    case DoCut(upTo) => Cut(s, upTo, cfg).st
    case DoSync => SyncActive(s)
  }

  function Paired(lsns: seq<nat>, ps: seq<Payload>): seq<Record> {
    if lsns == [] || ps == [] then [] else [Record(lsns[0], ps[0])] + Paired(lsns[1..], ps[1..])
  }

  /** What the callers of a commit are told about their payloads. */
  function Told(batch: seq<Request>, results: seq<Result>): seq<Record> {
    if batch == [] || results == [] then []
    else
      (if results[0].Assigned? then Paired(results[0].lsns, batch[0].payloads) else [])
      + Told(batch[1..], results[1..])
  }

  function Acknowledged(s: St, op: Op, cfg: Config): seq<Record>
    requires s.w.bases != []
  {
    if op.DoCommit? then Told(op.batch, Commit(s, op.batch, cfg).results) else []
  }

  function Payloads(op: Op): seq<Payload> {
    if op.DoCommit? then Accepted(op.batch) else []
  }

  /** The records an operation sets out to write. */
  function Attempted(s: St, op: Op): seq<Record> {
    Stamped(s.w.nextLSN, Payloads(op))
  }

  function NewAssured(s: St, op: Op, assured: nat, cfg: Config): nat {
    match op
    case DoCommit(batch) =>
      if AnyLive(batch) && cfg.policy != SyncInterval then s.w.lastLSN + |Accepted(batch)| else assured
    case DoSync => s.w.lastLSN
    case _ => assured
  }

  function NewBound(s: St, op: Op, bound: nat): nat {
    if op.DoTruncate? || op.DoCut? then Max(bound, Min(op.upTo, s.w.nextLSN)) else bound
  }

  /** What the API lets through: payloads within the record limit, LSNs within 64 bits. */
  predicate Fitting(s: St, op: Op, cfg: Config) {
    op.DoCommit? ==>
      && (forall i | 0 <= i < |Payloads(op)| :: Admitted(Payloads(op)[i], cfg))
      && s.w.nextLSN + |Payloads(op)| < Pow256(8)
  }

  /** Under `Kills`, cuts are made only where they survive a crash. */
  predicate Allowed(s: St, op: Op, cfg: Config, regime: Regime)
    requires s.w.bases != []
  {
    Fitting(s, op, cfg) && (op.DoCut? && regime == Kills ==> CutSafe(s.dir, s.w, op.upTo))
  }

  ghost predicate Crashes(d: Dir, c: Dir, regime: Regime) {
    CrashImage(d, c) && (regime == PowerOnly ==> AllSynced(c.files))
  }

  /** A crash may take acknowledged records that are not promised to be durable. */
  function Retained(acked: seq<Record>, assured: nat): seq<Record> {
    if acked == [] then []
    else (if acked[0].lsn <= assured then [acked[0]] else []) + Retained(acked[1..], assured)
  }

  function Range(rs: seq<Record>): set<Record> {
    set r | r in rs
  }

  /** A new process holds no file open. */
  function Fresh(s: St): St {
    var d := s.dir.(unlinked := map[]);
    St(d, s.w, [d])
  }

  /** The next operation starts a trace of its own. */
  function Settled(s: St): St {
    s.(trace := [s.dir])
  }

  ghost predicate Completes(y: System, z: System, op: Op, cfg: Config, regime: Regime) {
    && y.m.Up? && y.m.st.w.bases != [] && Allowed(y.m.st, op, cfg, regime)
    && z == System(Up(Settled(Perform(y.m.st, op, cfg))), y.acked + Acknowledged(y.m.st, op, cfg),
                   y.written + Range(Attempted(y.m.st, op)),
                   NewAssured(y.m.st, op, y.assured, cfg), NewBound(y.m.st, op, y.bound))
  }

  ghost predicate Interrupted(y: System, z: System, op: Op, j: nat, c: Dir, cfg: Config, regime: Regime) {
    && y.m.Up? && y.m.st.w.bases != [] && Allowed(y.m.st, op, cfg, regime)
    && var trace := Perform(y.m.st, op, cfg).trace;
    && |y.m.st.trace| - 1 <= j < |trace| && Crashes(trace[j], c, regime)
    && z == System(Down(c), Retained(y.acked, y.assured), y.written + Range(Attempted(y.m.st, op)),
                   y.assured, NewBound(y.m.st, op, y.bound))
  }

  ghost predicate Reopens(y: System, z: System, cfg: Config) {
    && y.m.Down?
    && var o := Recover(y.m.dir, SegmentScanner(cfg.maxRecordSize));
    && z == y.(m := if o.ok then Up(Fresh(o.st)) else y.m)
  }

  ghost predicate CrashesReopening(y: System, z: System, j: nat, c: Dir, cfg: Config, regime: Regime) {
    && y.m.Down?
    && var trace := Recover(y.m.dir, SegmentScanner(cfg.maxRecordSize)).st.trace;
    && j < |trace| && Crashes(trace[j], c, regime)
    && z == y.(m := Down(c))
  }

  ghost predicate Moves(y: System, z: System, cfg: Config, regime: Regime) {
    || (exists op :: Completes(y, z, op, cfg, regime))
    || (exists op, j, c :: Interrupted(y, z, op, j, c, cfg, regime))
    || Reopens(y, z, cfg)
    || (exists j, c :: CrashesReopening(y, z, j, c, cfg, regime))
  }

  predicate Initial(y: System) {
    y == System(Down(Dir(map[], map[], map[])), [], {}, 0, 0)
  }

  ghost predicate MovesAt(ys: seq<System>, i: nat, cfg: Config, regime: Regime) {
    i < |ys| - 1 && Moves(ys[i], ys[i + 1], cfg, regime)
  }

  /** A run of the log: any operations, any crashes, any number of reopenings. */
  ghost predicate Run(ys: seq<System>, cfg: Config, regime: Regime) {
    && ys != [] && Initial(ys[0])
    && cfg.maxRecordSize <= MAX_PAYLOAD + HEADER_SIZE
    && forall i: nat | i < |ys| - 1 :: MovesAt(ys, i, cfg, regime)
  }

  // The invariant of a run: the books of what callers were told agree with one history, and what is
  // on disk lays that history out.

  predicate Ascends(acked: seq<Record>) {
    forall i, j | 0 <= i < j < |acked| :: acked[i].lsn < acked[j].lsn
  }

  predicate InHistory(r: Record, h: seq<Payload>) {
    1 <= r.lsn <= |h| && h[r.lsn - 1] == r.payload
  }

  predicate AllIn(acked: seq<Record>, h: seq<Payload>) {
    forall i | 0 <= i < |acked| :: InHistory(acked[i], h)
  }

  predicate AllAssured(acked: seq<Record>, assured: nat) {
    forall i | 0 <= i < |acked| :: acked[i].lsn <= assured
  }

  predicate Attested(h: seq<Payload>, written: set<Record>) {
    forall i | 0 <= i < |h| :: Record(i + 1, h[i]) in written
  }

  predicate Books(y: System, h: seq<Payload>, cfg: Config) {
    && y.assured <= |h|
    && Ascends(y.acked) && AllIn(y.acked, h) && Attested(h, y.written)
    && (cfg.policy != SyncInterval || y.m.Down? ==> AllAssured(y.acked, y.assured))
  }

  /** The log starts at 1 or where a truncation or cut was asked to start it. */
  function Floor(bound: nat): nat {
    Max(1, bound)
  }

  ghost predicate RecoverableAs(f: Files, t: Shape, h: seq<Payload>, assured: nat, bound: nat, maxRec: nat) {
    && Laid(f, t, h) && Readable(t, h, maxRec) && Durable(f, t) && Safe(f, t, h, assured)
    && t.bs[0] <= Floor(bound)
  }

  ghost predicate Recoverable(f: Files, h: seq<Payload>, assured: nat, bound: nat, maxRec: nat) {
    || (f == map[] && h == [] && assured == 0)
    || exists t :: RecoverableAs(f, t, h, assured, bound, maxRec)
  }

  ghost predicate Open(s: St, h: seq<Payload>, assured: nat, bound: nat, maxRec: nat) {
    Running(s, h, assured, true, maxRec) && s.w.bases[0] <= Floor(bound)
  }

  ghost predicate Stored(y: System, h: seq<Payload>, maxRec: nat) {
    match y.m
    case Up(s) => Open(s, h, y.assured, y.bound, maxRec)
    case Down(d) => Recoverable(d.files, h, y.assured, y.bound, maxRec)
  }

  ghost predicate Good(y: System, h: seq<Payload>, cfg: Config) {
    Books(y, h, cfg) && Stored(y, h, cfg.maxRecordSize)
  }

  // What an operation does.

  lemma {:induction false} PairedIs(first: nat, ps: seq<Payload>)
    ensures Paired(Consecutive(first, |ps|), ps) == Stamped(first, ps)
    decreases |ps|
  {
    if ps != [] {
      PairedIs(first + 1, ps[1..]);
      assert Consecutive(first, |ps|)[1..] == Consecutive(first + 1, |ps| - 1);
      assert Stamped(first, ps) == [Record(first, ps[0])] + Stamped(first + 1, ps[1..]);
    }
  }

  lemma StampedConcat(first: nat, ps: seq<Payload>, qs: seq<Payload>)
    ensures Stamped(first, ps + qs) == Stamped(first, ps) + Stamped(first + |ps|, qs)
  {
  }

  /** Callers are told exactly the LSNs their payloads were written under. */
  lemma {:induction false} ToldIs(s: St, batch: seq<Request>, cfg: Config)
    requires s.w.bases != []
    ensures Told(batch, WriteBatch(s, batch, cfg).results) == Stamped(s.w.nextLSN, Accepted(batch))
    decreases |batch|
  {
    hide WriteRequest;
    if batch != [] {
      var ps := if batch[0].cancelled then [] else batch[0].payloads;
      var t := if batch[0].cancelled then s else WriteRequest(s, batch[0].payloads, cfg);
      ToldIs(t, batch[1..], cfg);
      RequestCounts(s, batch[0].payloads, cfg);
      PairedIs(s.w.nextLSN, batch[0].payloads);
      StampedConcat(s.w.nextLSN, ps, Accepted(batch[1..]));
      var results := WriteBatch(s, batch, cfg).results;
      assert results[1..] == WriteBatch(t, batch[1..], cfg).results;
    }
  }

  lemma AcknowledgedIs(s: St, op: Op, cfg: Config)
    requires s.w.bases != []
    ensures Acknowledged(s, op, cfg) == Attempted(s, op)
  {
    if op.DoCommit? {
      ToldIs(s, op.batch, cfg);
      hide WriteBatch, Told, Accepted;
    }
  }

  lemma FittingStorable(s: St, h: seq<Payload>, op: Op, cfg: Config)
    requires s.w.nextLSN == History.Next(h) && Storable(h, cfg.maxRecordSize) && Fitting(s, op, cfg)
    requires cfg.maxRecordSize <= MAX_PAYLOAD + HEADER_SIZE
    ensures Storable(h + Payloads(op), cfg.maxRecordSize)
  {
    var ps := Payloads(op);
    assert !op.DoCommit? ==> ps == [];
    hide Payloads, Accepted;
    forall i | 0 <= i < |h + ps|
      ensures |(h + ps)[i]| <= MAX_PAYLOAD && |(h + ps)[i]| <= cfg.maxRecordSize
    {
      if i >= |h| {
        assert (h + ps)[i] == ps[i - |h|];
        assert Admitted(ps[i - |h|], cfg);
      }
    }
  }

  function OpBounds(h: seq<Payload>, s: St, op: Op, assured: nat, bound: nat): Bounds {
    Bounds(h + Payloads(op), |h|, assured, Floor(NewBound(s, op, bound)), true)
  }

  ghost predicate OpDone(s: St, r: St, h: seq<Payload>, op: Op, assured: nat, bound: nat, cfg: Config) {
    && Path(s, r, OpBounds(h, s, op, assured, bound))
    && r.w.bases != []
    && Running(r, h + Payloads(op), NewAssured(s, op, assured, cfg), true, cfg.maxRecordSize)
  }

  lemma CommitOpPath(s: St, h: seq<Payload>, op: Op, assured: nat, bound: nat, cfg: Config)
    requires Open(s, h, assured, bound, cfg.maxRecordSize) && s.w.bases != [] && s.w.nextLSN == History.Next(h)
    requires op.DoCommit? && Storable(h + Payloads(op), cfg.maxRecordSize)
    ensures OpDone(s, Perform(s, op, cfg), h, op, assured, bound, cfg)
  {
    hide Running, Path, Commit;
    RunningLast(s, h, assured, true, cfg.maxRecordSize);
    hide Storable, Answers, AnyLive, Accepted, SyncedOn;
    var b := OpBounds(h, s, op, assured, bound);
    assert Allows(b, h, b.durable, b.crash, s.w.bases[0]) && h + Accepted(op.batch) <= b.h;
    CommitPath(s, h, op.batch, b, cfg);
    var r := Commit(s, op.batch, cfg).st;
    assert Perform(s, op, cfg) == r && Payloads(op) == Accepted(op.batch);
    assert NewAssured(s, op, assured, cfg) == DurableAfter(h, op.batch, assured, cfg);
    hide Perform, Payloads, NewAssured, DurableAfter;
    RunningStorable(r, h + Accepted(op.batch), NewAssured(s, op, assured, cfg), true, cfg.maxRecordSize);
  }

  lemma NoPayloads(h: seq<Payload>, op: Op)
    requires !op.DoCommit?
    ensures h + Payloads(op) == h
  {
  }

  lemma TruncateOpPath(s: St, h: seq<Payload>, op: Op, assured: nat, bound: nat, cfg: Config)
    requires Open(s, h, assured, bound, cfg.maxRecordSize) && s.w.bases != [] && s.w.nextLSN == History.Next(h)
    requires op.DoTruncate?
    ensures OpDone(s, Perform(s, op, cfg), h, op, assured, bound, cfg)
  {
    hide Running, Path, Truncate, Payloads;
    NoPayloads(h, op);
    TruncatePath(s, h, op.upTo, OpBounds(h, s, op, assured, bound), cfg.maxRecordSize);
    RunningStorable(Truncate(s, op.upTo), h, assured, true, cfg.maxRecordSize);
  }

  lemma CutOpPath(s: St, h: seq<Payload>, op: Op, assured: nat, bound: nat, cfg: Config)
    requires Open(s, h, assured, bound, cfg.maxRecordSize) && s.w.bases != [] && s.w.nextLSN == History.Next(h)
    requires op.DoCut? && CutSafe(s.dir, s.w, op.upTo)
    ensures OpDone(s, Perform(s, op, cfg), h, op, assured, bound, cfg)
  {
    hide Running, Path, Cut, CutSafe, Payloads, FirstAfterCut;
    NoPayloads(h, op);
    CutPath(s, h, op.upTo, OpBounds(h, s, op, assured, bound), cfg);
    RunningStorable(Cut(s, op.upTo, cfg).st, h, assured, true, cfg.maxRecordSize);
  }

  lemma SyncOpPath(s: St, h: seq<Payload>, op: Op, assured: nat, bound: nat, cfg: Config)
    requires Open(s, h, assured, bound, cfg.maxRecordSize) && s.w.bases != [] && s.w.nextLSN == History.Next(h)
    requires op.DoSync?
    ensures OpDone(s, Perform(s, op, cfg), h, op, assured, bound, cfg)
  {
    hide Running, Path, Payloads, SyncActive;
    NoPayloads(h, op);
    RunningLast(s, h, assured, true, cfg.maxRecordSize);
    SyncPath(s, h, OpBounds(h, s, op, assured, bound), cfg.maxRecordSize);
  }

  /** Every operation is a path over durable directories and ends in an open log. */
  lemma OpPath(s: St, h: seq<Payload>, op: Op, assured: nat, bound: nat, cfg: Config)
    requires Open(s, h, assured, bound, cfg.maxRecordSize) && s.w.bases != [] && s.w.nextLSN == History.Next(h)
    requires op.DoCut? ==> CutSafe(s.dir, s.w, op.upTo)
    requires Storable(h + Payloads(op), cfg.maxRecordSize)
    ensures OpDone(s, Perform(s, op, cfg), h, op, assured, bound, cfg)
  {
    hide Open, OpDone, Perform, CutSafe, Storable, Payloads;
    match op
    case DoCommit(_) => CommitOpPath(s, h, op, assured, bound, cfg);
    case DoTruncate(_) => TruncateOpPath(s, h, op, assured, bound, cfg);
    case DoCut(_) => CutOpPath(s, h, op, assured, bound, cfg);
    case DoSync => SyncOpPath(s, h, op, assured, bound, cfg);
  }

  lemma SyncPath(s: St, h: seq<Payload>, b: Bounds, maxRec: nat)
    requires Running(s, h, b.durable, true, maxRec) && s.w.bases != [] && b.crash
    requires Allows(b, h, b.durable, b.crash, s.w.bases[0])
    ensures var r := SyncActive(s);
      Path(s, r, b) && Running(r, h, |h|, true, maxRec) && r.w == s.w
  {
    hide Live, Evolves, Passing, Laid, Apply, Storable;
    var bs := s.w.bases;
    FsyncPath(s, bs, h, b);
    var r := Do(s, Fsync(LastBase(bs)));
    hide Do, Path;
    PathTraced(s, r, b);
    RunningBy(r, s.w, h, |h|, true, maxRec);
  }

  /** Where an operation may leave the start of the log. */
  lemma OpFloor(s: St, h: seq<Payload>, op: Op, assured: nat, bound: nat, cfg: Config)
    requires Open(s, h, assured, bound, cfg.maxRecordSize) && s.w.bases != [] && s.w.nextLSN == History.Next(h)
    requires op.DoCut? ==> CutSafe(s.dir, s.w, op.upTo)
    requires Storable(h + Payloads(op), cfg.maxRecordSize)
    ensures var r := Perform(s, op, cfg);
      r.w.bases != [] && r.w.bases[0] <= Floor(NewBound(s, op, bound))
  {
    hide Running, Commit, Truncate, Cut, CutSafe, Storable, SyncActive;
    OpenFacts(s, h, assured, bound, cfg.maxRecordSize);
    match op
    case DoCommit(batch) => CommitBase(s, batch, cfg);
    case DoTruncate(upTo) => TruncateBase(s, h, assured, upTo, cfg.maxRecordSize);
    case DoCut(upTo) => CutBase(s, h, assured, upTo, cfg);
    case DoSync => SyncBase(s);
  }

  lemma SyncBase(s: St)
    requires s.w.bases != []
    ensures SyncActive(s).w == s.w
  {
    hide Apply;
  }

  lemma CommitBase(s: St, batch: seq<Request>, cfg: Config)
    requires s.w.bases != []
    ensures Commit(s, batch, cfg).st.w.bases != [] && Commit(s, batch, cfg).st.w.bases[0] == s.w.bases[0]
  {
    BatchWriter(s, batch, cfg);
    hide WriteBatch;
  }

  lemma TruncateBase(s: St, h: seq<Payload>, assured: nat, upTo: nat, maxRec: nat)
    requires Running(s, h, assured, true, maxRec) && s.w.bases != []
    ensures var r := Truncate(s, upTo);
      r.w.bases != [] && r.w.bases[0] <= Max(s.w.bases[0], Min(upTo, History.Next(h)))
  {
    hide Running, Truncate, LogOf, Above;
    TruncateExact(s, h, assured, true, upTo, maxRec);
    var r := Truncate(s, upTo);
    RunningFirst(r, h, assured, false, maxRec);
  }

  lemma CutBase(s: St, h: seq<Payload>, assured: nat, upTo: nat, cfg: Config)
    requires Running(s, h, assured, true, cfg.maxRecordSize) && s.w.bases != []
    ensures var r := Cut(s, upTo, cfg).st;
      r.w.bases != [] && r.w.bases[0] <= Max(s.w.bases[0], Min(upTo, s.w.nextLSN))
  {
    hide Running, Cut, LogOf, Above;
    CutExact(s, h, assured, true, upTo, cfg);
    BoundsOf(s, h, assured, true, cfg.maxRecordSize);
    BoundsOf(Cut(s, upTo, cfg).st, h, assured, false, cfg.maxRecordSize);
  }

  lemma OpCompletes(s: St, h: seq<Payload>, op: Op, assured: nat, bound: nat, cfg: Config)
    requires Open(s, h, assured, bound, cfg.maxRecordSize) && s.w.bases != [] && s.w.nextLSN == History.Next(h)
    requires op.DoCut? ==> CutSafe(s.dir, s.w, op.upTo)
    requires Storable(h + Payloads(op), cfg.maxRecordSize)
    ensures Open(Settled(Perform(s, op, cfg)), h + Payloads(op), NewAssured(s, op, assured, cfg),
                 NewBound(s, op, bound), cfg.maxRecordSize)
  {
    hide Open, Perform, Path, Running, CutSafe, Storable, Payloads, NewAssured, NewBound, Settled;
    OpPath(s, h, op, assured, bound, cfg);
    OpFloor(s, h, op, assured, bound, cfg);
    SettledOpen(Perform(s, op, cfg), h + Payloads(op), NewAssured(s, op, assured, cfg), NewBound(s, op, bound),
                cfg.maxRecordSize);
  }

  lemma SettledOpen(r: St, h: seq<Payload>, assured: nat, bound: nat, maxRec: nat)
    requires Running(r, h, assured, true, maxRec) && r.w.bases != [] && r.w.bases[0] <= Floor(bound)
    ensures Open(Settled(r), h, assured, bound, maxRec)
  {
    hide Live, AtRest;
  }

  lemma PassingCrashes(d: Dir, b: Bounds, c: Dir, bound: nat, maxRec: nat) returns (n: nat)
    requires Passing(d, b) && b.crash && Storable(b.h, maxRec) && CrashImage(d, c) && b.floor == Floor(bound)
    ensures b.durable <= n <= |b.h| && Recoverable(c.files, b.h[..n], b.durable, bound, maxRec)
  {
    hide Laid, Durable, Safe, Storable, TornTail, SyncedOn;
    var m: nat, t: Shape :| PassingAt(d, b, m, t);
    NoTail(maxRec);
    StorablePrefix(b.h, m, maxRec);
    var u;
    n, u := CrashLaid(d.files, c.files, t, b.h[..m], b.durable, maxRec);
    PrefixOfPrefix(b.h, n, m);
    assert RecoverableAs(c.files, u, b.h[..n], b.durable, bound, maxRec);
  }

  lemma OpInterrupted(s: St, h: seq<Payload>, op: Op, assured: nat, bound: nat, cfg: Config, j: nat, c: Dir)
      returns (n: nat)
    requires Open(s, h, assured, bound, cfg.maxRecordSize) && s.w.bases != [] && s.w.nextLSN == History.Next(h)
    requires op.DoCut? ==> CutSafe(s.dir, s.w, op.upTo)
    requires Storable(h + Payloads(op), cfg.maxRecordSize)
    requires |s.trace| - 1 <= j < |Perform(s, op, cfg).trace| && CrashImage(Perform(s, op, cfg).trace[j], c)
    ensures assured <= n <= |h + Payloads(op)|
    ensures Recoverable(c.files, (h + Payloads(op))[..n], assured, NewBound(s, op, bound), cfg.maxRecordSize)
  {
    hide Perform, CutSafe, Storable, NewAssured, CrashImage, Payloads, Open, Running, Path, Passing, Recoverable;
    OpPath(s, h, op, assured, bound, cfg);
    OpPasses(s, h, op, assured, bound, cfg.maxRecordSize);
    var b := OpBounds(h, s, op, assured, bound);
    PathImage(s, Perform(s, op, cfg), b, j);
    n := PassingCrashes(Perform(s, op, cfg).trace[j], b, c, NewBound(s, op, bound), cfg.maxRecordSize);
  }

  lemma OpPasses(s: St, h: seq<Payload>, op: Op, assured: nat, bound: nat, maxRec: nat)
    requires Open(s, h, assured, bound, maxRec) && s.w.bases != []
    ensures Passing(s.dir, OpBounds(h, s, op, assured, bound))
  {
    hide Running, Payloads;
    RunningPasses(s, h, OpBounds(h, s, op, assured, bound), maxRec);
  }

  // Opening what a crash left.

  lemma FirstSegmentLaid(f: Files)
    requires f == map[1 := EMPTY_FILE]
    ensures Laid(f, Plain([1]), []) && Durable(f, Plain([1])) && Safe(f, Plain([1]), [], 0)
  {
    EmptySpan([], 1);
    EmptyUnit(Span([], 1, 1));
    PlainParts(f, [1], [], []);
    assert Front([1]) == [];
  }

  lemma FreshOpen(o: St, h: seq<Payload>, assured: nat, bound: nat, maxRec: nat)
    requires AtRest(o.dir, o.w, h, maxRec)
    requires Durable(o.dir.files, Plain(o.w.bases)) && Safe(o.dir.files, Plain(o.w.bases), h, assured)
    requires o.w.bases[0] <= Floor(bound)
    ensures Open(Fresh(o), h, assured, bound, maxRec)
  {
    hide Laid, Durable, Safe, Storable;
  }

  lemma EmptyReopens(d: Dir, bound: nat, maxRec: nat)
    requires d.files == map[]
    ensures var o := Recover(d, SegmentScanner(maxRec));
      && o.ok && Open(Fresh(o.st), [], 0, bound, maxRec)
      && forall im | im in o.st.trace :: im.files == map[] || im.files == map[1 := EMPTY_FILE]
  {
    var scan := SegmentScanner(maxRec);
    var s, names := RecoverWhole(d, scan);
    NoFilesNoNames(names);
    EmptyDirectoryImages(d, s, scan);
    FirstSegmentLaid(map[1 := EMPTY_FILE]);
    PowerEight();
    hide Laid, Durable, Safe, Recover, ScanSegment;
    FreshOpen(Recover(d, scan).st, [], 0, bound, maxRec);
  }

  lemma PowerEight()
    ensures Pow256(8) > 1
  {
  }

  /** Whatever a crash left opens again. */
  lemma RecoverableReopens(d: Dir, h: seq<Payload>, assured: nat, bound: nat, maxRec: nat)
    requires Recoverable(d.files, h, assured, bound, maxRec)
    ensures var o := Recover(d, SegmentScanner(maxRec));
      o.ok && Open(Fresh(o.st), h, assured, bound, maxRec)
  {
    if d.files == map[] && h == [] && assured == 0 {
      EmptyReopens(d, bound, maxRec);
    } else {
      var t :| RecoverableAs(d.files, t, h, assured, bound, maxRec);
      RecoverLaid(d, t, h, maxRec);
      hide Laid, Durable, Safe, Recover, ScanSegment, Storable, TornTail, AtRest, Descends;
      FreshOpen(Recover(d, SegmentScanner(maxRec)).st, h, assured, bound, maxRec);
    }
  }

  lemma LaidCrashes(f: Files, t: Shape, h: seq<Payload>, assured: nat, bound: nat, c: Dir, maxRec: nat) returns (n: nat)
    requires RecoverableAs(f, t, h, assured, bound, maxRec) && CrashedFiles(f, c.files)
    ensures assured <= n <= |h| && Recoverable(c.files, h[..n], assured, bound, maxRec)
  {
    hide Laid, Durable, Safe, Storable, TornTail;
    var u;
    n, u := CrashLaid(f, c.files, t, h, assured, maxRec);
    assert RecoverableAs(c.files, u, h[..n], assured, bound, maxRec);
  }

  lemma DescendsRecoverable(f: Files, t: Shape, g: Files, h: seq<Payload>, assured: nat, bound: nat, maxRec: nat)
      returns (u: Shape)
    requires RecoverableAs(f, t, h, assured, bound, maxRec) && Descends(f, t, h, maxRec, g)
    ensures RecoverableAs(g, u, h, assured, bound, maxRec)
  {
    hide Laid, Durable, Safe, Readable;
    u :| Laid(g, u, h) && Readable(u, h, maxRec) && NoLess(f, t, g, u, h);
  }

  lemma NoFilesCrash(im: Dir, c: Dir)
    requires CrashImage(im, c) && (im.files == map[] || im.files == map[1 := EMPTY_FILE])
    ensures c.files == im.files
  {
    SyncedImageIsIdentical(im, c);
  }

  /** ... and so does what a crash leaves of that. */
  lemma ReopeningCrashes(d: Dir, h: seq<Payload>, assured: nat, bound: nat, j: nat, c: Dir, maxRec: nat)
      returns (n: nat)
    requires Recoverable(d.files, h, assured, bound, maxRec)
    requires var trace := Recover(d, SegmentScanner(maxRec)).st.trace; j < |trace| && CrashImage(trace[j], c)
    ensures assured <= n <= |h| && Recoverable(c.files, h[..n], assured, bound, maxRec)
  {
    hide Recover, SegmentScanner, Laid, Storable, TornTail, Descends, CrashedFile;
    var im := Recover(d, SegmentScanner(maxRec)).st.trace[j];
    if d.files == map[] && h == [] && assured == 0 {
      n := 0;
      EmptyReopens(d, bound, maxRec);
      NoFilesCrash(im, c);
      if c.files != map[] {
        FirstSegmentLaid(c.files);
        FirstRecoverable(c.files, bound, maxRec);
      }
    } else {
      var t :| RecoverableAs(d.files, t, h, assured, bound, maxRec);
      RecoverLaid(d, t, h, maxRec);
      hide Durable, Safe, ScanSegment, AtRest, RecoverableAs;
      var u := DescendsRecoverable(d.files, t, im.files, h, assured, bound, maxRec);
      n := LaidCrashes(im.files, u, h, assured, bound, c, maxRec);
    }
  }

  lemma FirstRecoverable(f: Files, bound: nat, maxRec: nat)
    requires f == map[1 := EMPTY_FILE]
    ensures Recoverable(f, [], 0, bound, maxRec)
  {
    FirstSegmentLaid(f);
    NoTail(maxRec);
    PowerEight();
    hide Laid, Durable, Safe, TornTail;
    assert RecoverableAs(f, Plain([1]), [], 0, bound, maxRec);
  }

  // The books.

  lemma AscendsMore(acked: seq<Record>, h: seq<Payload>, ps: seq<Payload>)
    requires Ascends(acked) && AllIn(acked, h)
    ensures Ascends(acked + Stamped(History.Next(h), ps)) && AllIn(acked + Stamped(History.Next(h), ps), h + ps)
  {
    var rs := Stamped(History.Next(h), ps);
    forall i | 0 <= i < |acked + rs|
      ensures InHistory((acked + rs)[i], h + ps)
    {
      if i < |acked| {
        assert InHistory(acked[i], h);
      }
    }
    forall i, j | 0 <= i < j < |acked + rs|
      ensures (acked + rs)[i].lsn < (acked + rs)[j].lsn
    {
      if i < |acked| {
        assert InHistory(acked[i], h);
      }
    }
  }

  lemma AttestedMore(h: seq<Payload>, ps: seq<Payload>, written: set<Record>)
    requires Attested(h, written)
    ensures Attested(h + ps, written + Range(Stamped(History.Next(h), ps)))
  {
    var rs := Stamped(History.Next(h), ps);
    forall i | 0 <= i < |h + ps|
      ensures Record(i + 1, (h + ps)[i]) in written + Range(rs)
    {
      if i >= |h| {
        assert rs[i - |h|] in rs;
      }
    }
  }

  lemma AllAssuredMore(acked: seq<Record>, h: seq<Payload>)
    requires AllIn(acked, h)
    ensures AllAssured(acked, |h|)
  {
    forall i | 0 <= i < |acked|
      ensures acked[i].lsn <= |h|
    {
      assert InHistory(acked[i], h);
    }
  }

  /** Forgetting what was not promised. */
  lemma {:induction false} RetainedMembers(acked: seq<Record>, assured: nat)
    ensures forall r :: r in Retained(acked, assured) <==> r in acked && r.lsn <= assured
    decreases |acked|
  {
    if acked != [] {
      RetainedMembers(acked[1..], assured);
      HeadTail(acked);
    }
  }

  lemma {:induction false} RetainedAscends(acked: seq<Record>, assured: nat)
    requires Ascends(acked)
    ensures Ascends(Retained(acked, assured))
    decreases |acked|
  {
    if acked != [] {
      RetainedAscends(acked[1..], assured);
      RetainedMembers(acked[1..], assured);
      var rest := Retained(acked[1..], assured);
      hide Retained;
      forall j | 0 <= j < |rest|
        ensures acked[0].lsn < rest[j].lsn
      {
        assert rest[j] in rest;
        var k :| 0 <= k < |acked[1..]| && acked[1..][k] == rest[j];
      }
    }
  }

  lemma {:induction false} RetainedAll(acked: seq<Record>, assured: nat)
    requires AllAssured(acked, assured)
    ensures Retained(acked, assured) == acked
    decreases |acked|
  {
    if acked != [] {
      RetainedAll(acked[1..], assured);
    }
  }

  lemma RetainedBooks(acked: seq<Record>, assured: nat, h: seq<Payload>, k: seq<Payload>)
    requires Ascends(acked) && AllIn(acked, h) && assured <= |k|
    requires forall i | 0 <= i < |k| && i < |h| :: k[i] == h[i]
    ensures var rest := Retained(acked, assured);
      Ascends(rest) && AllIn(rest, k) && AllAssured(rest, assured)
  {
    RetainedMembers(acked, assured);
    RetainedAscends(acked, assured);
    var rest := Retained(acked, assured);
    forall i | 0 <= i < |rest|
      ensures InHistory(rest[i], k) && rest[i].lsn <= assured
    {
      assert rest[i] in rest;
      var m :| 0 <= m < |acked| && acked[m] == rest[i];
      assert InHistory(acked[m], h);
    }
  }

  lemma AttestedPrefix(h: seq<Payload>, n: nat, written: set<Record>)
    requires Attested(h, written) && n <= |h|
    ensures Attested(h[..n], written)
  {
  }

  lemma OpenFacts(s: St, h: seq<Payload>, assured: nat, bound: nat, maxRec: nat)
    requires Open(s, h, assured, bound, maxRec)
    ensures s.w.bases != [] && s.w.nextLSN == History.Next(h) && s.w.lastLSN == |h| && Storable(h, maxRec)
  {
    RunningStorable(s, h, assured, true, maxRec);
    RunningLast(s, h, assured, true, maxRec);
    hide Running, Storable;
  }

  lemma CompletesGood(y: System, z: System, h: seq<Payload>, op: Op, cfg: Config)
    requires Good(y, h, cfg) && Completes(y, z, op, cfg, Kills) && cfg.maxRecordSize <= MAX_PAYLOAD + HEADER_SIZE
    ensures Good(z, h + Payloads(op), cfg)
  {
    var s := y.m.st;
    hide Open, Books, Perform, CutSafe, Storable, Settled, Fitting;
    OpenFacts(s, h, y.assured, y.bound, cfg.maxRecordSize);
    FittingStorable(s, h, op, cfg);
    OpCompletes(s, h, op, y.assured, y.bound, cfg);
    AcknowledgedIs(s, op, cfg);
    hide Acknowledged, NewBound, NewAssured;
    CompletesBooks(y, z, h, op, cfg);
  }

  lemma CompletesBooks(y: System, z: System, h: seq<Payload>, op: Op, cfg: Config)
    requires Books(y, h, cfg) && y.m.Up? && z.m.Up? && y.m.st.w.nextLSN == History.Next(h) && y.m.st.w.lastLSN == |h|
    requires z.acked == y.acked + Attempted(y.m.st, op)
    requires z.written == y.written + Range(Attempted(y.m.st, op))
    requires z.assured == NewAssured(y.m.st, op, y.assured, cfg)
    ensures Books(z, h + Payloads(op), cfg)
  {
    var ps := Payloads(op);
    AscendsMore(y.acked, h, ps);
    AttestedMore(h, ps, y.written);
    AllAssuredMore(z.acked, h + ps);
    hide Ascends, AllIn, Attested, AllAssured, Stamped;
    if op.DoCommit? {
      AnyAccepted(op.batch);
      if Accepted(op.batch) == [] {
        assert Stamped(History.Next(h), []) == [];
      }
      hide AnyLive, Accepted;
    } else {
      assert Stamped(History.Next(h), []) == [];
    }
  }

  lemma InterruptedGood(y: System, z: System, h: seq<Payload>, op: Op, j: nat, c: Dir, cfg: Config)
      returns (k: seq<Payload>)
    requires Good(y, h, cfg) && Interrupted(y, z, op, j, c, cfg, Kills)
      && cfg.maxRecordSize <= MAX_PAYLOAD + HEADER_SIZE
    ensures Good(z, k, cfg) && k <= h + Payloads(op)
  {
    hide Open, Perform, CutSafe, Storable, Fitting, Recoverable, CrashImage, Payloads, NewBound, Range, Stamped,
      Retained, Ascends, AllIn, Attested, AllAssured;
    var s := y.m.st;
    OpenFacts(s, h, y.assured, y.bound, cfg.maxRecordSize);
    FittingStorable(s, h, op, cfg);
    var n := OpInterrupted(s, h, op, y.assured, y.bound, cfg, j, c);
    k := (h + Payloads(op))[..n];
    AttestedMore(h, Payloads(op), y.written);
    AttestedPrefix(h + Payloads(op), n, z.written);
    RetainedBooks(y.acked, y.assured, h, k);
  }

  lemma ReopensGood(y: System, z: System, h: seq<Payload>, cfg: Config)
    requires Good(y, h, cfg) && Reopens(y, z, cfg)
    ensures Good(z, h, cfg) && z.m.Up?
  {
    hide Open, Recoverable, Recover, Ascends, AllIn, Attested, AllAssured;
    RecoverableReopens(y.m.dir, h, y.assured, y.bound, cfg.maxRecordSize);
  }

  lemma CrashesReopeningGood(y: System, z: System, h: seq<Payload>, j: nat, c: Dir, cfg: Config)
      returns (k: seq<Payload>)
    requires Good(y, h, cfg) && CrashesReopening(y, z, j, c, cfg, Kills)
    ensures Good(z, k, cfg) && k <= h
  {
    hide Recoverable, Recover, CrashImage;
    var n := ReopeningCrashes(y.m.dir, h, y.assured, y.bound, j, c, cfg.maxRecordSize);
    k := h[..n];
    AttestedPrefix(h, n, y.written);
    RetainedAll(y.acked, y.assured);
    hide Ascends, Attested;
    RetainedBooks(y.acked, y.assured, h, k);
  }

  /** The invariant survives every move. */
  lemma MovesGood(y: System, z: System, h: seq<Payload>, cfg: Config) returns (k: seq<Payload>)
    requires Good(y, h, cfg) && Moves(y, z, cfg, Kills) && cfg.maxRecordSize <= MAX_PAYLOAD + HEADER_SIZE
    ensures Good(z, k, cfg)
  {
    hide Good, Completes, Interrupted, Reopens, CrashesReopening;
    if op :| Completes(y, z, op, cfg, Kills) {
      k := h + Payloads(op);
      CompletesGood(y, z, h, op, cfg);
    } else if op, j, c :| Interrupted(y, z, op, j, c, cfg, Kills) {
      k := InterruptedGood(y, z, h, op, j, c, cfg);
    } else if Reopens(y, z, cfg) {
      k := h;
      ReopensGood(y, z, h, cfg);
    } else {
      var j, c :| CrashesReopening(y, z, j, c, cfg, Kills);
      k := CrashesReopeningGood(y, z, h, j, c, cfg);
    }
  }

  /** ... so it holds throughout every run. */
  lemma {:induction false} RunGood(ys: seq<System>, cfg: Config, i: nat) returns (h: seq<Payload>)
    requires Run(ys, cfg, Kills) && i < |ys|
    ensures Good(ys[i], h, cfg)
    decreases i
  {
    hide Moves, Good;
    if i == 0 {
      h := [];
      InitialGood(ys[0], cfg);
    } else {
      var g := RunGood(ys, cfg, i - 1);
      assert MovesAt(ys, i - 1, cfg, Kills);
      h := MovesGood(ys[i - 1], ys[i], g, cfg);
    }
  }

  lemma InitialGood(y: System, cfg: Config)
    requires Initial(y)
    ensures Good(y, [], cfg)
  {
  }
}
