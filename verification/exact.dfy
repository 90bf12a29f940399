/** What the log is, read back from the disk alone, and what each operation does to it. */
module Exactness {
  import opened Seqs
  import opened Records
  import opened History
  import opened Directory
  import opened State
  import opened RecoveryTheorems
  import opened RecoveryIdempotence
  import opened Layout
  import opened LayoutRecovery
  import opened Resting
  import opened Steps
  import opened WriterOps
  import opened Operations
  import opened Retention
  import opened Cutting

  /** The records read from the files `bs`, one file after the other. */
  function LogOver(f: Files, bs: seq<nat>, maxRec: nat): seq<Record> {
    if bs == [] then []
    else (if bs[0] in f then ScanAll(f[bs[0]].body, maxRec).recs else []) + LogOver(f, bs[1..], maxRec)
  }

  /** The log on disk: every segment file scanned, in the order of their names. */
  ghost function LogOf(f: Files, maxRec: nat): seq<Record> {
    LogOver(f, SortedKeys(f.Keys), maxRec)
  }

  lemma HeldRecords(f: Files, b: nat, h: seq<Payload>, end: nat, maxRec: nat)
    requires Holds(f, b, h, end) && Storable(h, maxRec)
    ensures ScanAll(f[b].body, maxRec).recs == Recs(h, b, end)
  {
    hide TornTail;
    NoTail(maxRec);
    ScanSpan(h, b, end, [], maxRec);
    EmptyUnit(Span(h, b, end));
  }

  lemma {:induction false} WholeLog(f: Files, bs: seq<nat>, h: seq<Payload>, end: nat, maxRec: nat)
    requires bs != [] && Whole(f, bs, h, end) && Storable(h, maxRec)
    ensures Interval(h, bs[0], end) && LogOver(f, bs, maxRec) == Recs(h, bs[0], end)
    decreases |bs|
  {
    hide Span, Storable, ScanAll;
    assert WholeAt(f, bs, 0, h, end);
    HeldRecords(f, bs[0], h, EndAt(bs, 0, end), maxRec);
    if |bs| == 1 {
      assert LogOver(f, bs[1..], maxRec) == [];
    } else {
      WholeSuffix(f, bs, h, end, 1);
      WholeLog(f, bs[1..], h, end, maxRec);
      SpanSplit(h, bs[0], bs[1], end);
    }
  }

  /** The abstraction: a laid-out log reads back as an interval of its history, up to its end. */
  lemma LogOfLaid(f: Files, bs: seq<nat>, h: seq<Payload>, maxRec: nat)
    requires bs != [] && Laid(f, Plain(bs), h) && Storable(h, maxRec)
    ensures Interval(h, bs[0], Next(h)) && LogOf(f, maxRec) == Recs(h, bs[0], Next(h))
  {
    hide Span, Storable, ScanAll, Tip, Whole;
    LaidListed(f, Plain(bs), h);
    assert [] + bs == bs;
    ListingUnique(SortedKeys(f.Keys), bs, f.Keys);
    PlainParts(f, bs, h, []);
    AllWhole(f, bs, h);
    WholeLog(f, bs, h, Next(h), maxRec);
  }

  /** LSNs run on without a gap. */
  predicate Gapless(rs: seq<Record>) {
    forall i | 0 < i < |rs| :: rs[i].lsn == rs[i - 1].lsn + 1
  }

  /** The representation invariant, seen from outside: bounds and contents agree. */
  lemma RunningLog(s: St, h: seq<Payload>, durable: nat, crash: bool, maxRec: nat)
    requires Running(s, h, durable, crash, maxRec)
    ensures s.w.bases != [] && Interval(h, s.w.bases[0], Next(h))
    ensures var log := LogOf(s.dir.files, maxRec);
      && log == Recs(h, s.w.bases[0], Next(h)) && Gapless(log)
      && (log != [] ==> s.w.firstLSN == log[0].lsn && s.w.lastLSN == log[|log| - 1].lsn)
      && s.w.nextLSN == s.w.lastLSN + 1
  {
    hide Live, Laid, LogOf, Storable;
    LogOfLaid(s.dir.files, s.w.bases, h, maxRec);
    GaplessRecs(h, s.w.bases[0]);
  }

  lemma GaplessRecs(h: seq<Payload>, a: nat)
    requires Interval(h, a, Next(h))
    ensures var log := Recs(h, a, Next(h));
      Gapless(log) && (log != [] ==> log[0].lsn == a && log[|log| - 1].lsn == |h|)
  {
  }

  lemma AboveBelow(h: seq<Payload>, a: nat, cut: nat)
    requires Interval(h, a, Next(h))
    ensures Above(Recs(h, a, Next(h)), cut) == Recs(h, if cut <= a then a else Min(cut, Next(h)), Next(h))
  {
    if cut <= a {
      AboveAll(Recs(h, a, Next(h)), cut);
    } else if cut <= Next(h) {
      AboveRecs(h, a, cut, Next(h));
    } else {
      AboveSplit(Recs(h, a, Next(h)), [], cut);
      EmptyUnit(Recs(h, a, Next(h)));
    }
  }

  /** No crash in sight, no limit on where the log may start. */
  function Anywhere(h: seq<Payload>, durable: nat, upTo: nat): Bounds {
    Bounds(h, |h|, durable, Next(h) + upTo, false)
  }

  lemma RunningCalm(s: St, h: seq<Payload>, durable: nat, crash: bool, maxRec: nat)
    requires Running(s, h, durable, crash, maxRec)
    ensures Running(s, h, durable, false, maxRec) && s.w.bases != [] && s.w.bases[0] <= Next(h)
  {
    RunningFirst(s, h, durable, crash, maxRec);
    hide Laid;
  }

  /** Two running logs over one history, the second one starting where a cut leaves it. */
  lemma CutLog(s: St, r: St, h: seq<Payload>, durable: nat, crash: bool, upTo: nat, maxRec: nat)
    requires Running(s, h, durable, crash, maxRec) && Running(r, h, durable, false, maxRec)
    requires r.w.firstLSN == FirstAfterCut(s.w, upTo)
    ensures LogOf(r.dir.files, maxRec) == Above(LogOf(s.dir.files, maxRec), upTo)
  {
    RunningLog(s, h, durable, crash, maxRec);
    RunningLog(r, h, durable, false, maxRec);
    BoundsOf(s, h, durable, crash, maxRec);
    BoundsOf(r, h, durable, false, maxRec);
    hide Running, LogOf, Gapless;
    BaseAfterCut(s.w, r.w, upTo);
    hide FirstAfterCut, Recs, Above;
    AboveBelow(h, s.w.bases[0], upTo);
  }

  /** Where a cut leaves the first base. */
  lemma BaseAfterCut(w: Writer, v: Writer, upTo: nat)
    requires w.bases != [] && v.bases != [] && v.firstLSN == FirstAfterCut(w, upTo) && w.firstLSN <= w.nextLSN
    requires w.bases[0] == (if w.firstLSN == 0 then w.nextLSN else w.firstLSN)
    requires v.bases[0] == (if v.firstLSN == 0 then w.nextLSN else v.firstLSN)
    ensures v.bases[0] == if upTo <= w.bases[0] then w.bases[0] else Min(upTo, w.nextLSN)
  {
  }

  /** CutOffset is exact: what is left is the old log from `upTo` on, the LSN counters stay, and
      the first LSN is `upTo`, or 0 when nothing is left. */
  lemma CutExact(s: St, h: seq<Payload>, durable: nat, crash: bool, upTo: nat, cfg: Config)
    requires Running(s, h, durable, crash, cfg.maxRecordSize)
    ensures s.w.bases != []
    ensures var a := Cut(s, upTo, cfg);
      && a.ok && Running(a.st, h, durable, false, cfg.maxRecordSize)
      && LogOf(a.st.dir.files, cfg.maxRecordSize) == Above(LogOf(s.dir.files, cfg.maxRecordSize), upTo)
      && a.st.w.nextLSN == s.w.nextLSN && a.st.w.lastLSN == s.w.lastLSN
      && a.st.w.firstLSN == FirstAfterCut(s.w, upTo)
  {
    hide Running, Path, LogOf, Cut, FirstAfterCut;
    RunningCalm(s, h, durable, crash, cfg.maxRecordSize);
    CutPath(s, h, upTo, Anywhere(h, durable, upTo), cfg);
    CutLog(s, Cut(s, upTo, cfg).st, h, durable, crash, upTo, cfg.maxRecordSize);
  }

  /** The first base is the first LSN, or the next one. */
  lemma BoundsOf(s: St, h: seq<Payload>, durable: nat, crash: bool, maxRec: nat)
    requires Running(s, h, durable, crash, maxRec)
    ensures s.w.bases != [] && s.w.bases[0] == (if s.w.firstLSN == 0 then Next(h) else s.w.firstLSN)
    ensures s.w.nextLSN == Next(h) && s.w.firstLSN <= Next(h)
  {
    RunningFirst(s, h, durable, crash, maxRec);
    hide Live, Laid;
  }

  /** Payloads with consecutive LSNs. */
  function Stamped(first: nat, ps: seq<Payload>): (rs: seq<Record>)
    ensures |rs| == |ps|
  {
    seq(|ps|, i requires 0 <= i < |ps| => Record(first + i, ps[i]))
  }

  lemma RecsGrow(h: seq<Payload>, ps: seq<Payload>, a: nat)
    requires Interval(h, a, Next(h))
    ensures Interval(h + ps, a, Next(h + ps))
    ensures Recs(h + ps, a, Next(h + ps)) == Recs(h, a, Next(h)) + Stamped(Next(h), ps)
  {
  }

  /** A live request's payloads stand in the log under the LSNs it is told. */
  predicate Honoured(batch: seq<Request>, results: seq<Result>, log: seq<Record>) {
    |results| == |batch| && forall i | 0 <= i < |batch| :: HonouredAt(batch[i], results[i], log)
  }

  predicate HonouredAt(request: Request, result: Result, log: seq<Record>) {
    if request.cancelled then result == Canceled
    else
      && result.Assigned? && |result.lsns| == |request.payloads|
      && forall j | 0 <= j < |result.lsns| :: Record(result.lsns[j], request.payloads[j]) in log
  }

  function Granted(request: Request): seq<Payload> {
    if request.cancelled then [] else request.payloads
  }

  lemma AcceptedCons(batch: seq<Request>, i: nat)
    requires 0 < i <= |batch|
    ensures Accepted(batch) == Granted(batch[0]) + Accepted(batch[1..])
    ensures Accepted(batch[..i]) == Granted(batch[0]) + Accepted(batch[1..][..i - 1])
  {
    assert batch[..i][1..] == batch[1..][..i - 1] && batch[..i][0] == batch[0];
  }

  lemma {:induction false} AcceptedSplit(batch: seq<Request>, i: nat)
    requires i < |batch| && !batch[i].cancelled
    ensures |Accepted(batch[..i])| + |batch[i].payloads| <= |Accepted(batch)|
    ensures Accepted(batch)[|Accepted(batch[..i])|..|Accepted(batch[..i])| + |batch[i].payloads|] == batch[i].payloads
    decreases |batch|
  {
    if i == 0 {
      assert Accepted(batch[..0]) == [];
    } else {
      AcceptedCons(batch, i);
      hide Accepted;
      AcceptedSplit(batch[1..], i - 1);
      var n := |Accepted(batch[1..][..i - 1])|;
      SliceShift(Granted(batch[0]), Accepted(batch[1..]), n, n + |batch[i].payloads|);
    }
  }

  lemma AnswersHonoured(batch: seq<Request>, results: seq<Result>, next: nat, before: seq<Record>)
    requires Answers(batch, results, next)
    ensures Honoured(batch, results, before + Stamped(next, Accepted(batch)))
  {
    var log := before + Stamped(next, Accepted(batch));
    forall i | 0 <= i < |batch|
      ensures HonouredAt(batch[i], results[i], log)
    {
      assert AnswerAt(batch, results[i], next, i);
      if !batch[i].cancelled {
        AnswerHonoured(batch, results[i], next, before, i);
      }
    }
  }

  lemma AnswerHonoured(batch: seq<Request>, result: Result, next: nat, before: seq<Record>, i: nat)
    requires i < |batch| && !batch[i].cancelled && AnswerAt(batch, result, next, i)
    ensures HonouredAt(batch[i], result, before + Stamped(next, Accepted(batch)))
  {
    hide Accepted, Stamped;
    AcceptedSplit(batch, i);
    forall j | 0 <= j < |result.lsns|
      ensures Record(result.lsns[j], batch[i].payloads[j]) in before + Stamped(next, Accepted(batch))
    {
      StampedAt(Accepted(batch), |Accepted(batch[..i])|, batch[i].payloads, next, before, j);
    }
  }

  /** Of the payloads `ps` within `all`, number `j` is in the log under its LSN. */
  lemma StampedAt(all: seq<Payload>, n: nat, ps: seq<Payload>, next: nat, before: seq<Record>, j: nat)
    requires n + |ps| <= |all| && all[n..n + |ps|] == ps && j < |ps|
    ensures Record(next + n + j, ps[j]) in before + Stamped(next, all)
  {
    assert all[n + j] == all[n..n + |ps|][j];
    assert (before + Stamped(next, all))[|before| + n + j] == Stamped(next, all)[n + j];
  }

  /** A group commit appends the payloads of its live requests to the log, in order, under
      consecutive LSNs, and tells each caller the truth about it. */
  lemma CommitExact(s: St, h: seq<Payload>, durable: nat, crash: bool, batch: seq<Request>, cfg: Config)
    requires Running(s, h, durable, crash, cfg.maxRecordSize)
    requires Storable(h + Accepted(batch), cfg.maxRecordSize)
    ensures s.w.bases != []
    ensures var r := Commit(s, batch, cfg);
      var log := LogOf(s.dir.files, cfg.maxRecordSize) + Stamped(s.w.nextLSN, Accepted(batch));
      && Running(r.st, h + Accepted(batch), durable, false, cfg.maxRecordSize)
      && LogOf(r.st.dir.files, cfg.maxRecordSize) == log
      && r.st.w.nextLSN == s.w.nextLSN + |Accepted(batch)|
      && Honoured(batch, r.results, log)
  {
    RunningCalm(s, h, durable, crash, cfg.maxRecordSize);
    var k := h + Accepted(batch);
    var b := Bounds(k, |h|, durable, Next(h), false);
    RunningLog(s, h, durable, crash, cfg.maxRecordSize);
    BoundsOf(s, h, durable, crash, cfg.maxRecordSize);
    hide Running, LogOf, Commit, Path, Answers, Honoured, Accepted, Storable;
    CommitPath(s, h, batch, b, cfg);
    var r := Commit(s, batch, cfg);
    RunningLog(r.st, k, durable, false, cfg.maxRecordSize);
    BoundsOf(r.st, k, durable, false, cfg.maxRecordSize);
    RecsGrow(h, Accepted(batch), s.w.bases[0]);
    AnswersHonoured(batch, r.results, Next(h), LogOf(s.dir.files, cfg.maxRecordSize));
  }

  /** The segments a truncation keeps. */
  lemma TruncateBases(s: St, upTo: nat)
    requires s.w.bases != []
    ensures var k := Deletable(s.w.bases, upTo);
      k < |s.w.bases| && Truncate(s, upTo).w.bases == s.w.bases[k..]
  {
    var k := Deletable(s.w.bases, upTo);
    if k > 0 {
      RemoveAllEffect(s, s.w.bases[..k]);
    }
  }

  /** `first` is the largest base at or below `upTo`, or the smallest one if there is none. */
  predicate Foremost(bases: seq<nat>, upTo: nat, first: nat) {
    && bases != [] && first in bases
    && (first == bases[0] || first <= upTo)
    && forall i | 0 <= i < |bases| && bases[i] <= upTo :: bases[i] <= first
  }

  lemma DeletableForemost(bases: seq<nat>, upTo: nat)
    requires bases != [] && Ascending(bases)
    ensures Foremost(bases, upTo, bases[Deletable(bases, upTo)])
  {
    DeletableIs(bases, upTo);
  }

  lemma AboveTwice(h: seq<Payload>, a: nat, b: nat, upTo: nat)
    requires Interval(h, a, b) && Interval(h, b, Next(h)) && (b == a || b <= upTo)
    ensures Above(Recs(h, b, Next(h)), upTo) == Above(Recs(h, a, Next(h)), upTo)
    ensures Recs(h, b, Next(h)) == Above(Recs(h, a, Next(h)), b)
  {
    AboveBelow(h, a, upTo);
    AboveBelow(h, b, upTo);
    AboveBelow(h, a, b);
  }

  /** Truncate is safe and maximal: it keeps the active segment and every record from `upTo` on, drops
      only whole segments below, and drops all of those. */
  lemma TruncateExact(s: St, h: seq<Payload>, durable: nat, crash: bool, upTo: nat, maxRec: nat)
    requires Running(s, h, durable, crash, maxRec)
    ensures s.w.bases != []
    ensures var r := Truncate(s, upTo);
      && Running(r, h, durable, false, maxRec) && r.w.bases != []
      && Foremost(s.w.bases, upTo, r.w.bases[0]) && LastBase(r.w.bases) == LastBase(s.w.bases)
      && LogOf(r.dir.files, maxRec) == Above(LogOf(s.dir.files, maxRec), r.w.bases[0])
      && Above(LogOf(r.dir.files, maxRec), upTo) == Above(LogOf(s.dir.files, maxRec), upTo)
  {
    hide Running, LogOf, Path, Truncate, Ascending, Deletable, Foremost;
    RunningCalm(s, h, durable, crash, maxRec);
    RunningWriter(s, h, durable, crash, maxRec);
    TruncateBases(s, upTo);
    DeletableForemost(s.w.bases, upTo);
    TruncatePath(s, h, upTo, Anywhere(h, durable, upTo), maxRec);
    var r := Truncate(s, upTo);
    RunningLog(s, h, durable, crash, maxRec);
    RunningLog(r, h, durable, false, maxRec);
    FirstKept(s.w.bases, Deletable(s.w.bases, upTo), upTo);
    AboveTwice(h, s.w.bases[0], r.w.bases[0], upTo);
  }

  lemma FirstKept(bases: seq<nat>, k: nat, upTo: nat)
    requires k < |bases| && Ascending(bases) && Foremost(bases, upTo, bases[k])
    ensures bases[0] <= bases[k..][0] && (bases[k..][0] == bases[0] || bases[k..][0] <= upTo)
    ensures LastBase(bases[k..]) == LastBase(bases)
  {
  }

  /** An empty log has first LSN 0. */
  ghost predicate Flagged(s: St, maxRec: nat) {
    s.w.firstLSN == 0 <==> LogOf(s.dir.files, maxRec) == []
  }

  /** This holds after a commit unless that commit wrote no record to an empty log yet counts a
      request as written: an empty AppendBatch publishes a first LSN that is not there. */
  lemma FlagAfterCommit(s: St, h: seq<Payload>, durable: nat, crash: bool, batch: seq<Request>, cfg: Config)
    requires Running(s, h, durable, crash, cfg.maxRecordSize) && Flagged(s, cfg.maxRecordSize)
    requires Storable(h + Accepted(batch), cfg.maxRecordSize)
    ensures s.w.bases != []
    ensures Flagged(Commit(s, batch, cfg).st, cfg.maxRecordSize)
      <==> !(LogOf(s.dir.files, cfg.maxRecordSize) == [] && Accepted(batch) == [] && AnyLive(batch))
  {
    CommitExact(s, h, durable, crash, batch, cfg);
    RunningFirst(s, h, durable, crash, cfg.maxRecordSize);
    CommitFirst(s, batch, cfg);
    hide Running, LogOf, Commit, AnyLive, Honoured;
    AnyAccepted(batch);
  }

  lemma {:induction false} AnyAccepted(batch: seq<Request>)
    ensures Accepted(batch) != [] ==> AnyLive(batch)
    decreases |batch|
  {
    if batch != [] {
      AnyAccepted(batch[1..]);
      AnyLiveTail(batch);
    }
  }

  /** The first LSN a commit publishes. */
  lemma CommitFirst(s: St, batch: seq<Request>, cfg: Config)
    requires s.w.bases != []
    ensures Commit(s, batch, cfg).st.w.firstLSN
         == if AnyLive(batch) && s.w.firstLSN == 0 then s.w.bases[0] else s.w.firstLSN
  {
    BatchWriter(s, batch, cfg);
    hide WriteBatch;
  }

  lemma {:induction false} RequestWriter(s: St, ps: seq<Payload>, cfg: Config)
    requires s.w.bases != []
    ensures var r := WriteRequest(s, ps, cfg);
      r.w.firstLSN == s.w.firstLSN && r.w.bases[0] == s.w.bases[0]
    decreases |ps|
  {
    if ps != [] {
      RequestWriter(WriteRecord(s, ps[0], cfg), ps[1..], cfg);
    }
  }

  lemma {:induction false} BatchWriter(s: St, batch: seq<Request>, cfg: Config)
    requires s.w.bases != []
    ensures var r := WriteBatch(s, batch, cfg);
      r.st.w.firstLSN == s.w.firstLSN && r.st.w.bases[0] == s.w.bases[0] && (r.wroteAny <==> AnyLive(batch))
    decreases |batch|
  {
    if batch != [] {
      AnyLiveTail(batch);
      RequestWriter(s, batch[0].payloads, cfg);
      hide WriteRequest, AnyLive;
      BatchWriter(if batch[0].cancelled then s else WriteRequest(s, batch[0].payloads, cfg), batch[1..], cfg);
    }
  }

  /** A follower whose next record a cut takes away sees it by the published first LSN exactly when
      the cut leaves something: after a cut of everything that LSN is 0 and tells it nothing. */
  lemma LowWaterAfterCut(s: St, h: seq<Payload>, durable: nat, crash: bool, upTo: nat, highWater: nat, cfg: Config)
    requires Running(s, h, durable, crash, cfg.maxRecordSize)
    requires s.w.firstLSN != 0 && s.w.firstLSN <= highWater + 1 < Min(upTo, s.w.nextLSN)
    ensures s.w.bases != []
    ensures highWater + 1 < Cut(s, upTo, cfg).st.w.firstLSN <==> upTo < s.w.nextLSN
  {
    hide Running, Cut, LogOf, Above;
    CutExact(s, h, durable, crash, upTo, cfg);
  }
}
