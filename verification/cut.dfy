/** CutOffset, step by step. */
module Cutting {
  import opened Wrappers
  import opened Bytes
  import opened Seqs
  import opened Records
  import opened History
  import opened Directory
  import opened State
  import opened RecoveryTheorems
  import opened RecoveryIdempotence
  import opened Layout
  import opened Resting
  import opened Steps
  import opened WriterOps
  import opened Operations
  import opened Retention

  /** The records with LSN `cut` or above. */
  function Above(rs: seq<Record>, cut: nat): seq<Record> {
    if rs == [] then [] else (if rs[0].lsn < cut then [] else [rs[0]]) + Above(rs[1..], cut)
  }

  lemma {:induction false} AboveAll(rs: seq<Record>, cut: nat)
    requires forall i | 0 <= i < |rs| :: rs[i].lsn >= cut
    ensures Above(rs, cut) == rs
    decreases |rs|
  {
    if rs != [] {
      AboveAll(rs[1..], cut);
    }
  }

  lemma {:induction false} AboveSplit(low: seq<Record>, high: seq<Record>, cut: nat)
    requires forall i | 0 <= i < |low| :: low[i].lsn < cut
    requires forall i | 0 <= i < |high| :: high[i].lsn >= cut
    ensures Above(low + high, cut) == high
    decreases |low|
  {
    if low == [] {
      assert low + high == high;
      AboveAll(high, cut);
    } else {
      assert (low + high)[1..] == low[1..] + high;
      AboveSplit(low[1..], high, cut);
    }
  }

  lemma AboveRecs(h: seq<Payload>, b: nat, cut: nat, e: nat)
    requires Interval(h, b, e) && b <= cut <= e
    ensures Above(Recs(h, b, e), cut) == Recs(h, cut, e)
  {
    SpanSplit(h, b, cut, e);
    AboveSplit(Recs(h, b, cut), Recs(h, cut, e), cut);
  }

  lemma TempPath(s: St, step: Step, bs: seq<nat>, h: seq<Payload>, b: Bounds)
    requires Traced(s) && bs != [] && Live(s.dir, Plain(bs), h, b.durable, b.crash)
    requires Allows(b, h, b.durable, b.crash, bs[0])
    requires step.CreateTemp? || step.WriteTemp? || step.FsyncTemp? || step.RemoveTemp?
    ensures var r := Do(s, step);
      Path(s, r, b) && Live(r.dir, Plain(bs), h, b.durable, b.crash) && r.w == s.w
  {
    hide Live, Evolves, Apply;
    TempStep(s.dir, step, Plain(bs), h, b.durable, b.crash);
    LivePath(s, step, bs, h, b);
  }

  lemma AppendedTwice(f: File, x: seq<byte>, y: seq<byte>)
    ensures Appended(Appended(f, x), y) == Appended(f, x + y)
  {
    ConcatAssociates(f.body, x, y);
  }

  lemma WriteTempEffect(d: Dir, cut: nat, x: seq<byte>)
    requires cut in d.temps
    ensures var e := Apply(d, WriteTemp(cut, x));
      cut in e.temps && e.temps[cut] == Appended(d.temps[cut], x) && e.files == d.files
  {
  }

  /** What the temp file holds in the end. */
  lemma {:induction false} TempHolds(s: St, cut: nat, rs: seq<Record>)
    requires cut in s.dir.temps
    ensures var r := WriteTemps(s, cut, rs);
      && cut in r.dir.temps && r.dir.temps[cut] == Appended(s.dir.temps[cut], Frames(Above(rs, cut)))
      && r.dir.files == s.dir.files
    decreases |rs|
  {
    hide Frame;
    if rs == [] {
      EmptyUnit(s.dir.temps[cut].body);
    } else if rs[0].lsn < cut {
      TempHolds(s, cut, rs[1..]);
      EmptyUnit(Above(rs[1..], cut));
    } else {
      WriteTempEffect(s.dir, cut, Frame(rs[0]));
      var t := Do(s, WriteTemp(cut, Frame(rs[0])));
      TempHolds(t, cut, rs[1..]);
      assert ([rs[0]] + Above(rs[1..], cut))[1..] == Above(rs[1..], cut);
      AppendedTwice(s.dir.temps[cut], Frame(rs[0]), Frames(Above(rs[1..], cut)));
    }
  }

  lemma {:induction false} WriteTempsPath(s: St, bs: seq<nat>, h: seq<Payload>, cut: nat, rs: seq<Record>, b: Bounds)
    requires Traced(s) && bs != [] && Live(s.dir, Plain(bs), h, b.durable, b.crash) && cut in s.dir.temps
    requires Allows(b, h, b.durable, b.crash, bs[0])
    ensures var r := WriteTemps(s, cut, rs);
      Path(s, r, b) && Live(r.dir, Plain(bs), h, b.durable, b.crash) && r.w == s.w
    decreases |rs|
  {
    hide Live, Evolves, Apply, Passing, Frame;
    if rs == [] {
      PathRefl(s, b);
    } else if rs[0].lsn < cut {
      WriteTempsPath(s, bs, h, cut, rs[1..], b);
    } else {
      var step := WriteTemp(cut, Frame(rs[0]));
      TempPath(s, step, bs, h, b);
      WriteTempEffect(s.dir, cut, Frame(rs[0]));
      var t := Do(s, step);
      WriteTempsPath(t, bs, h, cut, rs[1..], b);
      hide Do, Path;
      PathChain(s, t, WriteTemps(s, cut, rs), b);
    }
  }

  /** The boundary segment scans as the records it holds. */
  lemma BoundaryScan(d: Dir, bs: seq<nat>, h: seq<Payload>, k: nat, maxRec: nat)
    requires bs != [] && Laid(d.files, Plain(bs), h) && Storable(h, maxRec) && k < |bs|
    ensures bs[k] in d.files && d.files[bs[k]].headerOk
    ensures Interval(h, bs[k], EndAt(bs, k, Next(h)))
    ensures ScanAll(d.files[bs[k]].body, maxRec)
         == Scan(Recs(h, bs[k], EndAt(bs, k, Next(h))), |d.files[bs[k]].body|, None)
  {
    hide Ascending, TornTail;
    NoTail(maxRec);
    LaidAt(d.files, Plain(bs), h, k);
    var e := EndAt(bs, k, Next(h));
    assert Tip(d.files, LastBase(bs), h, []);
    hide Laid;
    ScanSpan(h, bs[k], e, [], maxRec);
    EmptyUnit(Span(h, bs[k], e));
  }

  /** The temp file is fresh, then filled, then synced: it holds exactly the replacement. */
  lemma FilledTemp(bs: seq<nat>, h: seq<Payload>, k: nat, cut: nat)
    requires Inside(bs, k, cut, Next(h)) && Interval(h, bs[k], EndAt(bs, k, Next(h)))
    ensures Replacement(Synced(Appended(EMPTY_FILE, Frames(Above(Recs(h, bs[k], EndAt(bs, k, Next(h))), cut)))),
                        bs, k, cut, h)
  {
    var e := EndAt(bs, k, Next(h));
    AboveRecs(h, bs[k], cut, e);
    EmptyUnit(Span(h, cut, e));
  }

  lemma TempEffects(d: Dir, cut: nat)
    ensures var e := Apply(Apply(d, RemoveTemp(cut)), CreateTemp(cut));
      cut in e.temps && e.temps[cut] == EMPTY_FILE && e.files == d.files
    ensures cut in d.temps ==> var e := Apply(d, FsyncTemp(cut));
      cut in e.temps && e.temps[cut] == Synced(d.temps[cut]) && e.files == d.files
  {
  }

  /** Up to the synced temp file. */
  lemma FillPath(s: St, bs: seq<nat>, h: seq<Payload>, cut: nat, rs: seq<Record>, b: Bounds)
    requires Traced(s) && bs != [] && Live(s.dir, Plain(bs), h, b.durable, b.crash)
    requires Allows(b, h, b.durable, b.crash, bs[0])
    ensures var r := Do(WriteTemps(Do(Do(s, RemoveTemp(cut)), CreateTemp(cut)), cut, rs), FsyncTemp(cut));
      && Path(s, r, b) && Live(r.dir, Plain(bs), h, b.durable, b.crash) && r.w == s.w
      && r.dir.files == s.dir.files
      && cut in r.dir.temps && r.dir.temps[cut] == Synced(Appended(EMPTY_FILE, Frames(Above(rs, cut))))
  {
    hide Live, Evolves, Apply, Passing, Frames, Above, Path, WriteTemps;
    TempEffects(s.dir, cut);
    TempPath(s, RemoveTemp(cut), bs, h, b);
    var s1 := Do(s, RemoveTemp(cut));
    PathTraced(s, s1, b);
    TempPath(s1, CreateTemp(cut), bs, h, b);
    var s2 := Do(s1, CreateTemp(cut));
    PathChain(s, s1, s2, b);
    PathTraced(s, s2, b);
    WriteTempsPath(s2, bs, h, cut, rs, b);
    TempHolds(s2, cut, rs);
    var s3 := WriteTemps(s2, cut, rs);
    PathChain(s, s2, s3, b);
    PathTraced(s, s3, b);
    TempEffects(s3.dir, cut);
    TempPath(s3, FsyncTemp(cut), bs, h, b);
    PathChain(s, s3, Do(s3, FsyncTemp(cut)), b);
  }

  lemma PathTraced(s: St, r: St, b: Bounds)
    requires Path(s, r, b)
    ensures Traced(s) && Traced(r)
  {
  }

  /** Building and publishing seg-cut. */
  lemma RewritePath(s: St, h: seq<Payload>, k: nat, cut: nat, b: Bounds, cfg: Config)
    requires Running(s, h, b.durable, b.crash, cfg.maxRecordSize) && Inside(s.w.bases, k, cut, Next(h))
    requires b.crash && k == |s.w.bases| - 1 ==> SyncedOn(s.dir.files, [LastBase(s.w.bases)])
    requires Allows(b, h, b.durable, b.crash, s.w.bases[0]) && cut <= b.floor
    ensures s.w.bases[k] in s.dir.files && s.dir.files[s.w.bases[k]].headerOk
    ensures var a := RewriteFrom(s, s.dir.files[s.w.bases[k]].body, cut, cfg);
      && a.ok && Path(s, a.st, b) && a.st.w == s.w
      && Live(a.st.dir, Overlap(s.w.bases, k, cut, Next(h)), h, b.durable, b.crash)
  {
    hide Live, Evolves, Apply, Passing, Frames, Above, Path, WriteTemps, Laid, Storable, Traced;
    var bs := s.w.bases;
    BoundaryScan(s.dir, bs, h, k, cfg.maxRecordSize);
    var rs := Recs(h, bs[k], EndAt(bs, k, Next(h)));
    FilledTemp(bs, h, k, cut);
    FillPath(s, bs, h, cut, rs, b);
    var t := Do(WriteTemps(Do(Do(s, RemoveTemp(cut)), CreateTemp(cut)), cut, rs), FsyncTemp(cut));
    hide Replacement, Running, Recs;
    PublishPath(s, t, bs, h, k, cut, b);
  }

  lemma PublishPath(s: St, t: St, bs: seq<nat>, h: seq<Payload>, k: nat, cut: nat, b: Bounds)
    requires bs != [] && k < |bs| && Path(s, t, b) && Live(t.dir, Plain(bs), h, b.durable, b.crash)
    requires cut in t.dir.temps && Replacement(t.dir.temps[cut], bs, k, cut, h)
    requires b.crash && k == |bs| - 1 ==> SyncedOn(t.dir.files, [LastBase(bs)])
    requires Allows(b, h, b.durable, b.crash, bs[0]) && cut <= b.floor
    ensures var r := Do(t, Rename(cut));
      Path(s, r, b) && Live(r.dir, Overlap(bs, k, cut, Next(h)), h, b.durable, b.crash) && r.w == t.w
  {
    hide Live, Evolves, Apply, Path, Replacement;
    RenameStep(t.dir, bs, k, cut, h, b.durable, b.crash);
    PathTraced(s, t, b);
    assert b.h[..|h|] == h;
    PathStep(t, Rename(cut), b, |h|, Overlap(bs, k, cut, Next(h)));
    PathChain(s, t, Do(t, Rename(cut)), b);
  }

  /** Without superseded segments the shape is plain. */
  lemma LivePlain(d: Dir, bs: seq<nat>, end: nat, h: seq<Payload>, durable: nat, crash: bool)
    requires Live(d, Shape([], end, bs, []), h, durable, crash)
    ensures Live(d, Plain(bs), h, durable, crash)
  {
    PriorEnd(d.files, Shape([], end, bs, []), h);
    hide Laid;
  }

  /** What is left of the overlap when the replaced segments are gone. */
  lemma OverlapRest(bs: seq<nat>, k: nat, cut: nat, next: nat)
    requires k < |bs|
    ensures var t := Overlap(bs, k, cut, next);
      && (t.prior + t.bs)[..k + 1] == bs[..k + 1]
      && BeheadN(t, k + 1) == Shape([], t.priorEnd, [cut] + bs[k + 1..], [])
  {
    var t := Overlap(bs, k, cut, next);
    assert t.prior[k + 1..] == [];
  }

  lemma LastAfterCut(bs: seq<nat>, k: nat, cut: nat)
    requires k < |bs|
    ensures |bs[k + 1..]| > 0 ==> LastBase([cut] + bs[k + 1..]) == LastBase(bs)
  {
  }

  lemma RewriteCutPath(s: St, h: seq<Payload>, k: nat, cut: nat, b: Bounds, cfg: Config)
    requires Running(s, h, b.durable, b.crash, cfg.maxRecordSize) && Inside(s.w.bases, k, cut, Next(h))
    requires b.crash && k == |s.w.bases| - 1 ==> SyncedOn(s.dir.files, [LastBase(s.w.bases)])
    requires Allows(b, h, b.durable, b.crash, s.w.bases[0]) && cut <= b.floor
    ensures var a := CutRewriteBoundary(s, k, cut, cfg);
      && a.ok && Path(s, a.st, b) && Running(a.st, h, b.durable, b.crash, cfg.maxRecordSize)
      && a.st.w == s.w.(bases := [cut] + s.w.bases[k + 1..], firstLSN := cut)
  {
    hide Live, Passing, Laid, Storable, Traced, RewriteFrom, RemoveAll, Evolves, Path;
    RewritePath(s, h, k, cut, b, cfg);
    var bs := s.w.bases;
    var a := RewriteFrom(s, s.dir.files[bs[k]].body, cut, cfg);
    var t := Overlap(bs, k, cut, Next(h));
    PathTraced(s, a.st, b);
    OverlapRest(bs, k, cut, Next(h));
    RemoveFirstsPath(a.st, t, h, k + 1, b);
    var s1 := RemoveAll(a.st, bs[..k + 1]);
    LivePlain(s1.dir, [cut] + bs[k + 1..], t.priorEnd, h, b.durable, b.crash);
    PathChain(s, a.st, s1, b);
    PathTraced(s, s1, b);
    LastAfterCut(bs, k, cut);
    var w := s1.w.(bases := [cut] + bs[k + 1..], firstLSN := cut);
    PathWriter(s, s1, b, w);
    RunningBy(s1, w, h, b.durable, b.crash, cfg.maxRecordSize);
  }

  /** Removing a file that is not there changes nothing. */
  lemma RemoveNothing(s: St, bs: seq<nat>, h: seq<Payload>, b: Bounds, n: nat)
    requires Traced(s) && bs != [] && Live(s.dir, Plain(bs), h, b.durable, b.crash) && n !in s.dir.files
    requires Allows(b, h, b.durable, b.crash, bs[0])
    ensures var r := Do(s, Remove(n));
      Path(s, r, b) && Live(r.dir, Plain(bs), h, b.durable, b.crash) && r.w == s.w && r.dir == s.dir
  {
    hide Traced, Live;
    assert Apply(s.dir, Remove(n)) == s.dir;
    hide Evolves, Apply;
    EvolvesRefl(s.dir);
    LivePath(s, Remove(n), bs, h, b);
  }

  lemma NextIsNew(d: Dir, bs: seq<nat>, h: seq<Payload>)
    requires bs != [] && Laid(d.files, Plain(bs), h) && LastBase(bs) < Next(h)
    ensures Next(h) !in d.files
  {
    LaidRange(d.files, Plain(bs), h);
    hide Laid;
  }

  /** Installing the empty segment above the log. */
  lemma RestartPath(s: St, h: seq<Payload>, b: Bounds, maxRec: nat)
    requires Running(s, h, b.durable, b.crash, maxRec) && LastBase(s.w.bases) < Next(h)
    requires b.crash ==> SyncedOn(s.dir.files, [LastBase(s.w.bases)])
    requires Allows(b, h, b.durable, b.crash, s.w.bases[0])
    ensures var r := Do(Do(s, Remove(Next(h))), Create(Next(h)));
      && Path(s, r, b) && r.w == s.w
      && Live(r.dir, Plain(s.w.bases + [Next(h)]), h, b.durable, b.crash)
  {
    hide Live, Evolves, Apply, Laid, Passing, Storable;
    var bs := s.w.bases;
    NextIsNew(s.dir, bs, h);
    RemoveNothing(s, bs, h, b, Next(h));
    var s1 := Do(s, Remove(Next(h)));
    hide Path;
    PathTraced(s, s1, b);
    CreatePath(s1, bs, h, b);
    PathChain(s, s1, Do(s1, Create(Next(h))), b);
  }

  lemma AllButLast(bs: seq<nat>, n: nat)
    requires bs != []
    ensures var t := Plain(bs + [n]);
      && (t.prior + t.bs)[..|bs|] == bs && BeheadN(t, |bs|) == Plain([n])
  {
    var t := Plain(bs + [n]);
    assert t.prior + t.bs == bs + [n];
    assert (bs + [n])[|bs|..] == [n];
  }

  lemma EverythingPath(s: St, h: seq<Payload>, b: Bounds, maxRec: nat)
    requires Running(s, h, b.durable, b.crash, maxRec) && LastBase(s.w.bases) < Next(h)
    requires b.crash ==> SyncedOn(s.dir.files, [LastBase(s.w.bases)])
    requires Allows(b, h, b.durable, b.crash, s.w.bases[0]) && Next(h) <= b.floor
    ensures var r := CutEverything(s);
      && Path(s, r, b) && Running(r, h, b.durable, b.crash, maxRec)
      && r.w == s.w.(bases := [Next(h)], firstLSN := 0)
  {
    hide Live, Evolves, Apply, Laid, Passing, Storable, Do, Path, RemoveAll;
    var bs := s.w.bases;
    RestartPath(s, h, b, maxRec);
    var s1 := Do(Do(s, Remove(Next(h))), Create(Next(h)));
    PathTraced(s, s1, b);
    AllButLast(bs, Next(h));
    RemoveFirstsPath(s1, Plain(bs + [Next(h)]), h, |bs|, b);
    var s2 := RemoveAll(s1, bs);
    PathChain(s, s1, s2, b);
    PathTraced(s, s2, b);
    var w := s2.w.(bases := [Next(h)], firstLSN := 0);
    PathWriter(s, s2, b, w);
    RunningBy(s2, w, h, b.durable, b.crash, maxRec);
  }

  /** The cut will publish a file above the active one. */
  predicate PublishesAbove(w: Writer, upTo: nat)
    requires w.bases != []
  {
    var cut := Min(upTo, w.nextLSN);
    w.firstLSN != 0 && cut > w.firstLSN && cut > w.Active()
  }

  /** When a cut can be interrupted by a power failure and still leave a log that opens. */
  predicate CutSafe(d: Dir, w: Writer, upTo: nat)
    requires w.bases != []
  {
    PublishesAbove(w, upTo) ==> SyncedOn(d.files, [w.Active()])
  }

  /** The first LSN a cut leaves: the cut, or nothing at all. */
  function FirstAfterCut(w: Writer, upTo: nat): nat {
    var cut := Min(upTo, w.nextLSN);
    if w.firstLSN == 0 || cut <= w.firstLSN then w.firstLSN else if cut == w.nextLSN then 0 else cut
  }

  lemma RunningWriter(s: St, h: seq<Payload>, durable: nat, crash: bool, maxRec: nat)
    requires Running(s, h, durable, crash, maxRec)
    ensures s.w.bases != [] && Ascending(s.w.bases) && s.w.nextLSN == Next(h)
    ensures s.w.firstLSN == 0 || s.w.firstLSN == s.w.bases[0]
    ensures |s.w.bases| > 1 ==> LastBase(s.w.bases) < Next(h)
  {
    RunningAscending(s, h, durable, crash, maxRec);
    hide Live, Laid, Ascending;
  }

  ghost predicate CutDone(s: St, a: Attempt, h: seq<Payload>, first: nat, b: Bounds, maxRec: nat) {
    && a.ok && Path(s, a.st, b) && Running(a.st, h, b.durable, b.crash, maxRec)
    && a.st.w.firstLSN == first && a.st.w.nextLSN == s.w.nextLSN && a.st.w.lastLSN == s.w.lastLSN
  }

  /** The branches that change something. */
  lemma RealCutPath(s: St, h: seq<Payload>, cut: nat, b: Bounds, cfg: Config)
    requires Running(s, h, b.durable, b.crash, cfg.maxRecordSize) && s.w.bases != []
    requires s.w.bases[0] < cut < Next(h) && cut <= b.floor
    requires b.crash && cut > LastBase(s.w.bases) ==> SyncedOn(s.dir.files, [LastBase(s.w.bases)])
    requires Allows(b, h, b.durable, b.crash, s.w.bases[0])
    ensures var k := BoundaryIndex(s.w.bases, cut);
      CutDone(s, if s.w.bases[k] == cut
                 then Attempt(true, CutDeleteBelow(s, k, cut)) else CutRewriteBoundary(s, k, cut, cfg),
              h, cut, b, cfg.maxRecordSize)
  {
    hide Path, CutDeleteBelow, CutRewriteBoundary, BoundaryIndex, Running, Ascending;
    var bs := s.w.bases;
    var k := BoundaryIndex(bs, cut);
    RunningWriter(s, h, b.durable, b.crash, cfg.maxRecordSize);
    BoundaryIs(bs, cut);
    if bs[k] == cut {
      DeleteBelowPath(s, h, k, cut, b, cfg.maxRecordSize);
    } else {
      RewriteNeedsSync(bs, k, cut);
      RewriteCutPath(s, h, k, cut, b, cfg);
    }
  }

  lemma NoCutPath(s: St, h: seq<Payload>, upTo: nat, b: Bounds, cfg: Config)
    requires Running(s, h, b.durable, b.crash, cfg.maxRecordSize) && s.w.bases != []
    requires s.w.firstLSN == 0 || Min(upTo, s.w.nextLSN) <= s.w.firstLSN
    ensures CutDone(s, Cut(s, upTo, cfg), h, FirstAfterCut(s.w, upTo), b, cfg.maxRecordSize)
  {
    RunningRefl(s, h, b, cfg.maxRecordSize);
    hide Running, Path;
  }

  lemma WholeCutPath(s: St, h: seq<Payload>, upTo: nat, b: Bounds, cfg: Config)
    requires Running(s, h, b.durable, b.crash, cfg.maxRecordSize) && s.w.bases != []
    requires b.crash ==> CutSafe(s.dir, s.w, upTo)
    requires Allows(b, h, b.durable, b.crash, s.w.bases[0]) && Min(upTo, s.w.nextLSN) <= b.floor
    requires s.w.firstLSN != 0 && s.w.firstLSN < Min(upTo, s.w.nextLSN) && s.w.nextLSN <= upTo
    ensures CutDone(s, Cut(s, upTo, cfg), h, FirstAfterCut(s.w, upTo), b, cfg.maxRecordSize)
  {
    RunningWriter(s, h, b.durable, b.crash, cfg.maxRecordSize);
    CutAboveLast(s.w.bases, Min(upTo, s.w.nextLSN));
    hide Running, Path, CutEverything, Ascending, SyncedOn;
    assert Cut(s, upTo, cfg) == Attempt(true, CutEverything(s));
    hide Cut;
    EverythingPath(s, h, b, cfg.maxRecordSize);
  }

  lemma PartCutPath(s: St, h: seq<Payload>, upTo: nat, b: Bounds, cfg: Config)
    requires Running(s, h, b.durable, b.crash, cfg.maxRecordSize) && s.w.bases != []
    requires b.crash ==> CutSafe(s.dir, s.w, upTo)
    requires Allows(b, h, b.durable, b.crash, s.w.bases[0]) && upTo <= b.floor
    requires s.w.firstLSN != 0 && s.w.firstLSN < upTo < s.w.nextLSN
    ensures CutDone(s, Cut(s, upTo, cfg), h, FirstAfterCut(s.w, upTo), b, cfg.maxRecordSize)
  {
    hide Running, Path, CutDeleteBelow, CutRewriteBoundary, Ascending, SyncedOn, BoundaryIndex, CutDone;
    RunningWriter(s, h, b.durable, b.crash, cfg.maxRecordSize);
    RealCutPath(s, h, upTo, b, cfg);
  }

  /** CutOffset, step by step, across all its branches. */
  lemma CutPath(s: St, h: seq<Payload>, upTo: nat, b: Bounds, cfg: Config)
    requires Running(s, h, b.durable, b.crash, cfg.maxRecordSize)
    requires b.crash ==> CutSafe(s.dir, s.w, upTo)
    requires Allows(b, h, b.durable, b.crash, s.w.bases[0]) && Min(upTo, Next(h)) <= b.floor
    ensures CutDone(s, Cut(s, upTo, cfg), h, FirstAfterCut(s.w, upTo), b, cfg.maxRecordSize)
  {
    hide Running, Cut, CutDone, CutSafe, FirstAfterCut, Ascending;
    RunningWriter(s, h, b.durable, b.crash, cfg.maxRecordSize);
    if s.w.firstLSN == 0 || Min(upTo, s.w.nextLSN) <= s.w.firstLSN {
      NoCutPath(s, h, upTo, b, cfg);
    } else if s.w.nextLSN <= upTo {
      WholeCutPath(s, h, upTo, b, cfg);
    } else {
      PartCutPath(s, h, upTo, b, cfg);
    }
  }

  lemma CutAboveLast(bs: seq<nat>, cut: nat)
    requires bs != [] && Ascending(bs) && bs[0] < cut && (|bs| > 1 ==> LastBase(bs) < cut)
    ensures LastBase(bs) < cut
  {
  }

  lemma RewriteNeedsSync(bs: seq<nat>, k: nat, cut: nat)
    requires k < |bs| && bs[k] < cut
    ensures k == |bs| - 1 ==> LastBase(bs) < cut
  {
  }

  lemma DeleteBelowPath(s: St, h: seq<Payload>, k: nat, cut: nat, b: Bounds, maxRec: nat)
    requires Running(s, h, b.durable, b.crash, maxRec) && 0 < k < |s.w.bases| && s.w.bases[k] == cut
    requires cut <= b.floor && h <= b.h && b.low <= |h|
    ensures var r := CutDeleteBelow(s, k, cut);
      && Path(s, r, b) && Running(r, h, b.durable, b.crash, maxRec)
      && r.w == s.w.(bases := s.w.bases[k..], firstLSN := cut)
  {
    hide Running, Path;
    DropPath(s, h, k, b, maxRec);
    RemoveAllEffect(s, s.w.bases[..k]);
  }
}
