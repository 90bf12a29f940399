/** The size bound: with one segment size limit, a segment is within it or holds at most one record, in
    every directory of every run. */
module Sizes {
  import opened Wrappers
  import opened Bytes
  import opened Seqs
  import opened Records
  import opened History
  import opened Directory
  import opened State
  import opened Recovery
  import opened RecoveryTheorems
  import opened RecoveryIdempotence
  import opened Layout
  import opened Resting
  import opened Steps
  import opened WriterOps
  import opened Operations
  import opened Cutting
  import opened Exactness
  import opened AtomicCut
  import opened Runs

  /** With its 28 header bytes the file is within the limit, or it has one record at most. */
  predicate SizedBody(body: seq<byte>, cfg: Config) {
    28 + |body| <= cfg.maxSegmentSize || |ScanAll(body, cfg.maxRecordSize).recs| <= 1
  }

  predicate SizedFiles(f: Files, cfg: Config) {
    forall b | b in f :: SizedBody(f[b].body, cfg)
  }

  /** A scan of a prefix never finds more. */
  lemma {:induction false} ScanFewer(s: seq<byte>, k: nat, maxRec: nat)
    requires k <= |s|
    ensures |ScanAll(s[..k], maxRec).recs| <= |ScanAll(s, maxRec).recs|
    decreases |s|
  {
    hide Decode;
    var d := Decode(s[..k], maxRec);
    if d.Rec? {
      var size := HEADER_SIZE + |d.rec.payload|;
      DecodeLonger(s, k, maxRec);
      ScanFewer(s[size..], k - size, maxRec);
      assert s[..k][size..] == s[size..][..k - size];
      ScanUnfold(s, s[size..], d.rec, maxRec);
      ScanUnfold(s[..k], s[..k][size..], d.rec, maxRec);
    }
  }

  lemma DecodeLonger(s: seq<byte>, k: nat, maxRec: nat)
    requires k <= |s| && Decode(s[..k], maxRec).Rec?
    ensures Decode(s, maxRec) == Decode(s[..k], maxRec)
  {
    var n := FromLE(s[..k][4..8]);
    assert s[..k][..4] == s[..4] && s[..k][4..8] == s[4..8] && s[..k][8..16] == s[8..16];
    assert s[..k][4..16] == s[4..16] && s[..k][16..16 + n] == s[16..16 + n];
  }

  lemma SizedPrefix(body: seq<byte>, k: nat, cfg: Config)
    requires SizedBody(body, cfg) && k <= |body|
    ensures SizedBody(body[..k], cfg)
  {
    ScanFewer(body, k, cfg.maxRecordSize);
    hide ScanAll;
  }

  lemma SizedEmpty(cfg: Config)
    ensures SizedBody([], cfg)
  {
  }

  /** The roll rule lets a record be appended only where it fits, or alone. */
  lemma SizedAppend(body: seq<byte>, r: Record, cfg: Config)
    requires body == [] || SEGMENT_HEADER + |body| + HEADER_SIZE + |r.payload| <= cfg.maxSegmentSize
    requires Fits(r, cfg.maxRecordSize)
    ensures SizedBody(body + Frame(r), cfg)
  {
    if body == [] {
      EmptyUnit(Frame(r));
      ScanFrame(r, [], cfg.maxRecordSize);
    }
  }

  // What a scan finds can be framed again in no more space.

  lemma {:induction false} FromLEBound(s: seq<byte>)
    ensures FromLE(s) < Pow256(|s|)
  {
    if s != [] {
      FromLEBound(s[1..]);
    }
  }

  lemma DecodedFits(s: seq<byte>, maxRec: nat)
    requires Decode(s, maxRec).Rec?
    ensures Fits(Decode(s, maxRec).rec, maxRec)
  {
    FromLEBound(s[4..8]);
    FromLEBound(s[8..16]);
    Powers();
  }

  lemma {:induction false} ScannedFit(s: seq<byte>, maxRec: nat)
    ensures var r := ScanAll(s, maxRec);
      AllFit(r.recs, maxRec) && |Frames(r.recs)| == r.offset
    decreases |s|
  {
    hide Decode, Frame;
    var d := Decode(s, maxRec);
    if d.Rec? {
      var rest := s[HEADER_SIZE + |d.rec.payload|..];
      DecodedFits(s, maxRec);
      ScannedFit(rest, maxRec);
      ScanUnfold(s, rest, d.rec, maxRec);
      var r := ScanAll(rest, maxRec);
      hide ScanAll;
      assert ([d.rec] + r.recs)[1..] == r.recs;
    }
  }

  lemma {:induction false} AboveSmaller(rs: seq<Record>, cut: nat, maxRec: nat)
    requires AllFit(rs, maxRec)
    ensures var a := Above(rs, cut);
      AllFit(a, maxRec) && |a| <= |rs| && |Frames(a)| <= |Frames(rs)|
    decreases |rs|
  {
    hide Frame, Fits;
    if rs != [] {
      AboveSmaller(rs[1..], cut, maxRec);
      var rest := Above(rs[1..], cut);
      if rs[0].lsn < cut {
        EmptyUnit(rest);
      } else {
        assert ([rs[0]] + rest)[1..] == rest;
        hide Above;
        AllFitCons(rs[0], rest, maxRec);
      }
    }
  }

  lemma AllFitCons(r: Record, rs: seq<Record>, maxRec: nat)
    requires Fits(r, maxRec) && AllFit(rs, maxRec)
    ensures AllFit([r] + rs, maxRec)
  {
  }

  /** A rewritten segment is no larger than the one it replaces. */
  lemma SizedRewrite(body: seq<byte>, cut: nat, cfg: Config)
    requires SizedBody(body, cfg)
    ensures SizedBody(Frames(Above(ScanAll(body, cfg.maxRecordSize).recs, cut)), cfg)
  {
    var maxRec := cfg.maxRecordSize;
    var r := ScanAll(body, maxRec);
    var a := Above(r.recs, cut);
    ScannedFit(body, maxRec);
    AboveSmaller(r.recs, cut, maxRec);
    ScanFrames(a, [], maxRec);
    EmptyUnit(Frames(a));
    EmptyUnit(a);
    assert ScanAll([], maxRec) == Scan([], 0, None);
    hide Above, Frames, ScanAll;
  }

  // Every directory an operation passes through.

  /** All images from `s` to `r`, and the last one, are within the bound. */
  ghost predicate SizedTo(s: St, r: St, cfg: Config) {
    Through(s, r, (d: Dir) => SizedFiles(d.files, cfg)) && SizedFiles(r.dir.files, cfg)
  }

  lemma SizedRefl(s: St, cfg: Config)
    requires SizedFiles(s.dir.files, cfg)
    ensures SizedTo(s, s, cfg)
  {
  }

  lemma SizedChain(s: St, t: St, r: St, cfg: Config)
    requires SizedTo(s, t, cfg) && SizedTo(t, r, cfg)
    ensures SizedTo(s, r, cfg)
  {
    hide SizedFiles;
    ThroughChain(s, t, r, (d: Dir) => SizedFiles(d.files, cfg));
  }

  lemma SizedStep(s: St, step: Step, cfg: Config)
    requires SizedFiles(Apply(s.dir, step).files, cfg)
    ensures SizedTo(s, Do(s, step), cfg)
  {
    hide SizedFiles, Apply;
  }

  lemma SizedWriter(s: St, r: St, w: Writer, cfg: Config)
    requires SizedTo(s, r, cfg)
    ensures SizedTo(s, r.(w := w), cfg)
  {
    hide SizedFiles;
  }

  /** Steps that write no record and publish no temp file. */
  lemma SizedQuiet(s: St, step: Step, cfg: Config)
    requires SizedFiles(s.dir.files, cfg) && !step.Write? && !step.Rename?
    ensures SizedTo(s, Do(s, step), cfg)
  {
    SizedEmpty(cfg);
    var d := Apply(s.dir, step);
    hide SizedBody;
    forall b | b in d.files
      ensures SizedBody(d.files[b].body, cfg)
    {
      if step.Chop? && b == step.base && step.size <= |s.dir.files[b].body| {
        SizedPrefix(s.dir.files[b].body, step.size, cfg);
      }
    }
    SizedStep(s, step, cfg);
  }

  lemma {:induction false} SizedRemoveAll(s: St, bs: seq<nat>, cfg: Config)
    requires SizedFiles(s.dir.files, cfg)
    ensures SizedTo(s, RemoveAll(s, bs), cfg)
    decreases |bs|
  {
    hide SizedFiles, Apply;
    if bs == [] {
      SizedRefl(s, cfg);
    } else {
      SizedQuiet(s, Remove(bs[0]), cfg);
      SizedRemoveAll(Do(s, Remove(bs[0])), bs[1..], cfg);
      SizedChain(s, Do(s, Remove(bs[0])), RemoveAll(s, bs), cfg);
    }
  }

  lemma SizedWrite(s: St, b: nat, r: Record, cfg: Config)
    requires SizedFiles(s.dir.files, cfg) && Fits(r, cfg.maxRecordSize) && b in s.dir.files
    requires s.dir.files[b].body == [] || SizeOf(s.dir, b) + HEADER_SIZE + |r.payload| <= cfg.maxSegmentSize
    ensures SizedTo(s, Do(s, Write(b, Frame(r))), cfg)
  {
    hide SizedBody, Frame;
    SizedAppend(s.dir.files[b].body, r, cfg);
    SizedStep(s, Write(b, Frame(r)), cfg);
  }

  lemma RolledEmpty(s: St, h: seq<Payload>, durable: nat, crash: bool, p: Payload, cfg: Config)
    requires Writing(s, h, durable, crash) && MustRoll(s, p, cfg)
    ensures var n := Next(h);
      && s.w.nextLSN == n && Roll(s).w.Active() == n
      && n in Roll(s).dir.files && Roll(s).dir.files[n].body == []
  {
    RollLeavesSomething(s, h, durable, crash, p, cfg);
    NextIsNew(s.dir, s.w.bases, h);
    hide Live, MustRoll;
  }

  lemma SizedRecord(s: St, h: seq<Payload>, p: Payload, durable: nat, crash: bool, cfg: Config)
    requires Writing(s, h, durable, crash) && SizedFiles(s.dir.files, cfg)
    requires Fits(Record(Next(h), p), cfg.maxRecordSize)
    ensures SizedTo(s, WriteRecord(s, p, cfg), cfg)
  {
    ActiveThere(s, h, durable, crash);
    hide SizedFiles, Live, Fits, Frame;
    var s1 := if MustRoll(s, p, cfg) then Roll(s) else s;
    if MustRoll(s, p, cfg) {
      RolledEmpty(s, h, durable, crash, p, cfg);
      SizedRoll(s, cfg);
    } else {
      SizedRefl(s, cfg);
    }
    var r := Record(s1.w.nextLSN, p);
    SizedWrite(s1, s1.w.Active(), r, cfg);
    var s2 := Do(s1, Write(s1.w.Active(), Frame(r)));
    hide Do, Roll, SizedTo;
    SizedChain(s, s1, s2, cfg);
    SizedWriter(s, s2, s2.w.(nextLSN := s2.w.nextLSN + 1), cfg);
  }

  lemma ActiveThere(s: St, h: seq<Payload>, durable: nat, crash: bool)
    requires Writing(s, h, durable, crash)
    ensures LastBase(s.w.bases) in s.dir.files
  {
    LaidRange(s.dir.files, Plain(s.w.bases), h);
    hide Laid;
  }

  lemma SizedRoll(s: St, cfg: Config)
    requires s.w.bases != [] && SizedFiles(s.dir.files, cfg)
    ensures SizedTo(s, Roll(s), cfg)
  {
    hide SizedFiles, Apply;
    var s1 := Do(s, Fsync(s.w.Active()));
    SizedQuiet(s, Fsync(s.w.Active()), cfg);
    SizedQuiet(s1, Create(s.w.nextLSN), cfg);
    SizedChain(s, s1, Do(s1, Create(s.w.nextLSN)), cfg);
    SizedWriter(s, Do(s1, Create(s.w.nextLSN)), Roll(s).w, cfg);
  }

  predicate AllSmall(h: seq<Payload>, ps: seq<Payload>, maxRec: nat) {
    && Next(h) + |ps| < Pow256(8)
    && forall i | 0 <= i < |ps| :: |ps[i]| <= MAX_PAYLOAD && |ps[i]| <= maxRec
  }

  lemma AllSmallTail(h: seq<Payload>, ps: seq<Payload>, maxRec: nat)
    requires AllSmall(h, ps, maxRec) && ps != []
    ensures Fits(Record(Next(h), ps[0]), maxRec) && AllSmall(h + [ps[0]], ps[1..], maxRec)
  {
  }

  lemma {:induction false} SizedRequest(s: St, h: seq<Payload>, ps: seq<Payload>, b: Bounds, cfg: Config)
    requires Writing(s, h, b.durable, b.crash) && SizedFiles(s.dir.files, cfg) && AllSmall(h, ps, cfg.maxRecordSize)
    requires h + ps <= b.h && b.low <= |h| && s.w.bases[0] <= b.floor
    ensures SizedTo(s, WriteRequest(s, ps, cfg), cfg)
    decreases |ps|
  {
    hide Live, Evolves, Passing, SizedFiles, MustRoll, Roll, WriteRecord;
    if ps == [] {
      SizedRefl(s, cfg);
    } else {
      assert h + [ps[0]] + ps[1..] == h + ps;
      AllSmallTail(h, ps, cfg.maxRecordSize);
      hide AllSmall, Fits;
      WriteRecordPath(s, h, ps[0], b, cfg);
      SizedRecord(s, h, ps[0], b.durable, b.crash, cfg);
      var t := WriteRecord(s, ps[0], cfg);
      hide Writing, Path;
      SizedRequest(t, h + [ps[0]], ps[1..], b, cfg);
      SizedChain(s, t, WriteRequest(s, ps, cfg), cfg);
    }
  }

  lemma AllSmallSplit(h: seq<Payload>, ps: seq<Payload>, qs: seq<Payload>, maxRec: nat)
    requires AllSmall(h, ps + qs, maxRec)
    ensures AllSmall(h, ps, maxRec) && AllSmall(h + ps, qs, maxRec)
  {
    assert forall i | 0 <= i < |ps| :: (ps + qs)[i] == ps[i];
    assert forall i | 0 <= i < |qs| :: (ps + qs)[|ps| + i] == qs[i];
  }

  lemma {:induction false} SizedBatch(s: St, h: seq<Payload>, batch: seq<Request>, b: Bounds, cfg: Config)
    requires Writing(s, h, b.durable, b.crash) && SizedFiles(s.dir.files, cfg)
    requires AllSmall(h, Accepted(batch), cfg.maxRecordSize)
    requires h + Accepted(batch) <= b.h && b.low <= |h| && s.w.bases[0] <= b.floor
    ensures SizedTo(s, WriteBatch(s, batch, cfg).st, cfg)
    decreases |batch|
  {
    hide Live, Evolves, Passing, SizedFiles, WriteRequest, AllSmall;
    if batch == [] {
      SizedRefl(s, cfg);
    } else {
      var rest := batch[1..];
      if batch[0].cancelled {
        assert Accepted(batch) == Accepted(rest);
        SizedBatch(s, h, rest, b, cfg);
      } else {
        var ps := batch[0].payloads;
        assert h + ps + Accepted(rest) == h + Accepted(batch);
        AllSmallSplit(h, ps, Accepted(rest), cfg.maxRecordSize);
        WriteRequestPath(s, h, ps, b, cfg);
        SizedRequest(s, h, ps, b, cfg);
        var t := WriteRequest(s, ps, cfg);
        hide Writing, Path;
        SizedBatch(t, h + ps, rest, b, cfg);
        SizedChain(s, t, WriteBatch(s, batch, cfg).st, cfg);
      }
    }
  }

  lemma SizedCommit(s: St, h: seq<Payload>, batch: seq<Request>, b: Bounds, cfg: Config)
    requires Writing(s, h, b.durable, b.crash) && SizedFiles(s.dir.files, cfg)
    requires AllSmall(h, Accepted(batch), cfg.maxRecordSize)
    requires h + Accepted(batch) <= b.h && b.low <= |h| && s.w.bases[0] <= b.floor
    ensures SizedTo(s, Commit(s, batch, cfg).st, cfg)
  {
    hide Live, SizedFiles, AllSmall, Apply;
    SizedBatch(s, h, batch, b, cfg);
    var written := WriteBatch(s, batch, cfg);
    hide WriteBatch, Writing, Accepted;
    if written.wroteAny {
      var t := written.st;
      if cfg.policy == SyncInterval {
        SizedWriter(s, t, Publish(t).w, cfg);
      } else {
        SizedQuiet(t, Fsync(t.w.Active()), cfg);
        SizedChain(s, t, SyncActive(t), cfg);
        SizedWriter(s, SyncActive(t), Publish(SyncActive(t)).w, cfg);
      }
    }
  }

  lemma SizedTruncate(s: St, upTo: nat, cfg: Config)
    requires s.w.bases != [] && SizedFiles(s.dir.files, cfg)
    ensures SizedTo(s, Truncate(s, upTo), cfg)
  {
    hide SizedFiles;
    var k := Deletable(s.w.bases, upTo);
    SizedRefl(s, cfg);
    SizedRemoveAll(s, s.w.bases[..k], cfg);
    hide RemoveAll, SizedTo;
    var s1 := RemoveAll(s, s.w.bases[..k]);
    SizedWriter(s, s1, s1.w.(bases := s.w.bases[k..], firstLSN := s.w.bases[k]), cfg);
  }

  lemma SizedRestart(s: St, cfg: Config)
    requires s.w.bases != [] && SizedFiles(s.dir.files, cfg)
    ensures SizedTo(s, CutEverything(s), cfg)
  {
    hide SizedFiles, Apply;
    var s1 := Do(s, Remove(s.w.nextLSN));
    var s2 := Do(s1, Create(s.w.nextLSN));
    SizedQuiet(s, Remove(s.w.nextLSN), cfg);
    SizedQuiet(s1, Create(s.w.nextLSN), cfg);
    SizedRemoveAll(s2, s.w.bases, cfg);
    var s3 := RemoveAll(s2, s.w.bases);
    hide RemoveAll;
    SizedChain(s, s1, s2, cfg);
    SizedChain(s, s2, s3, cfg);
    SizedWriter(s, s3, s3.w.(bases := [s.w.nextLSN], firstLSN := 0), cfg);
  }

  /** The files a rewrite leaves: as before, and the replacement. */
  lemma RewriteLeaves(s: St, body: seq<byte>, cut: nat, cfg: Config)
    requires RewriteFrom(s, body, cut, cfg).ok
    ensures RewriteFrom(s, body, cut, cfg).st.dir.files
         == s.dir.files[cut := Synced(Appended(EMPTY_FILE, Frames(Above(ScanAll(body, cfg.maxRecordSize).recs, cut))))]
  {
    hide ScanAll, Frames, Above;
    var s2 := Do(Do(s, RemoveTemp(cut)), CreateTemp(cut));
    var rs := ScanAll(body, cfg.maxRecordSize).recs;
    WriteTempsQuiet(s2, cut, rs);
    TempHolds(s2, cut, rs);
    hide WriteTemps;
  }

  lemma SizedRewriteFrom(s: St, body: seq<byte>, cut: nat, cfg: Config)
    requires SizedFiles(s.dir.files, cfg) && SizedBody(body, cfg) && RewriteFrom(s, body, cut, cfg).ok
    ensures SizedTo(s, RewriteFrom(s, body, cut, cfg).st, cfg)
  {
    hide RewriteFrom, Frames;
    RewriteImages(s, body, cut, cfg);
    RewriteLeaves(s, body, cut, cfg);
    SizedRewrite(body, cut, cfg);
    var x := Frames(Above(ScanAll(body, cfg.maxRecordSize).recs, cut));
    hide Above, ScanAll, SizedBody;
    EmptyUnit(x);
    var r := RewriteFrom(s, body, cut, cfg).st;
    assert SizedFiles(r.dir.files, cfg);
    hide SizedFiles;
    ThroughWeaken(s, r, (d: Dir) => d.files == s.dir.files || d.files == r.dir.files,
                  (d: Dir) => SizedFiles(d.files, cfg));
  }

  lemma SizedCut(s: St, upTo: nat, cfg: Config)
    requires s.w.bases != [] && SizedFiles(s.dir.files, cfg) && Cut(s, upTo, cfg).ok
    ensures SizedTo(s, Cut(s, upTo, cfg).st, cfg)
  {
    var cut := Min(upTo, s.w.nextLSN);
    hide SizedFiles, SizedTo, CutEverything;
    SizedRefl(s, cfg);
    if !(s.w.firstLSN == 0 || cut <= s.w.firstLSN) {
      if cut >= s.w.nextLSN {
        SizedRestart(s, cfg);
      } else {
        var k := BoundaryIndex(s.w.bases, cut);
        hide BoundaryIndex;
        if s.w.bases[k] == cut {
          SizedRemoveAll(s, s.w.bases[..k], cfg);
          hide RemoveAll;
          SizedWriter(s, RemoveAll(s, s.w.bases[..k]), CutDeleteBelow(s, k, cut).w, cfg);
        } else {
          SizedRewriteCut(s, k, cut, cfg);
        }
      }
    }
  }

  lemma SizedRewriteCut(s: St, k: nat, cut: nat, cfg: Config)
    requires k < |s.w.bases| && SizedFiles(s.dir.files, cfg) && CutRewriteBoundary(s, k, cut, cfg).ok
    ensures SizedTo(s, CutRewriteBoundary(s, k, cut, cfg).st, cfg)
  {
    var body := s.dir.files[s.w.bases[k]].body;
    assert SizedBody(body, cfg);
    hide SizedFiles, SizedBody, RewriteFrom;
    SizedRewriteFrom(s, body, cut, cfg);
    var t := RewriteFrom(s, body, cut, cfg).st;
    SizedRemoveAll(t, s.w.bases[..k + 1], cfg);
    var r := RemoveAll(t, s.w.bases[..k + 1]);
    hide RemoveAll, SizedTo;
    SizedChain(s, t, r, cfg);
    SizedWriter(s, r, CutRewriteBoundary(s, k, cut, cfg).st.w, cfg);
  }

  // Recovery only removes files and chops one.

  lemma {:induction false} SizedCollect(s: St, names: seq<nat>, i: nat, segs: seq<Opened>, expected: nat,
                                        scan: BodyScanner, cfg: Config)
    requires i <= |names| && SizedFiles(s.dir.files, cfg)
    ensures SizedTo(s, Collect(s, names, i, segs, expected, scan).st, cfg)
    decreases |names| - i
  {
    hide SizedFiles, SizedTo;
    SizedRefl(s, cfg);
    if i < |names| && names[i] in s.dir.files && s.dir.files[names[i]].headerOk && !(i > 0 && names[i] > expected) {
      var b := names[i];
      var overlap := i > 0 && b < expected;
      var s1 := if overlap then RemoveAll(s, Bases(segs)) else s;
      var segs1 := if overlap then [] else segs;
      SizedRemoveAll(s, Bases(segs), cfg);
      SizedEnd(s, s1, cfg);
      var res := scan(s.dir.files[b].body);
      hide RemoveAll;
      if !(res.err.Some? && i != |names| - 1) {
        SizedCollect(s1, names, i + 1, segs1 + [Opened(b, res)], b + res.records, scan, cfg);
        SizedChain(s, s1, Collect(s, names, i, segs, expected, scan).st, cfg);
      }
    }
  }

  lemma SizedEnd(s: St, r: St, cfg: Config)
    requires SizedTo(s, r, cfg)
    ensures SizedFiles(r.dir.files, cfg)
  {
  }

  lemma SizedPrune(s: St, segs: seq<Opened>, lastLSN: nat, cfg: Config)
    requires segs != [] && SizedFiles(s.dir.files, cfg)
    ensures SizedTo(s, PruneEmptyTrailing(s, segs, lastLSN).st, cfg)
  {
    hide SizedFiles, SizedTo, RemoveAll, Backwards;
    var found := LastWithRecords(segs);
    var active := if found < 0 then |segs| - 1 else found;
    var bs := Backwards(Bases(segs[active + 1..]));
    SizedRemoveAll(s, bs, cfg);
    var s1 := RemoveAll(s, bs);
    SizedEnd(s, s1, cfg);
    var rest := Bases(segs[..active + 1][1..]);
    SizedRemoveAll(s1, rest, cfg);
    SizedChain(s, s1, RemoveAll(s1, rest), cfg);
  }

  lemma {:induction false} SizedRemoveTemps(s: St, temps: seq<nat>, cfg: Config)
    requires SizedFiles(s.dir.files, cfg)
    ensures SizedTo(s, RemoveTemps(s, temps), cfg)
    decreases |temps|
  {
    hide SizedFiles, SizedTo, Apply;
    SizedRefl(s, cfg);
    if temps != [] {
      var t := Do(s, RemoveTemp(temps[0]));
      SizedQuiet(s, RemoveTemp(temps[0]), cfg);
      SizedEnd(s, t, cfg);
      SizedRemoveTemps(t, temps[1..], cfg);
      SizedChain(s, t, RemoveTemps(s, temps), cfg);
    }
  }

  lemma SizedRecoverListed(s: St, names: seq<nat>, scan: BodyScanner, cfg: Config)
    requires SizedFiles(s.dir.files, cfg)
    ensures SizedTo(s, RecoverListed(s, names, scan).st, cfg)
  {
    hide SizedFiles, SizedTo, Collect, PruneEmptyTrailing, FirstOf, LastOf, Install, Apply;
    if names == [] {
      SizedQuiet(s, Create(1), cfg);
      SizedWriter(s, Do(s, Create(1)), Writer([1], 1, 0, 0), cfg);
    } else {
      SizedCollect(s, names, 0, [], 0, scan, cfg);
      var c := Collect(s, names, 0, [], 0, scan);
      if c.ok {
        SizedEnd(s, c.st, cfg);
        SizedFinish(s, c.st, c.segs, cfg);
      }
    }
  }

  lemma SizedFinish(s: St, t: St, segs: seq<Opened>, cfg: Config)
    requires SizedTo(s, t, cfg) && SizedFiles(t.dir.files, cfg) && segs != []
    ensures var s1 := ChopTornTail(t, segs);
      var p := PruneEmptyTrailing(s1, segs, LastOf(segs));
      p.segs != [] && SizedTo(s, Install(p.st, p.segs, FirstOf(segs), LastOf(segs)), cfg)
  {
    hide SizedFiles, SizedTo, PruneEmptyTrailing, FirstOf, LastOf, Apply;
    var last := segs[|segs| - 1];
    SizedRefl(t, cfg);
    SizedQuiet(t, Chop(last.base, last.res.validEnd), cfg);
    var s1 := ChopTornTail(t, segs);
    SizedEnd(t, s1, cfg);
    var p := PruneEmptyTrailing(s1, segs, LastOf(segs));
    SizedPrune(s1, segs, LastOf(segs), cfg);
    SizedChain(s, t, s1, cfg);
    SizedChain(s, s1, p.st, cfg);
    SizedWriter(s, p.st, Install(p.st, p.segs, FirstOf(segs), LastOf(segs)).w, cfg);
  }

  lemma SizedRecover(d: Dir, scan: BodyScanner, cfg: Config)
    requires SizedFiles(d.files, cfg)
    ensures var r := Recover(d, scan).st;
      SizedFiles(r.dir.files, cfg) && forall k | 0 <= k < |r.trace| :: SizedFiles(r.trace[k].files, cfg)
  {
    hide SizedFiles;
    var s := St(d, Writer([], 0, 0, 0), [d]);
    var t := RemoveTemps(s, SortedKeys(d.temps.Keys));
    var r := Recover(d, scan).st;
    SizedRemoveTemps(s, SortedKeys(d.temps.Keys), cfg);
    SizedRecoverListed(t, SortedKeys(t.dir.files.Keys), scan, cfg);
    hide RemoveTemps, RecoverListed;
    SizedChain(s, t, r, cfg);
    hide Recover;
  }

  // Runs.

  ghost predicate SizedMachine(y: System, cfg: Config) {
    match y.m
    case Up(s) => SizedFiles(s.dir.files, cfg)
    case Down(d) => SizedFiles(d.files, cfg)
  }

  lemma SizedCrash(d: Dir, c: Dir, cfg: Config)
    requires SizedFiles(d.files, cfg) && CrashImage(d, c)
    ensures SizedFiles(c.files, cfg)
  {
    hide SizedBody;
    forall b | b in c.files
      ensures SizedBody(c.files[b].body, cfg)
    {
      SizedPrefix(d.files[b].body, |c.files[b].body|, cfg);
    }
  }

  lemma FittingSmall(s: St, h: seq<Payload>, op: Op, cfg: Config)
    requires Fitting(s, op, cfg) && op.DoCommit? && s.w.nextLSN == History.Next(h)
    requires cfg.maxRecordSize <= MAX_PAYLOAD + HEADER_SIZE
    ensures AllSmall(h, Accepted(op.batch), cfg.maxRecordSize)
  {
    var ps := Accepted(op.batch);
    assert ps == Payloads(op);
    hide Accepted, Payloads;
    assert forall i | 0 <= i < |ps| :: Admitted(ps[i], cfg);
  }

  lemma SizedCommitOpen(s: St, h: seq<Payload>, batch: seq<Request>, assured: nat, bound: nat, cfg: Config)
    requires Open(s, h, assured, bound, cfg.maxRecordSize) && SizedFiles(s.dir.files, cfg) && s.w.bases != []
    requires AllSmall(h, Accepted(batch), cfg.maxRecordSize)
    ensures SizedTo(s, Commit(s, batch, cfg).st, cfg)
  {
    OpenFacts(s, h, assured, bound, cfg.maxRecordSize);
    hide Live, Laid, Storable, SizedFiles, SizedTo, AllSmall, Commit;
    SizedCommit(s, h, batch, Bounds(h + Accepted(batch), |h|, assured, s.w.bases[0], true), cfg);
  }

  lemma SizedPerform(s: St, h: seq<Payload>, op: Op, assured: nat, bound: nat, cfg: Config)
    requires Open(s, h, assured, bound, cfg.maxRecordSize) && SizedFiles(s.dir.files, cfg) && s.w.bases != []
    requires Fitting(s, op, cfg) && cfg.maxRecordSize <= MAX_PAYLOAD + HEADER_SIZE
    ensures SizedTo(s, Perform(s, op, cfg), cfg)
  {
    OpenFacts(s, h, assured, bound, cfg.maxRecordSize);
    match op
    case DoCommit(batch) =>
      FittingSmall(s, h, op, cfg);
      hide Open, Fitting, AllSmall, Commit, SizedFiles, SizedTo;
      SizedCommitOpen(s, h, batch, assured, bound, cfg);
    case DoTruncate(upTo) =>
      hide Open, SizedFiles, Truncate;
      SizedTruncate(s, upTo, cfg);
    case DoCut(upTo) =>
      CutExact(s, h, assured, true, upTo, cfg);
      hide Open, SizedFiles, Cut, Running;
      SizedCut(s, upTo, cfg);
    case DoSync =>
      hide Open, SizedFiles, Apply;
      SizedQuiet(s, Fsync(s.w.Active()), cfg);
  }

  lemma SizedImage(s: St, r: St, j: nat, cfg: Config)
    requires SizedTo(s, r, cfg) && SizedFiles(s.dir.files, cfg) && Traced(s) && |s.trace| - 1 <= j < |r.trace|
    ensures SizedFiles(r.trace[j].files, cfg)
  {
    hide SizedFiles;
    if j == |s.trace| - 1 {
      assert r.trace[j] == s.dir;
    }
  }

  lemma SizedUp(y: System, z: System, h: seq<Payload>, op: Op, cfg: Config)
    requires Good(y, h, cfg) && SizedMachine(y, cfg) && cfg.maxRecordSize <= MAX_PAYLOAD + HEADER_SIZE
    requires Completes(y, z, op, cfg, Kills)
    ensures SizedMachine(z, cfg)
  {
    hide Books, Open, Perform, SizedFiles, Fitting, Acknowledged, CutSafe;
    SizedPerform(y.m.st, h, op, y.assured, y.bound, cfg);
    SizedEnd(y.m.st, Perform(y.m.st, op, cfg), cfg);
    hide SizedTo;
  }

  lemma OpenTraced(s: St, h: seq<Payload>, assured: nat, bound: nat, maxRec: nat)
    requires Open(s, h, assured, bound, maxRec)
    ensures Traced(s)
  {
    hide Live, AtRest;
  }

  lemma SizedDown(y: System, z: System, h: seq<Payload>, op: Op, j: nat, c: Dir, cfg: Config)
    requires Good(y, h, cfg) && SizedMachine(y, cfg) && cfg.maxRecordSize <= MAX_PAYLOAD + HEADER_SIZE
    requires Interrupted(y, z, op, j, c, cfg, Kills)
    ensures SizedMachine(z, cfg)
  {
    hide Books, Open, Perform, SizedFiles, SizedTo, Fitting, CrashImage, CutSafe, Traced;
    var s := y.m.st;
    SizedPerform(s, h, op, y.assured, y.bound, cfg);
    OpenTraced(s, h, y.assured, y.bound, cfg.maxRecordSize);
    SizedImage(s, Perform(s, op, cfg), j, cfg);
    SizedCrash(Perform(s, op, cfg).trace[j], c, cfg);
  }

  lemma SizedMove(y: System, z: System, h: seq<Payload>, cfg: Config)
    requires Good(y, h, cfg) && SizedMachine(y, cfg) && cfg.maxRecordSize <= MAX_PAYLOAD + HEADER_SIZE
    requires Moves(y, z, cfg, Kills)
    ensures SizedMachine(z, cfg)
  {
    hide Good, Completes, Interrupted, CrashesReopening, SizedFiles, Recover, CrashImage;
    if op :| Completes(y, z, op, cfg, Kills) {
      SizedUp(y, z, h, op, cfg);
    } else if op, j, c :| Interrupted(y, z, op, j, c, cfg, Kills) {
      SizedDown(y, z, h, op, j, c, cfg);
    } else if Reopens(y, z, cfg) {
      SizedRecover(y.m.dir, SegmentScanner(cfg.maxRecordSize), cfg);
    } else {
      var j: nat, c :| CrashesReopening(y, z, j, c, cfg, Kills);
      SizedReopening(y, z, j, c, cfg);
    }
  }

  lemma SizedReopening(y: System, z: System, j: nat, c: Dir, cfg: Config)
    requires SizedMachine(y, cfg) && CrashesReopening(y, z, j, c, cfg, Kills)
    ensures SizedMachine(z, cfg)
  {
    hide SizedFiles, Recover, CrashImage;
    SizedRecover(y.m.dir, SegmentScanner(cfg.maxRecordSize), cfg);
    SizedCrash(Recover(y.m.dir, SegmentScanner(cfg.maxRecordSize)).st.trace[j], c, cfg);
  }

  /** The size bound holds in every state of every run. */
  lemma {:induction false} RunSized(ys: seq<System>, cfg: Config, i: nat)
    requires Run(ys, cfg, Kills) && i < |ys|
    ensures SizedMachine(ys[i], cfg)
    decreases i
  {
    hide Moves, SizedFiles;
    if i > 0 {
      RunSized(ys, cfg, i - 1);
      var h := RunGood(ys, cfg, i - 1);
      assert MovesAt(ys, i - 1, cfg, Kills);
      hide Good, SizedMachine;
      SizedMove(ys[i - 1], ys[i], h, cfg);
    } else {
      NothingSized(cfg);
    }
  }

  lemma NothingSized(cfg: Config)
    ensures SizedFiles(map[], cfg)
  {
  }
}
