/** When a commit starts a new segment: as late as the size limit allows. */
module Rolls {
  import opened Seqs
  import opened Records
  import opened History
  import opened Directory
  import opened State
  import opened RecoveryIdempotence
  import opened Layout
  import opened Steps
  import opened WriterOps
  import opened Operations
  import opened Cutting

  /** Segment `i` starts with its own first record, which did not fit the segment before it, whose file has 28
      header bytes; and that one is not empty. */
  ghost predicate FullBefore(f: Files, bs: seq<nat>, i: nat, h: seq<Payload>, limit: int)
    requires 0 < i < |bs|
  {
    && 1 <= bs[i] <= |h| && bs[i - 1] in f && bs[i] in f
    && Frame(Record(bs[i], h[bs[i] - 1])) <= f[bs[i]].body && f[bs[i - 1]].body != []
    && 28 + |f[bs[i - 1]].body| + HEADER_SIZE + |h[bs[i] - 1]| > limit
  }

  /** ... for every segment from the `from`-th on. */
  ghost predicate FullBeforeAll(f: Files, bs: seq<nat>, from: nat, h: seq<Payload>, limit: int) {
    0 < from && forall i: nat | from <= i < |bs| :: FullBefore(f, bs, i, h, limit)
  }

  /** A log to which the record after `k` is to be written. */
  ghost predicate Growing(s: St, k: seq<Payload>) {
    && s.w.bases != [] && Ascending(s.w.bases) && s.w.nextLSN == |k| + 1
    && s.dir.files.Keys == Elements(s.w.bases)
    && LastBase(s.w.bases) <= s.w.nextLSN && LastBase(s.w.bases) in s.dir.files
    && (LastBase(s.w.bases) == s.w.nextLSN ==> s.dir.files[LastBase(s.w.bases)].body == [])
  }

  /** A record that goes to the active segment. */
  lemma SameSegment(s: St, p: Payload, cfg: Config, k: seq<Payload>, from: nat, h: seq<Payload>)
    requires Growing(s, k) && k + [p] <= h && !MustRoll(s, p, cfg)
    requires FullBeforeAll(s.dir.files, s.w.bases, from, h, cfg.maxSegmentSize)
    ensures var r := WriteRecord(s, p, cfg);
      && Growing(r, k + [p]) && r.w.bases == s.w.bases
      && FullBeforeAll(r.dir.files, r.w.bases, from, h, cfg.maxSegmentSize)
  {
    hide Frame, Elements;
    var r, bs := WriteRecord(s, p, cfg), s.w.bases;
    forall i: nat | from <= i < |bs|
      ensures FullBefore(r.dir.files, bs, i, h, cfg.maxSegmentSize)
    {
      assert FullBefore(s.dir.files, bs, i, h, cfg.maxSegmentSize);
      assert bs[i - 1] < LastBase(bs);
    }
  }

  lemma ElementsSnoc(bs: seq<nat>, b: nat)
    ensures Elements(bs + [b]) == Elements(bs) + {b}
  {
  }

  /** A record that starts a segment. */
  lemma NewSegment(s: St, p: Payload, cfg: Config, k: seq<Payload>, from: nat, h: seq<Payload>)
    requires Growing(s, k) && k + [p] <= h && MustRoll(s, p, cfg) && from <= |s.w.bases|
    requires FullBeforeAll(s.dir.files, s.w.bases, from, h, cfg.maxSegmentSize)
    ensures var r := WriteRecord(s, p, cfg);
      && Growing(r, k + [p]) && r.w.bases == s.w.bases + [s.w.nextLSN]
      && FullBeforeAll(r.dir.files, r.w.bases, from, h, cfg.maxSegmentSize)
  {
    hide Frame, Elements, WriteRecord;
    var r, bs, next := WriteRecord(s, p, cfg), s.w.bases, s.w.nextLSN;
    NewBase(s, k);
    RollFiles(s, p, cfg);
    NewSegmentGrows(s, r, p, k);
    assert h[next - 1] == (k + [p])[next - 1] == p;
    hide Growing, MustRoll, Ascending, FullBefore;
    forall i: nat | from <= i < |r.w.bases|
      ensures FullBefore(r.dir.files, r.w.bases, i, h, cfg.maxSegmentSize)
    {
      if i < |bs| {
        FullStays(s, r, p, cfg, k, i, h);
      } else {
        FullNew(s, r, p, cfg, k, h);
      }
    }
  }

  lemma NewSegmentGrows(s: St, r: St, p: Payload, k: seq<Payload>)
    requires Growing(s, k) && LastBase(s.w.bases) < s.w.nextLSN
    requires var x, next := LastBase(s.w.bases), s.w.nextLSN;
      && r.dir.files == s.dir.files[x := Synced(s.dir.files[x])][next := File(true, Frame(Record(next, p)), 0)]
      && r.w.bases == s.w.bases + [next] && r.w.nextLSN == next + 1
    ensures Growing(r, k + [p])
  {
    hide Frame;
    ElementsSnoc(s.w.bases, s.w.nextLSN);
    hide Elements;
  }

  lemma FullStays(s: St, r: St, p: Payload, cfg: Config, k: seq<Payload>, i: nat, h: seq<Payload>)
    requires Growing(s, k) && LastBase(s.w.bases) < s.w.nextLSN && s.w.nextLSN !in s.dir.files
    requires var x, next := LastBase(s.w.bases), s.w.nextLSN;
      && r.dir.files == s.dir.files[x := Synced(s.dir.files[x])][next := File(true, Frame(Record(next, p)), 0)]
      && r.w.bases == s.w.bases + [next]
    requires 0 < i < |s.w.bases| && FullBefore(s.dir.files, s.w.bases, i, h, cfg.maxSegmentSize)
    ensures FullBefore(r.dir.files, r.w.bases, i, h, cfg.maxSegmentSize)
  {
    hide Frame, Elements;
  }

  lemma FullNew(s: St, r: St, p: Payload, cfg: Config, k: seq<Payload>, h: seq<Payload>)
    requires Growing(s, k) && LastBase(s.w.bases) < s.w.nextLSN <= |h| && h[s.w.nextLSN - 1] == p && MustRoll(s, p, cfg)
    requires var x, next := LastBase(s.w.bases), s.w.nextLSN;
      && r.dir.files == s.dir.files[x := Synced(s.dir.files[x])][next := File(true, Frame(Record(next, p)), 0)]
      && r.w.bases == s.w.bases + [next]
    ensures FullBefore(r.dir.files, r.w.bases, |s.w.bases|, h, cfg.maxSegmentSize)
  {
    hide Frame, Elements;
  }

  lemma NewBase(s: St, k: seq<Payload>)
    requires Growing(s, k) && s.dir.files[LastBase(s.w.bases)].body != []
    ensures LastBase(s.w.bases) < s.w.nextLSN && s.w.nextLSN !in s.dir.files
  {
  }

  lemma RollFiles(s: St, p: Payload, cfg: Config)
    requires s.w.bases != [] && LastBase(s.w.bases) in s.dir.files && s.w.nextLSN !in s.dir.files && MustRoll(s, p, cfg)
    ensures var r, x, next := WriteRecord(s, p, cfg), LastBase(s.w.bases), s.w.nextLSN;
      && r.dir.files == s.dir.files[x := Synced(s.dir.files[x])][next := File(true, Frame(Record(next, p)), 0)]
      && r.w.bases == s.w.bases + [next] && r.w.nextLSN == next + 1
  {
    hide Frame;
    EmptyUnit(Frame(Record(s.w.nextLSN, p)));
  }

  lemma RecordFills(s: St, p: Payload, cfg: Config, k: seq<Payload>, from: nat, h: seq<Payload>)
    requires s.w.bases != [] && Growing(s, k) && k + [p] <= h && from <= |s.w.bases|
    requires FullBeforeAll(s.dir.files, s.w.bases, from, h, cfg.maxSegmentSize)
    ensures var r := WriteRecord(s, p, cfg);
      && Growing(r, k + [p]) && s.w.bases <= r.w.bases
      && FullBeforeAll(r.dir.files, r.w.bases, from, h, cfg.maxSegmentSize)
  {
    hide Growing, FullBeforeAll, WriteRecord;
    if MustRoll(s, p, cfg) {
      NewSegment(s, p, cfg, k, from, h);
    } else {
      SameSegment(s, p, cfg, k, from, h);
    }
  }

  lemma {:induction false} RequestFills(
      s: St, ps: seq<Payload>, cfg: Config, k: seq<Payload>, from: nat, h: seq<Payload>)
    requires s.w.bases != [] && Growing(s, k) && k + ps <= h && from <= |s.w.bases|
    requires FullBeforeAll(s.dir.files, s.w.bases, from, h, cfg.maxSegmentSize)
    ensures var r := WriteRequest(s, ps, cfg);
      && Growing(r, k + ps) && s.w.bases <= r.w.bases
      && FullBeforeAll(r.dir.files, r.w.bases, from, h, cfg.maxSegmentSize)
    decreases |ps|
  {
    hide Growing, FullBeforeAll, WriteRecord;
    if ps == [] {
      EmptyUnit(k);
    } else {
      HeadTail(ps);
      ConcatAssociates(k, [ps[0]], ps[1..]);
      RecordFills(s, ps[0], cfg, k, from, h);
      RequestFills(WriteRecord(s, ps[0], cfg), ps[1..], cfg, k + [ps[0]], from, h);
    }
  }

  lemma {:induction false} BatchFills(s: St, batch: seq<Request>, cfg: Config, k: seq<Payload>, from: nat,
                                      h: seq<Payload>)
    requires s.w.bases != [] && Growing(s, k) && k + Accepted(batch) <= h && from <= |s.w.bases|
    requires FullBeforeAll(s.dir.files, s.w.bases, from, h, cfg.maxSegmentSize)
    ensures var r := WriteBatch(s, batch, cfg).st;
      && Growing(r, k + Accepted(batch)) && s.w.bases <= r.w.bases
      && FullBeforeAll(r.dir.files, r.w.bases, from, h, cfg.maxSegmentSize)
    decreases |batch|
  {
    hide Growing, FullBeforeAll, WriteRequest;
    if batch == [] {
      EmptyUnit(k);
    } else if batch[0].cancelled {
      EmptyUnit(Accepted(batch[1..]));
      BatchFills(s, batch[1..], cfg, k, from, h);
    } else {
      var ps := batch[0].payloads;
      ConcatAssociates(k, ps, Accepted(batch[1..]));
      RequestFills(s, ps, cfg, k, from, h);
      BatchFills(WriteRequest(s, ps, cfg), batch[1..], cfg, k + ps, from, h);
    }
  }

  lemma SyncFills(s: St, from: nat, h: seq<Payload>, limit: int)
    requires s.w.bases != [] && FullBeforeAll(s.dir.files, s.w.bases, from, h, limit)
    ensures FullBeforeAll(SyncActive(s).dir.files, s.w.bases, from, h, limit) && SyncActive(s).w == s.w
  {
    hide Frame;
    forall i: nat | from <= i < |s.w.bases|
      ensures FullBefore(SyncActive(s).dir.files, s.w.bases, i, h, limit)
    {
      assert FullBefore(s.dir.files, s.w.bases, i, h, limit);
    }
  }

  lemma RunningGrows(s: St, h: seq<Payload>, durable: nat, crash: bool, maxRec: nat)
    requires Running(s, h, durable, crash, maxRec)
    ensures Growing(s, h)
  {
    hide Laid, Storable, Whole, Span, Bygone, Safe;
    RunningWriter(s, h, durable, crash, maxRec);
    PlainParts(s.dir.files, s.w.bases, h, []);
    LaidRange(s.dir.files, Plain(s.w.bases), h);
    hide Elements, Ascending;
    EmptySpan(h, Next(h));
    EmptyUnit(Span(h, Next(h), Next(h)));
  }

  /** A commit starts a segment only when the next record does not fit the active one: each segment it adds starts
      with a record that would have made the one before, which holds records, outgrow the limit. */
  lemma CommitRolls(s: St, h: seq<Payload>, durable: nat, crash: bool, batch: seq<Request>, cfg: Config)
    requires Running(s, h, durable, crash, cfg.maxRecordSize)
    ensures s.w.bases != []
    ensures var r := Commit(s, batch, cfg).st;
      s.w.bases <= r.w.bases
      && forall i: nat | |s.w.bases| <= i < |r.w.bases| ::
           FullBefore(r.dir.files, r.w.bases, i, h + Accepted(batch), cfg.maxSegmentSize)
  {
    hide Running, Growing, WriteBatch, SyncActive, FullBefore, Accepted;
    RunningGrows(s, h, durable, crash, cfg.maxRecordSize);
    RunningWriter(s, h, durable, crash, cfg.maxRecordSize);
    var k, n := h + Accepted(batch), |s.w.bases|;
    BatchFills(s, batch, cfg, h, n, k);
    var t := WriteBatch(s, batch, cfg).st;
    SyncFills(t, n, k, cfg.maxSegmentSize);
  }

  /** What the frames of these payloads take. */
  function FrameBytes(ps: seq<Payload>): nat {
    if ps == [] then 0 else HEADER_SIZE + |ps[0]| + FrameBytes(ps[1..])
  }

  lemma {:induction false} FrameBytesConcat(ps: seq<Payload>, qs: seq<Payload>)
    ensures FrameBytes(ps + qs) == FrameBytes(ps) + FrameBytes(qs)
    decreases |ps|
  {
    if ps == [] {
      EmptyUnit(qs);
    } else {
      assert (ps + qs)[1..] == ps[1..] + qs;
      FrameBytesConcat(ps[1..], qs);
    }
  }

  /** The active segment has room for that many bytes more. */
  predicate Room(s: St, n: nat, limit: int) {
    s.w.bases != [] && LastBase(s.w.bases) in s.dir.files
    && 28 + |s.dir.files[LastBase(s.w.bases)].body| + n <= limit
  }

  lemma RecordStays(s: St, p: Payload, n: nat, cfg: Config)
    requires Room(s, HEADER_SIZE + |p| + n, cfg.maxSegmentSize)
    ensures var r := WriteRecord(s, p, cfg);
      r.w.bases == s.w.bases && Room(r, n, cfg.maxSegmentSize)
  {
    hide Frame;
  }

  lemma {:induction false} RequestStays(s: St, ps: seq<Payload>, n: nat, cfg: Config)
    requires Room(s, FrameBytes(ps) + n, cfg.maxSegmentSize)
    ensures var r := WriteRequest(s, ps, cfg);
      r.w.bases == s.w.bases && Room(r, n, cfg.maxSegmentSize)
    decreases |ps|
  {
    hide WriteRecord;
    if ps != [] {
      RecordStays(s, ps[0], FrameBytes(ps[1..]) + n, cfg);
      RequestStays(WriteRecord(s, ps[0], cfg), ps[1..], n, cfg);
    }
  }

  lemma {:induction false} BatchStays(s: St, batch: seq<Request>, cfg: Config)
    requires Room(s, FrameBytes(Accepted(batch)), cfg.maxSegmentSize)
    ensures WriteBatch(s, batch, cfg).st.w.bases == s.w.bases
    decreases |batch|
  {
    hide WriteRequest, Room;
    if batch == [] {
    } else if batch[0].cancelled {
      EmptyUnit(Accepted(batch[1..]));
      BatchStays(s, batch[1..], cfg);
    } else {
      var ps := batch[0].payloads;
      FrameBytesConcat(ps, Accepted(batch[1..]));
      RequestStays(s, ps, FrameBytes(Accepted(batch[1..])), cfg);
      BatchStays(WriteRequest(s, ps, cfg), batch[1..], cfg);
    }
  }

  /** A commit that fits the active segment, header, what it holds and all frames together, starts none. */
  lemma CommitStays(s: St, batch: seq<Request>, cfg: Config)
    requires s.w.bases != [] && LastBase(s.w.bases) in s.dir.files
    requires 28 + |s.dir.files[LastBase(s.w.bases)].body| + FrameBytes(Accepted(batch)) <= cfg.maxSegmentSize
    ensures Commit(s, batch, cfg).st.w.bases == s.w.bases
  {
    hide WriteBatch, Accepted;
    BatchStays(s, batch, cfg);
  }
}
