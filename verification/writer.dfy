/** The operations of the writer goroutine, as functions from state to state. Every directory
    step they take is recorded in the state's trace. */
module WriterOps {
  import opened Bytes
  import opened Records
  import opened History
  import opened Directory
  import opened State

  datatype Request = Request(payloads: seq<Payload>, cancelled: bool)
  datatype Result = Canceled | Assigned(lsns: seq<nat>)

  /** The check AppendBatch makes before queueing a payload. */
  predicate Admitted(p: Payload, cfg: Config) {
    HEADER_SIZE + |p| <= cfg.maxRecordSize
  }

  /** Bytes in a segment file, header included. */
  function SizeOf(d: Dir, base: nat): nat {
    SEGMENT_HEADER + if base in d.files then |d.files[base].body| else 0
  }

  /** Seals the active segment and starts the next one. */
  function Roll(s: St): St
    requires s.w.bases != []
  {
    var s1 := Do(Do(s, Fsync(s.w.Active())), Create(s.w.nextLSN));
    s1.(w := s1.w.(bases := s1.w.bases + [s1.w.nextLSN]))
  }

  /** The roll rule: a segment that holds something and would outgrow the limit is sealed. */
  predicate MustRoll(s: St, p: Payload, cfg: Config)
    requires s.w.bases != []
  {
    var size := SizeOf(s.dir, s.w.Active());
    size > SEGMENT_HEADER && size + HEADER_SIZE + |p| > cfg.maxSegmentSize
  }

  function WriteRecord(s: St, p: Payload, cfg: Config): (r: St)
    requires s.w.bases != []
    ensures r.w.bases != []
  {
    var s1 := if MustRoll(s, p, cfg) then Roll(s) else s;
    var s2 := Do(s1, Write(s1.w.Active(), Frame(Record(s1.w.nextLSN, p))));
    s2.(w := s2.w.(nextLSN := s2.w.nextLSN + 1))
  }

  function WriteRequest(s: St, ps: seq<Payload>, cfg: Config): (r: St)
    requires s.w.bases != []
    ensures r.w.bases != []
    decreases |ps|
  {
    if ps == [] then s else WriteRequest(WriteRecord(s, ps[0], cfg), ps[1..], cfg)
  }

  function Consecutive(first: nat, n: nat): (lsns: seq<nat>)
    ensures |lsns| == n
  {
    seq(n, i requires 0 <= i < n => first + i)
  }

  datatype Written = Written(st: St, results: seq<Result>, wroteAny: bool)

  function WriteBatch(s: St, batch: seq<Request>, cfg: Config): (r: Written)
    requires s.w.bases != []
    ensures r.st.w.bases != [] && |r.results| == |batch|
    decreases |batch|
  {
    if batch == [] then Written(s, [], false)
    else if batch[0].cancelled then
      var rest := WriteBatch(s, batch[1..], cfg);
      Written(rest.st, [Canceled] + rest.results, rest.wroteAny)
    else
      var rest := WriteBatch(WriteRequest(s, batch[0].payloads, cfg), batch[1..], cfg);
      Written(rest.st, [Assigned(Consecutive(s.w.nextLSN, |batch[0].payloads|))] + rest.results, true)
  }

  function Publish(s: St): St
    requires s.w.bases != []
  {
    s.(w := s.w.(lastLSN := if s.w.nextLSN > 0 then s.w.nextLSN - 1 else 0,
                 firstLSN := if s.w.firstLSN == 0 then s.w.bases[0] else s.w.firstLSN))
  }

  function SyncActive(s: St): St
    requires s.w.bases != []
  {
    Do(s, Fsync(s.w.Active()))
  }

  datatype Committed = Committed(st: St, results: seq<Result>)

  /** One group commit. */
  function Commit(s: St, batch: seq<Request>, cfg: Config): (r: Committed)
    requires s.w.bases != []
  {
    var written := WriteBatch(s, batch, cfg);
    if written.wroteAny then
      var s1 := if cfg.policy == SyncInterval then written.st else SyncActive(written.st);
      Committed(Publish(s1), written.results)
    else Committed(written.st, written.results)
  }

  /** How many leading segments end at or below `upTo`; the active one never counts. */
  function Deletable(bases: seq<nat>, upTo: nat): (k: nat)
    ensures k <= |bases| && (bases != [] ==> k < |bases|)
  {
    if |bases| < 2 || bases[1] > upTo then 0 else 1 + Deletable(bases[1..], upTo)
  }

  function Truncate(s: St, upTo: nat): St
    requires s.w.bases != []
  {
    var k := Deletable(s.w.bases, upTo);
    if k == 0 then s
    else
      var s1 := RemoveAll(s, s.w.bases[..k]);
      s1.(w := s1.w.(bases := s.w.bases[k..], firstLSN := s.w.bases[k]))
  }

  /** The last segment whose base is at or below `cut`, 0 if there is none. */
  function BoundaryIndex(bases: seq<nat>, cut: nat): (b: nat)
    requires bases != []
    ensures b < |bases|
  {
    if |bases| == 1 || bases[0] > cut || bases[1] > cut then 0 else 1 + BoundaryIndex(bases[1..], cut)
  }

  datatype Attempt = Attempt(ok: bool, st: St)

  function WriteTemps(s: St, cut: nat, rs: seq<Record>): St
    decreases |rs|
  {
    if rs == [] then s
    else WriteTemps(if rs[0].lsn < cut then s else Do(s, WriteTemp(cut, Frame(rs[0]))), cut, rs[1..])
  }

  /** Builds seg-cut in a temp file from the records of `body` and publishes it by renaming. */
  function RewriteFrom(s: St, body: seq<byte>, cut: nat, cfg: Config): Attempt {
    var scan := ScanAll(body, cfg.maxRecordSize);
    var s1 := WriteTemps(Do(Do(s, RemoveTemp(cut)), CreateTemp(cut)), cut, scan.recs);
    if scan.err.Some? then Attempt(false, Do(s1, RemoveTemp(cut)))
    else Attempt(true, Do(Do(s1, FsyncTemp(cut)), Rename(cut)))
  }

  function CutDeleteBelow(s: St, boundary: nat, cut: nat): St
    requires boundary < |s.w.bases|
  {
    var s1 := RemoveAll(s, s.w.bases[..boundary]);
    s1.(w := s1.w.(bases := s.w.bases[boundary..], firstLSN := cut))
  }

  function CutRewriteBoundary(s: St, boundary: nat, cut: nat, cfg: Config): Attempt
    requires boundary < |s.w.bases|
  {
    var b := s.w.bases[boundary];
    if b !in s.dir.files || (boundary < |s.w.bases| - 1 && !s.dir.files[b].headerOk) then Attempt(false, s)
    else
      var a := RewriteFrom(s, s.dir.files[b].body, cut, cfg);
      if !a.ok then a
      else
        var s1 := RemoveAll(a.st, s.w.bases[..boundary + 1]);
        Attempt(true, s1.(w := s1.w.(bases := [cut] + s.w.bases[boundary + 1..], firstLSN := cut)))
  }

  function CutEverything(s: St): St
    requires s.w.bases != []
  {
    var s1 := Do(Do(s, Remove(s.w.nextLSN)), Create(s.w.nextLSN));
    var s2 := RemoveAll(s1, s.w.bases);
    s2.(w := s2.w.(bases := [s.w.nextLSN], firstLSN := 0))
  }

  function Min(a: nat, b: nat): nat {
    if a < b then a else b
  }

  function Cut(s: St, upTo: nat, cfg: Config): Attempt
    requires s.w.bases != []
  {
    var cut := Min(upTo, s.w.nextLSN);
    if s.w.firstLSN == 0 || cut <= s.w.firstLSN then Attempt(true, s)
    else if cut >= s.w.nextLSN then Attempt(true, CutEverything(s))
    else
      var boundary := BoundaryIndex(s.w.bases, cut);
      if s.w.bases[boundary] == cut then Attempt(true, CutDeleteBelow(s, boundary, cut))
      else CutRewriteBoundary(s, boundary, cut, cfg)
  }
}
