/** The log as it runs: an object whose methods change the directory and the index over it, step by
    step. Each method is proved against the function of the same name in WriterOps or Recovery. */
module Engine {
  import opened Wrappers
  import opened Bytes
  import opened Seqs
  import opened Records
  import opened History
  import opened Directory
  import opened State
  import opened WriterOps
  import opened Recovery
  import opened Names
  import opened Scanning

  /** Of the commit `all`, the results `done` are in and the requests `rest` are still ahead. */
  ghost predicate BatchAhead(all: Written, done: seq<Result>, wroteAny: bool, s: St, rest: seq<Request>, cfg: Config) {
    && s.w.bases != []
    && var r := WriteBatch(s, rest, cfg);
    all == Written(r.st, done + r.results, wroteAny || r.wroteAny)
  }

  lemma BatchStep(all: Written, done: seq<Result>, wroteAny: bool, s: St, rest: seq<Request>, cfg: Config)
    requires rest != [] && BatchAhead(all, done, wroteAny, s, rest, cfg)
    ensures if rest[0].cancelled then BatchAhead(all, done + [Canceled], wroteAny, s, rest[1..], cfg)
      else
        BatchAhead(all, done + [Assigned(Consecutive(s.w.nextLSN, |rest[0].payloads|))], true,
                   WriteRequest(s, rest[0].payloads, cfg), rest[1..], cfg)
  {
    hide WriteRequest;
    var t := if rest[0].cancelled then s else WriteRequest(s, rest[0].payloads, cfg);
    var first := if rest[0].cancelled then Canceled else Assigned(Consecutive(s.w.nextLSN, |rest[0].payloads|));
    ConcatAssociates(done, [first], WriteBatch(t, rest[1..], cfg).results);
  }

  lemma WriteNoTemps(s: St, cut: nat)
    ensures WriteTemps(s, cut, []) == s
  {
  }

  /** Writing one more record to the temp file. */
  lemma {:induction false} WriteTempsSnoc(s: St, cut: nat, rs: seq<Record>, r: Record)
    ensures var t := WriteTemps(s, cut, rs);
      WriteTemps(s, cut, rs + [r]) == if r.lsn < cut then t else Do(t, WriteTemp(cut, Frame(r)))
    decreases |rs|
  {
    hide Frame, Do;
    if rs == [] {
      assert rs + [r] == [r] && [r][1..] == [];
    } else {
      assert (rs + [r])[1..] == rs[1..] + [r];
      WriteTempsSnoc(if rs[0].lsn < cut then s else Do(s, WriteTemp(cut, Frame(rs[0]))), cut, rs[1..], r);
    }
  }

  lemma TailOfRest(batch: seq<Request>, i: nat)
    requires i < |batch|
    ensures batch[i..][0] == batch[i] && batch[i..][1..] == batch[i + 1..]
  {
  }

  lemma BatchStart(s: St, batch: seq<Request>, cfg: Config)
    requires s.w.bases != []
    ensures BatchAhead(WriteBatch(s, batch, cfg), [], false, s, batch, cfg)
  {
    hide WriteBatch;
    EmptyUnit(WriteBatch(s, batch, cfg).results);
  }

  lemma BatchDone(all: Written, done: seq<Result>, wroteAny: bool, s: St, cfg: Config)
    requires BatchAhead(all, done, wroteAny, s, [], cfg)
    ensures all == Written(s, done, wroteAny)
  {
    EmptyUnit(done);
  }

  class Wal {
    const cfg: Config
    /** The directory on disk. */
    var dir: Dir
    /** Base LSNs of the segments, the active one last. */
    var segmentBaseLSNs: seq<nat>
    var nextLSN: nat
    var firstLSN: nat
    var lastLSN: nat
    /** Every directory this log has passed through. */
    ghost var trace: seq<Dir>

    constructor (cfg: Config, dir: Dir)
      ensures this.cfg == cfg && View() == St(dir, Writer([], 0, 0, 0), [dir])
    {
      this.cfg := cfg;
      this.dir := dir;
      segmentBaseLSNs, nextLSN, firstLSN, lastLSN := [], 0, 0, 0;
      trace := [dir];
    }

    function Index(): Writer
      reads this
    {
      Writer(segmentBaseLSNs, nextLSN, firstLSN, lastLSN)
    }

    ghost function View(): St
      reads this
    {
      St(dir, Index(), trace)
    }

    function Active(): nat
      reads this
      requires segmentBaseLSNs != []
    {
      segmentBaseLSNs[|segmentBaseLSNs| - 1]
    }

    method Perform(step: Step)
      modifies this`dir, this`trace
      ensures View() == Do(old(View()), step)
    {
      dir := Apply(dir, step);
      trace := trace + [dir];
    }

    // Appending.

    /** The check made of every payload before a batch is queued. */
    method FitsLimit(payloads: seq<Payload>) returns (ok: bool)
      ensures ok <==> forall i | 0 <= i < |payloads| :: |Frame(Record(0, payloads[i]))| <= cfg.maxRecordSize
      ensures ok <==> forall i | 0 <= i < |payloads| :: Admitted(payloads[i], cfg)
    {
      hide Frame;
      for i := 0 to |payloads|
        invariant forall j | 0 <= j < i :: HEADER_SIZE + |payloads[j]| <= cfg.maxRecordSize
      {
        if HEADER_SIZE + |payloads[i]| > cfg.maxRecordSize {
          assert |Frame(Record(0, payloads[i]))| > cfg.maxRecordSize;
          return false;
        }
      }
      return true;
    }

    method RollSegment(baseLSN: nat)
      requires segmentBaseLSNs != [] && baseLSN == nextLSN
      modifies this
      ensures View() == Roll(old(View()))
    {
      Perform(Fsync(Active()));
      Perform(Create(baseLSN));
      segmentBaseLSNs := segmentBaseLSNs + [baseLSN];
    }

    method AppendRecord(lsn: nat, payload: Payload)
      requires segmentBaseLSNs != [] && lsn == nextLSN && |payload| <= MAX_PAYLOAD
      modifies this
      ensures View().(w := Index().(nextLSN := lsn + 1)) == WriteRecord(old(View()), payload, cfg)
      ensures nextLSN == lsn && segmentBaseLSNs != []
    {
      hide Frame, Apply, SizeOf;
      var size, needed := SizeOf(dir, Active()), HEADER_SIZE + |payload|;
      if size > SEGMENT_HEADER && size + needed > cfg.maxSegmentSize {
        RollSegment(lsn);
      }
      var ok, encoded := Encode([], lsn, payload);
      EmptyUnit(Frame(Record(lsn, payload)));
      Perform(Write(Active(), encoded));
    }

    method AppendPayloads(payloads: seq<Payload>) returns (assignedLSNs: seq<nat>)
      requires segmentBaseLSNs != [] && forall i | 0 <= i < |payloads| :: |payloads[i]| <= MAX_PAYLOAD
      modifies this
      ensures View() == WriteRequest(old(View()), payloads, cfg) && segmentBaseLSNs != []
      ensures assignedLSNs == Consecutive(old(nextLSN), |payloads|)
    {
      hide WriteRecord;
      assignedLSNs := [];
      for i := 0 to |payloads|
        invariant segmentBaseLSNs != []
        invariant WriteRequest(View(), payloads[i..], cfg) == WriteRequest(old(View()), payloads, cfg)
        invariant nextLSN == old(nextLSN) + i && assignedLSNs == Consecutive(old(nextLSN), i)
      {
        var lsn := nextLSN;
        assert payloads[i..][0] == payloads[i] && payloads[i..][1..] == payloads[i + 1..];
        AppendRecord(lsn, payloads[i]);
        nextLSN := nextLSN + 1;
        assignedLSNs := assignedLSNs + [lsn];
      }
    }

    method PublishLastLSN()
      requires segmentBaseLSNs != []
      modifies this
      ensures View() == Publish(old(View()))
    {
      lastLSN := if nextLSN > 0 then nextLSN - 1 else 0;
      if firstLSN == 0 {
        firstLSN := segmentBaseLSNs[0];
      }
    }

    method SyncActiveSegment()
      requires segmentBaseLSNs != []
      modifies this
      ensures View() == SyncActive(old(View()))
    {
      Perform(Fsync(Active()));
    }

    /** Syncs what a commit wrote, unless the interval flusher does, and publishes the new bounds. */
    method FinishBatch()
      requires segmentBaseLSNs != []
      modifies this
      ensures var s := old(View());
        View() == Publish(if cfg.policy == SyncInterval then s else SyncActive(s))
    {
      if cfg.policy != SyncInterval {
        SyncActiveSegment();
      }
      PublishLastLSN();
    }

    /** Writes the requests that are not cancelled and fills in what each of them is told. */
    method WriteAll(batch: seq<Request>, results: array<Result>) returns (wroteAny: bool)
      requires segmentBaseLSNs != [] && results.Length == |batch|
      requires forall i, j | 0 <= i < |batch| && 0 <= j < |batch[i].payloads| :: |batch[i].payloads[j]| <= MAX_PAYLOAD
      modifies this, results
      ensures segmentBaseLSNs != []
      ensures WriteBatch(old(View()), batch, cfg) == Written(View(), results[..], wroteAny)
    {
      hide WriteRequest, WriteBatch, BatchAhead;
      wroteAny := false;
      ghost var all := WriteBatch(View(), batch, cfg);
      BatchStart(View(), batch, cfg);
      assert results[..0] == [] && batch[0..] == batch;
      for i := 0 to |batch|
        invariant segmentBaseLSNs != []
        invariant BatchAhead(all, results[..i], wroteAny, View(), batch[i..], cfg)
      {
        TailOfRest(batch, i);
        BatchStep(all, results[..i], wroteAny, View(), batch[i..], cfg);
        if batch[i].cancelled {
          results[i] := Canceled;
        } else {
          var assignedLSNs := AppendPayloads(batch[i].payloads);
          results[i] := Assigned(assignedLSNs);
          wroteAny := true;
        }
        assert results[..i + 1] == results[..i] + [results[i]];
      }
      assert results[..] == results[..|batch|];
      BatchDone(all, results[..], wroteAny, View(), cfg);
    }

    /** One group commit; `results` is filled in request order. */
    method CommitBatch(batch: seq<Request>) returns (results: array<Result>)
      requires segmentBaseLSNs != []
      requires forall i, j | 0 <= i < |batch| && 0 <= j < |batch[i].payloads| :: |batch[i].payloads[j]| <= MAX_PAYLOAD
      modifies this
      ensures fresh(results)
      ensures var r := Commit(old(View()), batch, cfg);
        View() == r.st && results[..] == r.results
    {
      hide WriteBatch, Publish, SyncActive;
      results := new Result[|batch|](_ => Canceled);
      var wroteAny := WriteAll(batch, results);
      if wroteAny {
        FinishBatch();
      }
    }

    // Truncation.

    method RemoveSegmentFile(baseLSN: nat)
      modifies this`dir, this`trace
      ensures View() == Do(old(View()), Remove(baseLSN))
    {
      Perform(Remove(baseLSN));
    }

    method RemoveSegmentFiles(baseLSNs: seq<nat>, n: nat)
      requires n <= |baseLSNs|
      modifies this`dir, this`trace
      ensures View() == RemoveAll(old(View()), baseLSNs[..n])
    {
      for i := 0 to n
        invariant RemoveAll(View(), baseLSNs[i..n]) == RemoveAll(old(View()), baseLSNs[..n])
      {
        assert baseLSNs[i..n][0] == baseLSNs[i] && baseLSNs[i..n][1..] == baseLSNs[i + 1..n];
        RemoveSegmentFile(baseLSNs[i]);
      }
    }

    method DoTruncate(upTo: nat)
      requires segmentBaseLSNs != []
      modifies this
      ensures View() == Truncate(old(View()), upTo)
    {
      var baseLSNs := segmentBaseLSNs;
      var deletable, i := 0, 0;
      while i + 1 < |baseLSNs| && baseLSNs[i + 1] <= upTo
        invariant i < |baseLSNs| && deletable == i
        invariant Deletable(baseLSNs, upTo) == i + Deletable(baseLSNs[i..], upTo)
      {
        assert baseLSNs[i..][1..] == baseLSNs[i + 1..];
        deletable := i + 1;
        i := i + 1;
      }
      assert Deletable(baseLSNs, upTo) == deletable;
      if deletable == 0 {
        return;
      }
      RemoveSegmentFiles(baseLSNs, deletable);
      segmentBaseLSNs := segmentBaseLSNs[deletable..];
      firstLSN := segmentBaseLSNs[0];
    }

    // Cuts.

    /** The last segment whose base is at or below `cut`. */
    method FindBoundary(baseLSNs: seq<nat>, cut: nat) returns (boundary: nat)
      requires baseLSNs != []
      ensures boundary == BoundaryIndex(baseLSNs, cut)
    {
      boundary := 0;
      for i := 0 to |baseLSNs|
        invariant boundary == (if i == 0 then 0 else i - 1) && (i > 0 ==> baseLSNs[boundary] <= cut)
        invariant BoundaryIndex(baseLSNs, cut) == boundary + BoundaryIndex(baseLSNs[boundary..], cut)
      {
        if baseLSNs[i] > cut {
          return;
        }
        if i > 0 {
          assert baseLSNs[i - 1..][1..] == baseLSNs[i..];
        }
        boundary := i;
      }
    }

    /** Builds seg-cut in a temp file out of the records a scan of `body` finds, and publishes it. */
    method RewriteSegment(body: seq<byte>, cut: nat) returns (ok: bool)
      modifies this`dir, this`trace
      ensures var a := RewriteFrom(old(View()), body, cut, cfg);
        ok == a.ok && View() == a.st
    {
      Perform(RemoveTemp(cut));
      Perform(CreateTemp(cut));
      ghost var start, seen: seq<Record> := View(), [];
      ghost var all := ScanAll(body, cfg.maxRecordSize);
      AheadStart(body, cfg.maxRecordSize);
      var scanner := new Scanner(body, cfg.maxRecordSize);
      hide Decode, Frame, Apply, Ahead, Advances, ScanAll, WriteTemps;
      WriteNoTemps(start, cut);
      ghost var rest, offset := scanner.source, scanner.validBytes;
      var more := scanner.Next();
      AheadStep(all, seen, offset, rest, cfg.maxRecordSize, more, scanner.firstErr, scanner.Current(),
                scanner.source, scanner.validBytes);
      while more
        invariant scanner.Valid() && fresh(scanner) && fresh(scanner.payloadBuf)
        invariant scanner.maxRecBytes == cfg.maxRecordSize && Index() == old(Index())
        invariant View() == WriteTemps(start, cut, seen)
        invariant if more
          then
            && scanner.firstErr == None
            && Ahead(all, seen + [scanner.Current()], scanner.validBytes, scanner.source, cfg.maxRecordSize)
          else all == Scan(seen, scanner.validBytes, scanner.firstErr)
        decreases if more then |scanner.source| + 1 else 0
      {
        var scanned := scanner.Current();
        WriteTempsSnoc(start, cut, seen, scanned);
        if scanned.lsn >= cut {
          Perform(WriteTemp(cut, Frame(scanned)));
        }
        seen := seen + [scanned];
        rest, offset := scanner.source, scanner.validBytes;
        more := scanner.Next();
        AheadStep(all, seen, offset, rest, cfg.maxRecordSize, more, scanner.firstErr, scanner.Current(),
                  scanner.source, scanner.validBytes);
      }
      if scanner.firstErr.Some? {
        Perform(RemoveTemp(cut));
        return false;
      }
      Perform(FsyncTemp(cut));
      Perform(Rename(cut));
      return true;
    }

    method DeleteBelow(boundary: nat, cut: nat)
      requires boundary < |segmentBaseLSNs|
      modifies this
      ensures View() == CutDeleteBelow(old(View()), boundary, cut)
    {
      RemoveSegmentFiles(segmentBaseLSNs, boundary);
      segmentBaseLSNs := segmentBaseLSNs[boundary..];
      firstLSN := cut;
    }

    method RewriteBoundary(boundary: nat, cut: nat) returns (ok: bool)
      requires boundary < |segmentBaseLSNs|
      modifies this
      ensures var a := CutRewriteBoundary(old(View()), boundary, cut, cfg);
        ok == a.ok && View() == a.st
    {
      var isActive := boundary == |segmentBaseLSNs| - 1;
      var base := segmentBaseLSNs[boundary];
      if base !in dir.files || (!isActive && !dir.files[base].headerOk) {
        return false;
      }
      hide RewriteFrom, RemoveAll;
      ok := RewriteSegment(dir.files[base].body, cut);
      if ok {
        RemoveSegmentFiles(segmentBaseLSNs, boundary + 1);
        segmentBaseLSNs := [cut] + segmentBaseLSNs[boundary + 1..];
        firstLSN := cut;
      }
    }

    method CutAll()
      requires segmentBaseLSNs != []
      modifies this
      ensures View() == CutEverything(old(View()))
    {
      Perform(Remove(nextLSN));
      Perform(Create(nextLSN));
      assert segmentBaseLSNs[..|segmentBaseLSNs|] == segmentBaseLSNs;
      RemoveSegmentFiles(segmentBaseLSNs, |segmentBaseLSNs|);
      segmentBaseLSNs := [nextLSN];
      firstLSN := 0;
    }

    method DoCut(upTo: nat) returns (ok: bool)
      requires segmentBaseLSNs != []
      modifies this
      ensures var a := Cut(old(View()), upTo, cfg);
        ok == a.ok && View() == a.st
    {
      hide CutEverything, CutDeleteBelow, CutRewriteBoundary, BoundaryIndex;
      var cut := if upTo < nextLSN then upTo else nextLSN;
      ok := true;
      if firstLSN == 0 || cut <= firstLSN {
        return;
      }
      if cut >= nextLSN {
        CutAll();
        return;
      }
      var boundary := FindBoundary(segmentBaseLSNs, cut);
      if segmentBaseLSNs[boundary] == cut {
        DeleteBelow(boundary, cut);
      } else {
        ok := RewriteBoundary(boundary, cut);
      }
    }

    // Opening.

    method RemoveStaleTempFiles(temps: seq<nat>)
      modifies this`dir, this`trace
      ensures View() == RemoveTemps(old(View()), temps)
    {
      for i := 0 to |temps|
        invariant RemoveTemps(View(), temps[i..]) == RemoveTemps(old(View()), temps)
      {
        assert temps[i..][1..] == temps[i + 1..];
        Perform(RemoveTemp(temps[i]));
      }
    }

    method InitEmptyLog()
      modifies this
      ensures View() == Do(old(View()), Create(1)).(w := Writer([1], 1, old(firstLSN), old(lastLSN)))
    {
      Perform(Create(1));
      segmentBaseLSNs, nextLSN := [1], 1;
    }

    /** Closes and deletes the segments in the order given. */
    method RemoveOpened(segs: seq<Opened>)
      modifies this`dir, this`trace
      ensures View() == RemoveAll(old(View()), Bases(segs))
    {
      for i := 0 to |segs|
        invariant RemoveAll(View(), Bases(segs)[i..]) == RemoveAll(old(View()), Bases(segs))
      {
        assert Bases(segs)[i..][1..] == Bases(segs)[i + 1..];
        RemoveSegmentFile(segs[i].base);
      }
    }

    /** A base below the expected one is an interrupted cut: the segments collected so far are
        superseded and go. A base above it is a gap. */
    method ReconcileBoundary(segs: seq<Opened>, base: nat, expectedBase: nat) returns (ok: bool, rest: seq<Opened>)
      requires base != expectedBase
      modifies this`dir, this`trace
      ensures ok == (base < expectedBase) && rest == if ok then [] else segs
      ensures View() == if ok then RemoveAll(old(View()), Bases(segs)) else old(View())
    {
      if base > expectedBase {
        return false, segs;
      }
      RemoveOpened(segs);
      return true, [];
    }

    /** Opens and scans one listed segment, the one that should start at `expectedBase`. */
    method OpenAndScan(names: seq<nat>, i: nat, segs: seq<Opened>, expectedBase: nat)
        returns (ok: bool, collected: seq<Opened>, nextBase: nat)
      requires i < |names|
      modifies this`dir, this`trace
      ensures var scan := SegmentScanner(cfg.maxRecordSize);
        Collect(old(View()), names, i, segs, expectedBase, scan)
          == if ok then Collect(View(), names, i + 1, collected, nextBase, scan)
            else Collected(false, View(), collected)
    {
      ghost var scan := SegmentScanner(cfg.maxRecordSize);
      hide RemoveAll, ScanSegment, Bases;
      var base := names[i];
      collected, nextBase := segs, expectedBase;
      if base !in dir.files || !dir.files[base].headerOk {
        return false, collected, nextBase;
      }
      var segment := new Segment.Open(base, dir.files[base]);
      if i > 0 && base != expectedBase {
        ok, collected := ReconcileBoundary(segs, base, expectedBase);
        if !ok {
          return;
        }
      }
      var res := segment.Scan(cfg.maxRecordSize);
      if res.err.Some? && i != |names| - 1 {
        return false, collected, nextBase;
      }
      return true, collected + [Opened(base, res)], base + res.records;
    }

    /** Opens and scans the listed segments in order. */
    method OpenAndScanSegments(names: seq<nat>) returns (ok: bool, segs: seq<Opened>)
      modifies this`dir, this`trace
      ensures var c := Collect(old(View()), names, 0, [], 0, SegmentScanner(cfg.maxRecordSize));
        ok == c.ok && View() == c.st && (ok ==> segs == c.segs)
    {
      ghost var scan := SegmentScanner(cfg.maxRecordSize);
      ghost var c := Collect(View(), names, 0, [], 0, scan);
      hide ScanSegment, Collect;
      segs := [];
      var expectedBase: nat := 0;
      for i := 0 to |names|
        invariant c == Collect(View(), names, i, segs, expectedBase, scan)
      {
        ok, segs, expectedBase := OpenAndScan(names, i, segs, expectedBase);
        if !ok {
          return;
        }
      }
      CollectEnd(View(), names, segs, expectedBase, scan);
      return true, segs;
    }

    method TruncateTornTail(segs: seq<Opened>)
      requires segs != []
      modifies this`dir, this`trace
      ensures View() == ChopTornTail(old(View()), segs)
    {
      var last := segs[|segs| - 1];
      if last.res.err.Some? {
        Perform(Chop(last.base, last.res.validEnd));
      }
    }

    method ComputeBounds(segs: seq<Opened>) returns (firstLSN: nat, lastLSN: nat)
      ensures firstLSN == FirstOf(segs) && lastLSN == LastOf(segs)
    {
      firstLSN, lastLSN := 0, 0;
      for i := 0 to |segs|
        invariant FirstOf(segs) == if firstLSN > 0 then firstLSN else FirstOf(segs[i..])
        invariant lastLSN == LastOf(segs[..i])
      {
        assert segs[i..][1..] == segs[i + 1..] && segs[..i + 1][..i] == segs[..i];
        if segs[i].res.records > 0 {
          if firstLSN == 0 {
            firstLSN := segs[i].base;
          }
          lastLSN := segs[i].res.lastLSN;
        } else {
          LastBefore(segs[..i + 1]);
        }
      }
      assert segs[..|segs|] == segs;
    }

    /** Deletes the empty segments at the end, and all but the first if there is no record at all. */
    method PruneTrailing(segs: seq<Opened>, lastLSN: nat) returns (kept: seq<Opened>)
      requires segs != []
      modifies this`dir, this`trace
      ensures var p := PruneEmptyTrailing(old(View()), segs, lastLSN);
        View() == p.st && kept == p.segs
    {
      hide LastWithRecords, RemoveAll, Backwards, Bases, Apply;
      var activeIdx := |segs| - 1;
      var i := |segs|;
      while i > 0
        invariant 0 <= i <= |segs| && activeIdx == |segs| - 1
        invariant forall j | i <= j < |segs| :: segs[j].res.records == 0
      {
        i := i - 1;
        if segs[i].res.records > 0 {
          activeIdx := i;
          break;
        }
      }
      ActiveIs(segs, activeIdx);
      var end := |segs|;
      assert segs[activeIdx + 1..end] == segs[activeIdx + 1..];
      while end > activeIdx + 1
        invariant activeIdx + 1 <= end <= |segs|
        invariant RemoveAll(View(), Backwards(Bases(segs[activeIdx + 1..end])))
               == RemoveAll(old(View()), Backwards(Bases(segs[activeIdx + 1..])))
      {
        end := end - 1;
        BackwardsLast(segs, activeIdx + 1, end);
        RemoveFirst(View(), segs[end].base, Backwards(Bases(segs[activeIdx + 1..end])));
        RemoveSegmentFile(segs[end].base);
      }
      assert segs[activeIdx + 1..end] == [];
      RemoveNone(View());
      kept := segs[..activeIdx + 1];
      if lastLSN == 0 {
        RemoveOpened(kept[1..]);
        kept := kept[..1];
      }
    }

    method InstallState(segs: seq<Opened>, firstLSN: nat, lastLSN: nat)
      requires segs != []
      modifies this
      ensures View() == Install(old(View()), segs, firstLSN, lastLSN)
    {
      var activeBaseLSN := segs[|segs| - 1].base;
      segmentBaseLSNs := Bases(segs);
      this.firstLSN := firstLSN;
      this.lastLSN := Max(lastLSN, Before(activeBaseLSN));
      nextLSN := Max(lastLSN + 1, activeBaseLSN);
    }

    /** Opens whatever the directory holds. */
    method Recover() returns (ok: bool)
      requires View() == St(dir, Writer([], 0, 0, 0), [dir])
      modifies this
      ensures var o := Recovery.Recover(old(dir), SegmentScanner(cfg.maxRecordSize));
        ok == o.ok && View() == o.st
    {
      ghost var d := dir;
      hide RemoveTemps, RemoveAll, ScanSegment;
      var temps := ListBases(dir.temps.Keys);
      ListingUnique(temps, SortedKeys(d.temps.Keys), d.temps.Keys);
      RemoveStaleTempFiles(temps);
      var names := ListBases(dir.files.Keys);
      ListingUnique(names, SortedKeys(dir.files.Keys), dir.files.Keys);
      ok := RecoverFrom(names);
    }

    method RecoverFrom(names: seq<nat>) returns (ok: bool)
      requires Index() == Writer([], 0, 0, 0)
      modifies this
      ensures var o := RecoverListed(old(View()), names, SegmentScanner(cfg.maxRecordSize));
        ok == o.ok && View() == o.st
    {
      hide RemoveAll, ScanSegment, Collect, ChopTornTail, PruneEmptyTrailing, Install, FirstOf, LastOf;
      if names == [] {
        InitEmptyLog();
        return true;
      }
      var segs;
      ok, segs := OpenAndScanSegments(names);
      if !ok {
        return;
      }
      TruncateTornTail(segs);
      var first, last := ComputeBounds(segs);
      segs := PruneTrailing(segs, last);
      InstallState(segs, first, last);
    }
  }

  lemma CollectEnd(s: St, names: seq<nat>, segs: seq<Opened>, expected: nat, scan: BodyScanner)
    ensures Collect(s, names, |names|, segs, expected, scan) == Collected(true, s, segs)
  {
  }

  lemma LastBefore(segs: seq<Opened>)
    requires segs != [] && segs[|segs| - 1].res.records == 0
    ensures LastOf(segs) == LastOf(segs[..|segs| - 1])
  {
  }

  /** The segment the search for the last record stops at. */
  lemma ActiveIs(segs: seq<Opened>, active: nat)
    requires active < |segs| && (segs[active].res.records > 0 || active == |segs| - 1)
    requires forall j | active < j < |segs| :: segs[j].res.records == 0
    requires segs[active].res.records > 0 || forall j | 0 <= j < |segs| :: segs[j].res.records == 0
    ensures active == if LastWithRecords(segs) < 0 then |segs| - 1 else LastWithRecords(segs)
  {
    var found := LastWithRecords(segs);
    hide LastWithRecords;
  }

  lemma RemoveFirst(s: St, b: nat, rest: seq<nat>)
    ensures RemoveAll(s, [b] + rest) == RemoveAll(Do(s, Remove(b)), rest)
  {
    hide Do;
    TailOfCons(b, rest);
  }

  lemma RemoveNone(s: St)
    ensures RemoveAll(s, Backwards(Bases([]))) == s
  {
  }

  lemma BackwardsLast(segs: seq<Opened>, from: nat, end: nat)
    requires from <= end < |segs|
    ensures Backwards(Bases(segs[from..end + 1])) == [segs[end].base] + Backwards(Bases(segs[from..end]))
  {
    var bs := Bases(segs[from..end + 1]);
    assert bs[..|bs| - 1] == Bases(segs[from..end]);
  }
}
