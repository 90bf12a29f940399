/** The writer's index over the directory, and the trace of directory images an operation passes through. */
module State {
  import opened Bytes
  import opened Wrappers
  import opened Records
  import opened Directory

  const SEGMENT_HEADER: nat := 28

  datatype SyncPolicy = SyncImmediate | SyncBatched | SyncInterval

  datatype Config = Config(maxSegmentSize: int, maxRecordSize: nat, policy: SyncPolicy)

  /** The active segment is the last of `bases`. */
  datatype Writer = Writer(bases: seq<nat>, nextLSN: nat, firstLSN: nat, lastLSN: nat) {
    function Active(): nat
      requires bases != []
    {
      bases[|bases| - 1]
    }
  }

  /** `trace` collects the directory after every single step: a crash can fall on any of them. */
  datatype St = St(dir: Dir, w: Writer, trace: seq<Dir>)

  function Do(s: St, step: Step): St {
    var d := Apply(s.dir, step);
    s.(dir := d, trace := s.trace + [d])
  }

  /** Removes files one at a time, in the order given. */
  function RemoveAll(s: St, bases: seq<nat>): St
    decreases |bases|
  {
    if bases == [] then s else RemoveAll(Do(s, Remove(bases[0])), bases[1..])
  }

  datatype ScanResult = ScanResult(err: Option<ScanError>, records: nat, lastLSN: nat, validEnd: nat)

  /** What Segment.Scan reports of a segment body; `validEnd` counts from the end of the header. */
  function ScanSegment(body: seq<byte>, maxRec: nat): ScanResult {
    var s := ScanAll(body, maxRec);
    ScanResult(s.err, |s.recs|, if s.recs == [] then 0 else s.recs[|s.recs| - 1].lsn, s.offset)
  }

  /** Recovery only depends on what the scan of a segment body reports. */
  type BodyScanner = seq<byte> -> ScanResult

  function SegmentScanner(maxRec: nat): BodyScanner {
    (body: seq<byte>) => ScanSegment(body, maxRec)
  }
}
