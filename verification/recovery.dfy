/** Recovery: what Open does with whatever directory it finds. */
module Recovery {
  import opened Directory
  import opened State

  /** An open segment and the result of scanning it. */
  datatype Opened = Opened(base: nat, res: ScanResult)

  function Bases(segs: seq<Opened>): (bs: seq<nat>)
    ensures |bs| == |segs|
  {
    seq(|segs|, i requires 0 <= i < |segs| => segs[i].base)
  }

  datatype Collected = Collected(ok: bool, st: St, segs: seq<Opened>)

  /** The loop over the listing: segments must be contiguous; a base below the expected one
      finishes an interrupted cut; only the last segment may end badly. */
  function Collect(s: St, names: seq<nat>, i: nat, segs: seq<Opened>, expected: nat, scan: BodyScanner): (c: Collected)
    requires i <= |names|
    ensures c.ok && (segs != [] || i < |names|) ==> c.segs != []
    decreases |names| - i
  {
    if i == |names| then Collected(true, s, segs)
    else
      var b := names[i];
      if b !in s.dir.files || !s.dir.files[b].headerOk then Collected(false, s, segs)
      else if i > 0 && b > expected then Collected(false, s, segs)
      else
        var overlap := i > 0 && b < expected;
        var s1 := if overlap then RemoveAll(s, Bases(segs)) else s;
        var segs1 := if overlap then [] else segs;
        var res := scan(s.dir.files[b].body);
        if res.err.Some? && i != |names| - 1 then Collected(false, s1, segs1)
        else Collect(s1, names, i + 1, segs1 + [Opened(b, res)], b + res.records, scan)
  }

  function ChopTornTail(s: St, segs: seq<Opened>): St
    requires segs != []
  {
    var last := segs[|segs| - 1];
    if last.res.err.None? then s else Do(s, Chop(last.base, last.res.validEnd))
  }

  /** The base of the first segment with records, 0 if there is none; a base of 0 is taken for none. */
  function FirstOf(segs: seq<Opened>): nat {
    if segs == [] then 0
    else if segs[0].res.records > 0 && segs[0].base > 0 then segs[0].base
    else FirstOf(segs[1..])
  }

  /** The index of the last segment with records, -1 if there is none. */
  function LastWithRecords(segs: seq<Opened>): (i: int)
    ensures -1 <= i < |segs|
    ensures i >= 0 ==> segs[i].res.records > 0
    ensures forall j | i < j < |segs| :: segs[j].res.records == 0
  {
    if segs == [] then -1
    else if segs[|segs| - 1].res.records > 0 then |segs| - 1
    else LastWithRecords(segs[..|segs| - 1])
  }

  function LastOf(segs: seq<Opened>): nat {
    var i := LastWithRecords(segs);
    if i < 0 then 0 else segs[i].res.lastLSN
  }

  /** The same bases, last one first. */
  function Backwards(bs: seq<nat>): seq<nat> {
    if bs == [] then [] else [bs[|bs| - 1]] + Backwards(bs[..|bs| - 1])
  }

  datatype Pruned = Pruned(st: St, segs: seq<Opened>)

  /** Deletes empty segments above the active one; an all-empty log collapses to its first segment. */
  function PruneEmptyTrailing(s: St, segs: seq<Opened>, lastLSN: nat): (p: Pruned)
    requires segs != []
    ensures p.segs != []
  {
    var found := LastWithRecords(segs);
    var active := if found < 0 then |segs| - 1 else found;
    var s1 := RemoveAll(s, Backwards(Bases(segs[active + 1..])));
    var kept := segs[..active + 1];
    if lastLSN == 0 then Pruned(RemoveAll(s1, Bases(kept[1..])), kept[..1]) else Pruned(s1, kept)
  }

  function Max(a: nat, b: nat): nat {
    if a < b then b else a
  }

  /** One below, in 64-bit unsigned arithmetic. */
  function Before(n: nat): nat {
    if n == 0 then 0xFFFF_FFFF_FFFF_FFFF else n - 1
  }

  function Install(s: St, segs: seq<Opened>, firstLSN: nat, lastLSN: nat): St
    requires segs != []
  {
    var activeBase := segs[|segs| - 1].base;
    s.(w := Writer(Bases(segs), Max(lastLSN + 1, activeBase), firstLSN, Max(lastLSN, Before(activeBase))))
  }

  datatype Outcome = Outcome(ok: bool, st: St)

  function RemoveTemps(s: St, temps: seq<nat>): St
    decreases |temps|
  {
    if temps == [] then s else RemoveTemps(Do(s, RemoveTemp(temps[0])), temps[1..])
  }

  /** Everything from listing the directory to installing the writer. */
  function RecoverListed(s: St, names: seq<nat>, scan: BodyScanner): Outcome {
    if names == [] then
      var s1 := Do(s, Create(1));
      Outcome(true, s1.(w := Writer([1], 1, 0, 0)))
    else
      var c := Collect(s, names, 0, [], 0, scan);
      if !c.ok then Outcome(false, c.st)
      else
        var s1 := ChopTornTail(c.st, c.segs);
        var lastLSN := LastOf(c.segs);
        var p := PruneEmptyTrailing(s1, c.segs, lastLSN);
        Outcome(true, Install(p.st, p.segs, FirstOf(c.segs), lastLSN))
  }

  ghost function Recover(d: Dir, scan: BodyScanner): Outcome {
    var s := RemoveTemps(St(d, Writer([], 0, 0, 0), [d]), SortedKeys(d.temps.Keys));
    RecoverListed(s, SortedKeys(s.dir.files.Keys), scan)
  }
}
