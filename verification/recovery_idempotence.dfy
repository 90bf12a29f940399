/** The rest of recovery in closed form, and the theorem that a crash inside recovery changes nothing. */
module RecoveryIdempotence {
  import opened Wrappers
  import opened Bytes
  import opened Records
  import opened Directory
  import opened State
  import opened Recovery
  import opened RecoveryTheorems

  /** The segments that survive reconciliation: they follow one another without gap or overlap. */
  predicate Contiguous(g: Files, kb: seq<nat>, scan: BodyScanner) {
    && kb != [] && Listed(g, kb)
    && forall i | 0 <= i < |kb| - 1 :: Joined(g, kb, i, scan)
  }

  predicate Joined(g: Files, kb: seq<nat>, i: nat, scan: BodyScanner)
    requires Listed(g, kb) && i < |kb| - 1
  {
    Res(g, kb[i], scan).err.None? && kb[i + 1] == End(g, kb[i], scan)
  }

  /** Records carry LSN 1 or more. */
  predicate Numbered(g: Files, scan: BodyScanner) {
    forall b | b in g :: Res(g, b, scan).records > 0 ==> Res(g, b, scan).lastLSN >= 1
  }

  function LastBase(kb: seq<nat>): nat
    requires kb != []
  {
    kb[|kb| - 1]
  }

  /** The trailing segment goes when it is empty and not alone. */
  predicate PrunesLast(g: Files, kb: seq<nat>, scan: BodyScanner)
    requires kb != [] && LastBase(kb) in g
  {
    |kb| > 1 && Res(g, LastBase(kb), scan).records == 0
  }

  function FinalBases(g: Files, kb: seq<nat>, scan: BodyScanner): (bs: seq<nat>)
    requires kb != [] && LastBase(kb) in g
    ensures bs != []
  {
    if PrunesLast(g, kb, scan) then kb[..|kb| - 1] else kb
  }

  function Mended(g: Files, b: nat, scan: BodyScanner): Files
    requires b in g
  {
    if Res(g, b, scan).err.None? then g else g[b := Chopped(g[b], Res(g, b, scan).validEnd)]
  }

  function FinalFiles(g: Files, kb: seq<nat>, scan: BodyScanner): Files
    requires kb != [] && LastBase(kb) in g
  {
    var c := Mended(g, LastBase(kb), scan);
    if PrunesLast(g, kb, scan) then c - {LastBase(kb)} else c
  }

  function LastLSNOf(r: ScanResult): nat {
    if r.records == 0 then 0 else r.lastLSN
  }

  /** The first LSN of a contiguous listing. */
  function FirstIn(g: Files, kb: seq<nat>, scan: BodyScanner): nat
    requires Contiguous(g, kb, scan)
  {
    if Res(g, kb[0], scan).records == 0 then 0
    else if kb[0] > 0 then kb[0]
    else if |kb| > 1 && Res(g, kb[1], scan).records > 0 then kb[1]
    else 0
  }

  function FinalWriter(g: Files, kb: seq<nat>, scan: BodyScanner): Writer
    requires Contiguous(g, kb, scan)
  {
    var bs := FinalBases(g, kb, scan);
    var last := LastLSNOf(Res(g, LastBase(bs), scan));
    Writer(bs, Max(last + 1, LastBase(bs)), FirstIn(g, kb, scan), Max(last, Before(LastBase(bs))))
  }

  /** Records are there, but the last one has LSN 0, which is taken for none: all segments but the first go. */
  predicate Collapses(g: Files, kb: seq<nat>, scan: BodyScanner)
    requires Contiguous(g, kb, scan)
  {
    var bs := FinalBases(g, kb, scan);
    |bs| > 1 && LastLSNOf(Res(g, LastBase(bs), scan)) == 0
  }

  function EndBases(g: Files, kb: seq<nat>, scan: BodyScanner): (bs: seq<nat>)
    requires Contiguous(g, kb, scan)
    ensures bs != []
  {
    if Collapses(g, kb, scan) then [kb[0]] else FinalBases(g, kb, scan)
  }

  ghost function EndFiles(g: Files, kb: seq<nat>, scan: BodyScanner): Files
    requires Contiguous(g, kb, scan)
  {
    var c := FinalFiles(g, kb, scan);
    if Collapses(g, kb, scan) then c - Elements(FinalBases(g, kb, scan)[1..]) else c
  }

  function EndWriter(g: Files, kb: seq<nat>, scan: BodyScanner): Writer
    requires Contiguous(g, kb, scan)
  {
    if Collapses(g, kb, scan) then
      Writer([kb[0]], Max(1, kb[0]), FirstIn(g, kb, scan), Max(0, Before(kb[0])))
    else FinalWriter(g, kb, scan)
  }

  /** On the way to that, some of the segments after the first are gone. */
  ghost predicate Dropped(g: Files, kb: seq<nat>, scan: BodyScanner, h: Files)
    requires Contiguous(g, kb, scan)
  {
    Collapses(g, kb, scan) && exists m: nat :: m < |FinalBases(g, kb, scan)| && DroppedAt(g, kb, m, scan, h)
  }

  ghost predicate DroppedAt(g: Files, kb: seq<nat>, m: nat, scan: BodyScanner, h: Files)
    requires Contiguous(g, kb, scan) && m < |FinalBases(g, kb, scan)|
  {
    h == FinalFiles(g, kb, scan) - Elements(FinalBases(g, kb, scan)[1..][..m])
  }

  /** A collapse drops the segments after the first one by one, lowest first. */
  ghost predicate Drops(g: Files, kb: seq<nat>, scan: BodyScanner, trace: seq<Dir>)
    requires Contiguous(g, kb, scan)
  {
    Collapses(g, kb, scan) ==>
      forall m: nat | 0 < m < |FinalBases(g, kb, scan)| :: DropsAt(g, kb, m, scan, trace)
  }

  ghost predicate DropsAt(g: Files, kb: seq<nat>, m: nat, scan: BodyScanner, trace: seq<Dir>)
    requires Contiguous(g, kb, scan) && m < |FinalBases(g, kb, scan)|
  {
    exists im | im in trace :: DroppedAt(g, kb, m, scan, im.files)
  }

  /** In a contiguous listing only the last segment can be empty. */
  lemma OnlyLastEmpty(g: Files, kb: seq<nat>, scan: BodyScanner)
    requires Contiguous(g, kb, scan)
    ensures forall i | 0 <= i < |kb| - 1 :: Res(g, kb[i], scan).records > 0
  {
    forall i | 0 <= i < |kb| - 1
      ensures Res(g, kb[i], scan).records > 0
    {
      assert Joined(g, kb, i, scan) && kb[i] < kb[i + 1];
    }
  }

  lemma FirstClosed(g: Files, kb: seq<nat>, scan: BodyScanner)
    requires Contiguous(g, kb, scan)
    ensures FirstOf(OpenedAt(g, kb, scan)) == FirstIn(g, kb, scan)
  {
    OnlyLastEmpty(g, kb, scan);
    var segs := OpenedAt(g, kb, scan);
    var rest := segs[1..];
    if |kb| == 1 {
      assert rest == [] && FirstOf(rest) == 0;
    } else {
      assert rest[0] == segs[1] && kb[0] < kb[1];
      assert |kb| == 2 ==> rest[1..] == [];
      assert FirstOf(rest) == if rest[0].res.records > 0 then kb[1] else FirstOf(rest[1..]);
    }
    assert FirstOf(segs) == if segs[0].res.records > 0 && kb[0] > 0 then kb[0] else FirstOf(rest);
  }

  lemma BoundsClosed(g: Files, kb: seq<nat>, scan: BodyScanner)
    requires Contiguous(g, kb, scan)
    ensures var segs := OpenedAt(g, kb, scan);
      && FirstOf(segs) == FirstIn(g, kb, scan)
      && LastWithRecords(segs) == (if Res(g, LastBase(kb), scan).records > 0 then |kb| - 1 else |kb| - 2)
      && LastOf(segs) == LastLSNOf(Res(g, LastBase(FinalBases(g, kb, scan)), scan))
  {
    OnlyLastEmpty(g, kb, scan);
    FirstClosed(g, kb, scan);
    hide FirstOf, FirstIn;
    var segs := OpenedAt(g, kb, scan);
    if |kb| == 1 {
      assert segs[1..] == [];
    }
    var i := LastWithRecords(segs);
    if |kb| > 1 {
      assert segs[|kb| - 2].res.records > 0;
    }
  }

  lemma ChopEffect(s: St, kb: seq<nat>, scan: BodyScanner)
    requires Contiguous(s.dir.files, kb, scan)
    ensures var g := s.dir.files;
      var r := ChopTornTail(s, OpenedAt(g, kb, scan));
      && r.dir.files == Mended(g, LastBase(kb), scan)
      && r.w == s.w && r.dir.temps == s.dir.temps
      && Through(s, r, (d: Dir) => d.files == Mended(g, LastBase(kb), scan))
  {
  }

  /** The first part of pruning: the empty segment at the end. */
  lemma PruneLastEffect(s: St, g: Files, kb: seq<nat>, scan: BodyScanner) returns (r: St)
    requires Contiguous(g, kb, scan) && s.dir.files == Mended(g, LastBase(kb), scan)
    ensures var segs, bs := OpenedAt(g, kb, scan), FinalBases(g, kb, scan);
      var p := PruneEmptyTrailing(s, segs, LastOf(segs));
      p == if LastOf(segs) == 0 then Pruned(RemoveAll(r, bs[1..]), OpenedAt(g, bs[..1], scan))
           else Pruned(r, OpenedAt(g, bs, scan))
    ensures r.dir.files == FinalFiles(g, kb, scan) && r.w == s.w && r.dir.temps == s.dir.temps
    ensures Through(s, r, (d: Dir) => d.files == FinalFiles(g, kb, scan))
  {
    hide LastWithRecords, LastOf, LastLSNOf, FinalFiles, Mended, FirstIn;
    var segs, bs := OpenedAt(g, kb, scan), FinalBases(g, kb, scan);
    ActiveAt(g, kb, scan);
    r := RemoveAll(s, Backwards(Bases(segs[|bs|..])));
    KeptOpened(g, kb, bs, scan);
    hide OpenedAt, Contiguous, Bases, Backwards;
    RemoveTailEffect(s, g, kb, scan);
  }

  /** The active segment is the last one kept. */
  lemma ActiveAt(g: Files, kb: seq<nat>, scan: BodyScanner)
    requires Contiguous(g, kb, scan)
    ensures var segs := OpenedAt(g, kb, scan);
      var found := LastWithRecords(segs);
      (if found < 0 then |segs| - 1 else found) == |FinalBases(g, kb, scan)| - 1
  {
    hide LastWithRecords, FirstIn, LastLSNOf, LastOf;
    BoundsClosed(g, kb, scan);
    OnlyLastEmpty(g, kb, scan);
  }

  lemma RemoveTailEffect(s: St, g: Files, kb: seq<nat>, scan: BodyScanner)
    requires Contiguous(g, kb, scan) && s.dir.files == Mended(g, LastBase(kb), scan)
    ensures var tail := Bases(OpenedAt(g, kb, scan)[|FinalBases(g, kb, scan)|..]);
      var r := RemoveAll(s, Backwards(tail));
      && r.dir.files == FinalFiles(g, kb, scan) && r.w == s.w && r.dir.temps == s.dir.temps
      && Through(s, r, (d: Dir) => d.files == FinalFiles(g, kb, scan))
  {
    hide Mended;
    if PrunesLast(g, kb, scan) {
      LastOpened(g, kb, scan);
      RemoveLastEffect(s, g, kb, scan);
    } else {
      assert Bases(OpenedAt(g, kb, scan)[|kb|..]) == [];
    }
  }

  lemma RemoveLastEffect(s: St, g: Files, kb: seq<nat>, scan: BodyScanner)
    requires Contiguous(g, kb, scan) && s.dir.files == Mended(g, LastBase(kb), scan) && PrunesLast(g, kb, scan)
    ensures var r := RemoveAll(s, [LastBase(kb)]);
      && r.dir.files == FinalFiles(g, kb, scan) && r.w == s.w && r.dir.temps == s.dir.temps
      && Through(s, r, (d: Dir) => d.files == FinalFiles(g, kb, scan))
  {
    hide Mended;
    RemoveAllEffect(s, [LastBase(kb)]);
    assert Elements([LastBase(kb)]) == {LastBase(kb)} && [LastBase(kb)][..1] == [LastBase(kb)];
  }

  lemma LastOpened(g: Files, kb: seq<nat>, scan: BodyScanner)
    requires Contiguous(g, kb, scan)
    ensures Backwards(Bases(OpenedAt(g, kb, scan)[|kb| - 1..])) == [LastBase(kb)]
  {
    assert Bases(OpenedAt(g, kb, scan)[|kb| - 1..]) == [LastBase(kb)];
    assert Backwards([]) == [] && [LastBase(kb)][..0] == [];
  }

  lemma KeptOpened(g: Files, kb: seq<nat>, bs: seq<nat>, scan: BodyScanner)
    requires Contiguous(g, kb, scan) && bs != [] && bs <= kb
    ensures Listed(g, bs) && OpenedAt(g, kb, scan)[..|bs|] == OpenedAt(g, bs, scan)
    ensures OpenedAt(g, bs, scan)[..1] == OpenedAt(g, bs[..1], scan) && Bases(OpenedAt(g, bs, scan)[1..]) == bs[1..]
  {
  }

  lemma PruneEffect(s: St, g: Files, kb: seq<nat>, scan: BodyScanner)
    requires Contiguous(g, kb, scan)
    requires s.dir.files == Mended(g, LastBase(kb), scan)
    ensures var segs := OpenedAt(g, kb, scan);
      var p := PruneEmptyTrailing(s, segs, LastOf(segs));
      && p.segs == OpenedAt(g, EndBases(g, kb, scan), scan)
      && p.st.dir.files == EndFiles(g, kb, scan)
      && p.st.w == s.w && p.st.dir.temps == s.dir.temps
      && Through(s, p.st, (d: Dir) => d.files == FinalFiles(g, kb, scan) || Dropped(g, kb, scan, d.files))
      && Drops(g, kb, scan, p.st.trace)
  {
    BoundsClosed(g, kb, scan);
    var segs, bs := OpenedAt(g, kb, scan), FinalBases(g, kb, scan);
    hide LastOf, PruneEmptyTrailing, FinalFiles, Mended, FirstIn;
    var r := PruneLastEffect(s, g, kb, scan);
    var q := (d: Dir) => d.files == FinalFiles(g, kb, scan);
    var end := (d: Dir) => d.files == FinalFiles(g, kb, scan) || Dropped(g, kb, scan, d.files);
    ThroughWeaken(s, r, q, end);
    if LastOf(segs) == 0 {
      DropEffect(r, g, kb, scan);
      hide Drops;
      ThroughChain(s, r, RemoveAll(r, bs[1..]), end);
    }
  }

  lemma DropEffect(r: St, g: Files, kb: seq<nat>, scan: BodyScanner)
    requires Contiguous(g, kb, scan) && r.dir.files == FinalFiles(g, kb, scan)
    requires LastLSNOf(Res(g, LastBase(FinalBases(g, kb, scan)), scan)) == 0
    ensures var bs := FinalBases(g, kb, scan);
      var p := RemoveAll(r, bs[1..]);
      && bs[..1] == EndBases(g, kb, scan) && p.dir.files == EndFiles(g, kb, scan)
      && p.w == r.w && p.dir.temps == r.dir.temps
      && Through(r, p, (d: Dir) => d.files == FinalFiles(g, kb, scan) || Dropped(g, kb, scan, d.files))
      && Drops(g, kb, scan, p.trace)
  {
    var bs := FinalBases(g, kb, scan);
    hide FinalFiles, LastLSNOf;
    DropsEach(r, g, kb, scan);
    hide Drops;
    RemoveAllEffect(r, bs[1..]);
    var p := RemoveAll(r, bs[1..]);
    if |bs| > 1 {
      forall k | |r.trace| <= k < |p.trace|
        ensures Dropped(g, kb, scan, p.trace[k].files)
      {
        assert DroppedAt(g, kb, k + 1 - |r.trace|, scan, p.trace[k].files);
      }
    } else {
      assert bs[1..] == [];
    }
  }

  lemma DropsEach(r: St, g: Files, kb: seq<nat>, scan: BodyScanner)
    requires Contiguous(g, kb, scan) && r.dir.files == FinalFiles(g, kb, scan)
    ensures Drops(g, kb, scan, RemoveAll(r, FinalBases(g, kb, scan)[1..]).trace)
  {
    var bs := FinalBases(g, kb, scan);
    hide FinalFiles, LastLSNOf;
    RemoveAllEffect(r, bs[1..]);
    var p := RemoveAll(r, bs[1..]);
    forall m: nat | 0 < m < |bs|
      ensures DropsAt(g, kb, m, scan, p.trace)
    {
      assert p.trace[|r.trace| + m - 1] in p.trace;
    }
  }

  ghost function Surviving(f: Files, names: seq<nat>, scan: BodyScanner): (kb: seq<nat>)
    requires Listed(f, names) && names != []
    ensures kb != []
  {
    names[Start(f, names, |names| - 1, scan)..]
  }

  ghost function Reconciled(f: Files, names: seq<nat>, scan: BodyScanner): Files
    requires Listed(f, names) && names != []
  {
    f - Elements(names[..Start(f, names, |names| - 1, scan)])
  }

  lemma StartIsLastOverlap(f: Files, names: seq<nat>, i: nat, scan: BodyScanner)
    requires Listed(f, names) && i < |names|
    ensures var j := Start(f, names, i, scan);
      && (forall k | j < k <= i :: names[k] >= End(f, names[k - 1], scan))
      && (j > 0 ==> names[j] < End(f, names[j - 1], scan))
    decreases i
  {
    if i > 0 && names[i] >= End(f, names[i - 1], scan) {
      StartIsLastOverlap(f, names, i - 1, scan);
    }
  }

  lemma SurvivingFiles(f: Files, names: seq<nat>, scan: BodyScanner)
    requires Listed(f, names) && names != []
    ensures var j := Start(f, names, |names| - 1, scan);
      var kb := Surviving(f, names, scan);
      forall i | 0 <= i < |kb| ::
        && kb[i] == names[j + i] && kb[i] in Reconciled(f, names, scan)
        && Reconciled(f, names, scan)[kb[i]] == f[kb[i]]
  {
    var j := Start(f, names, |names| - 1, scan);
    var kb := Surviving(f, names, scan);
    forall i | 0 <= i < |kb|
      ensures kb[i] == names[j + i] && kb[i] in Reconciled(f, names, scan)
    {
      ElementsMember(names, j, j + i);
    }
  }

  lemma NoGapAfterStart(f: Files, names: seq<nat>, k: nat, scan: BodyScanner)
    requires Listed(f, names) && names != [] && Accepts(f, names, scan)
    requires Start(f, names, |names| - 1, scan) < k < |names|
    ensures Res(f, names[k - 1], scan).err.None? && names[k] == End(f, names[k - 1], scan)
  {
    StartIsLastOverlap(f, names, |names| - 1, scan);
    assert Follows(f, names, k - 1, scan);
  }

  lemma SurvivingContiguous(f: Files, names: seq<nat>, scan: BodyScanner)
    requires Listed(f, names) && names != [] && Accepts(f, names, scan)
    ensures Contiguous(Reconciled(f, names, scan), Surviving(f, names, scan), scan)
  {
    hide Accepts, Start;
    var j := Start(f, names, |names| - 1, scan);
    var kb := Surviving(f, names, scan);
    var g := Reconciled(f, names, scan);
    SurvivingFiles(f, names, scan);
    assert Listed(g, kb);
    forall i | 0 <= i < |kb| - 1
      ensures Joined(g, kb, i, scan)
    {
      var k := j + i + 1;
      NoGapAfterStart(f, names, k, scan);
      assert kb[i] == names[k - 1] && kb[i + 1] == names[k] && g[kb[i]] == f[kb[i]];
      hide Surviving, Reconciled, Listed;
    }
  }

  lemma OpenedSame(f: Files, g: Files, bs: seq<nat>, scan: BodyScanner)
    requires forall i | 0 <= i < |bs| :: bs[i] in f && bs[i] in g && f[bs[i]] == g[bs[i]]
    ensures OpenedAt(f, bs, scan) == OpenedAt(g, bs, scan)
  {
  }

  /** Every directory a recovery of `f` passes through. */
  ghost predicate Midway(f: Files, names: seq<nat>, scan: BodyScanner, h: Files)
    requires Listed(f, names) && names != [] && Accepts(f, names, scan)
  {
    SurvivingContiguous(f, names, scan);
    var g := Reconciled(f, names, scan);
    var kb := Surviving(f, names, scan);
    || Without(f, names, Start(f, names, |names| - 1, scan), h)
    || Finishing(g, kb, scan, h)
  }

  lemma ThroughWeaken(s: St, r: St, p: Dir -> bool, q: Dir -> bool)
    requires Through(s, r, p) && forall d | p(d) :: q(d)
    ensures Through(s, r, q)
  {
  }

  /** Recovery in closed form, for every directory with at least one segment file. */
  lemma RecoverClosed(s: St, names: seq<nat>, scan: BodyScanner)
    requires Listing(names, s.dir.files.Keys) && names != []
    ensures Listed(s.dir.files, names)
    ensures var f := s.dir.files;
      var o := RecoverListed(s, names, scan);
      && o.ok == Accepts(f, names, scan)
      && (o.ok ==> Contiguous(Reconciled(f, names, scan), Surviving(f, names, scan), scan))
      && (o.ok ==>
        && o.st.dir.files == EndFiles(Reconciled(f, names, scan), Surviving(f, names, scan), scan)
        && o.st.w == EndWriter(Reconciled(f, names, scan), Surviving(f, names, scan), scan)
        && o.st.dir.temps == s.dir.temps
        && Through(s, o.st, (d: Dir) => Midway(f, names, scan, d.files))
        && Drops(Reconciled(f, names, scan), Surviving(f, names, scan), scan, o.st.trace))
  {
    hide Drops;
    var f := s.dir.files;
    assert Listed(f, names) by {
      forall i | 0 <= i < |names|
        ensures names[i] in f
      {
        assert names[i] in names;
      }
    }
    assert f - Elements(names[..0]) == f;
    assert OpenedAt(f, names[0..0], scan) == [];
    CollectClosed(s, f, names, 0, [], 0, scan);
    var c := Collect(s, names, 0, [], 0, scan);
    if c.ok {
      SurvivingContiguous(f, names, scan);
      RecoverTail(s, c, f, names, scan);
    }
  }

  lemma NumberedPart(f: Files, keys: set<nat>, scan: BodyScanner)
    requires Numbered(f, scan)
    ensures Numbered(f - keys, scan)
  {
    forall b | b in f - keys
      ensures Res(f - keys, b, scan).records > 0 ==> Res(f - keys, b, scan).lastLSN >= 1
    {
      assert Res(f, b, scan) == Res(f - keys, b, scan);
    }
  }

  /** The directories recovery passes through once it has reconciled. */
  ghost predicate Finishing(g: Files, kb: seq<nat>, scan: BodyScanner, h: Files)
    requires Contiguous(g, kb, scan)
  {
    h == Mended(g, LastBase(kb), scan) || h == FinalFiles(g, kb, scan) || Dropped(g, kb, scan, h)
  }

  /** The part of recovery after the collecting loop. */
  lemma FinishEffect(s: St, kb: seq<nat>, scan: BodyScanner) returns (r: St)
    requires Contiguous(s.dir.files, kb, scan)
    ensures var g := s.dir.files;
      var segs := OpenedAt(g, kb, scan);
      var p := PruneEmptyTrailing(ChopTornTail(s, segs), segs, LastOf(segs));
      && r == p.st
      && Install(p.st, p.segs, FirstOf(segs), LastOf(segs)) == r.(w := EndWriter(g, kb, scan))
      && r.dir.files == EndFiles(g, kb, scan) && r.dir.temps == s.dir.temps
      && Through(s, r, (d: Dir) => Finishing(g, kb, scan, d.files))
      && Drops(g, kb, scan, r.trace)
  {
    var g := s.dir.files;
    var segs := OpenedAt(g, kb, scan);
    var s1 := ChopTornTail(s, segs);
    ChopEffect(s, kb, scan);
    PruneEffect(s1, g, kb, scan);
    var p := PruneEmptyTrailing(s1, segs, LastOf(segs));
    r := p.st;
    InstallEnds(p.st, g, kb, scan);
    hide PruneEmptyTrailing, ChopTornTail, FinalFiles, Mended, Dropped, Drops, EndFiles, EndBases, EndWriter;
    hide FirstOf, LastOf;
    var end := (d: Dir) => Finishing(g, kb, scan, d.files);
    ThroughWeaken(s, s1, (d: Dir) => d.files == Mended(g, LastBase(kb), scan), end);
    ThroughWeaken(s1, r, (d: Dir) => d.files == FinalFiles(g, kb, scan) || Dropped(g, kb, scan, d.files), end);
    ThroughChain(s, s1, r, end);
  }

  lemma InstallEnds(r: St, g: Files, kb: seq<nat>, scan: BodyScanner)
    requires Contiguous(g, kb, scan)
    ensures var segs := OpenedAt(g, kb, scan);
      Install(r, OpenedAt(g, EndBases(g, kb, scan), scan), FirstOf(segs), LastOf(segs))
        == r.(w := EndWriter(g, kb, scan))
  {
    BoundsClosed(g, kb, scan);
    BasesOf(g, EndBases(g, kb, scan), scan);
    hide FirstOf, LastOf, FirstIn, LastLSNOf;
    var bs := FinalBases(g, kb, scan);
    assert bs[0] == kb[0];
    hide PrunesLast;
  }

  lemma RecoverTail(s: St, c: Collected, f: Files, names: seq<nat>, scan: BodyScanner)
    requires Listed(f, names) && names != [] && Accepts(f, names, scan)
    requires c.ok && Kept(s, c, f, names, scan) && c == Collect(s, names, 0, [], 0, scan)
    requires Contiguous(Reconciled(f, names, scan), Surviving(f, names, scan), scan)
    ensures var o := RecoverListed(s, names, scan);
      && o.ok
      && o.st.dir.files == EndFiles(Reconciled(f, names, scan), Surviving(f, names, scan), scan)
      && o.st.w == EndWriter(Reconciled(f, names, scan), Surviving(f, names, scan), scan)
      && o.st.dir.temps == s.dir.temps
      && Through(s, o.st, (d: Dir) => Midway(f, names, scan, d.files))
      && Drops(Reconciled(f, names, scan), Surviving(f, names, scan), scan, o.st.trace)
  {
    hide Drops;
    var g := Reconciled(f, names, scan);
    var kb := Surviving(f, names, scan);
    var mid := (d: Dir) => Midway(f, names, scan, d.files);
    SurvivingFiles(f, names, scan);
    OpenedSame(f, g, kb, scan);
    var r := FinishEffect(c.st, kb, scan);
    ThroughWeaken(s, c.st, (d: Dir) => Without(f, names, Start(f, names, |names| - 1, scan), d.files), mid);
    ThroughWeaken(c.st, r, (d: Dir) => Finishing(g, kb, scan, d.files), mid);
    ThroughChain(s, c.st, r, mid);
  }

  /** Cutting off what a scan rejected leaves exactly what it accepted; an empty body has no records. */
  ghost predicate Rescannable(scan: BodyScanner) {
    && scan([]) == ScanResult(None, 0, 0, 0)
    && forall body :: scan(body).validEnd <= |body| && scan(body[..scan(body).validEnd]) == scan(body).(err := None)
  }

  lemma SegmentScannerRescannable(maxRec: nat)
    ensures Rescannable(SegmentScanner(maxRec))
  {
    hide ScanSegment;
    SegmentScanNothing(maxRec);
    forall body
      ensures var r := SegmentScanner(maxRec)(body);
        r.validEnd <= |body| && SegmentScanner(maxRec)(body[..r.validEnd]) == r.(err := None)
    {
      RescanOne(body, maxRec);
    }
  }

  lemma RescanOne(body: seq<byte>, maxRec: nat)
    ensures var r := SegmentScanner(maxRec)(body);
      r.validEnd <= |body| && SegmentScanner(maxRec)(body[..r.validEnd]) == r.(err := None)
  {
    hide ScanAll;
    ScanValidPrefix(body, maxRec);
  }

  lemma SegmentScanNothing(maxRec: nat)
    ensures SegmentScanner(maxRec)([]) == ScanResult(None, 0, 0, 0)
  {
  }

  /** Recovering `h` ends with these files and this writer. */
  ghost predicate LeadsTo(h: Files, names: seq<nat>, files: Files, w: Writer, scan: BodyScanner) {
    && Listed(h, names) && names != [] && Accepts(h, names, scan)
    && Contiguous(Reconciled(h, names, scan), Surviving(h, names, scan), scan)
    && files == EndFiles(Reconciled(h, names, scan), Surviving(h, names, scan), scan)
    && w == EndWriter(Reconciled(h, names, scan), Surviving(h, names, scan), scan)
  }

  lemma StartOfSuffix(f: Files, names: seq<nat>, m: nat, i: nat, scan: BodyScanner)
    requires Listed(f, names) && i < |names| && m <= Start(f, names, i, scan)
    ensures var h := f - Elements(names[..m]);
      Listed(h, names[m..]) && Start(h, names[m..], i - m, scan) == Start(f, names, i, scan) - m
    decreases i
  {
    var h := f - Elements(names[..m]);
    forall k | 0 <= k < |names[m..]|
      ensures names[m..][k] in h && h[names[m..][k]] == f[names[m..][k]]
    {
      ElementsMember(names, m, m + k);
    }
    if i > m && names[i] >= End(f, names[i - 1], scan) {
      StartOfSuffix(f, names, m, i - 1, scan);
    }
  }

  lemma AcceptsSuffix(f: Files, names: seq<nat>, m: nat, scan: BodyScanner)
    requires Listed(f, names) && m < |names| && Accepts(f, names, scan)
    ensures var h := f - Elements(names[..m]);
      Listed(h, names[m..]) && Accepts(h, names[m..], scan)
  {
    var h := f - Elements(names[..m]);
    var hnames := names[m..];
    forall k | 0 <= k < |hnames|
      ensures hnames[k] in h && h[hnames[k]] == f[names[m + k]] && h[hnames[k]].headerOk
    {
      ElementsMember(names, m, m + k);
    }
    forall k | 0 <= k < |hnames| - 1
      ensures Follows(h, hnames, k, scan)
    {
      assert Follows(f, names, m + k, scan);
    }
  }

  /** Crashing after some superseded files are gone. */
  lemma ResumeReconciling(f: Files, names: seq<nat>, m: nat, scan: BodyScanner)
    requires Listed(f, names) && names != [] && Accepts(f, names, scan)
    requires m <= Start(f, names, |names| - 1, scan)
    ensures var h := f - Elements(names[..m]);
      && Listed(h, names[m..]) && names[m..] != [] && Accepts(h, names[m..], scan)
      && Surviving(h, names[m..], scan) == Surviving(f, names, scan)
      && Reconciled(h, names[m..], scan) == Reconciled(f, names, scan)
  {
    hide Accepts, Start, Listed;
    var j := Start(f, names, |names| - 1, scan);
    StartOfSuffix(f, names, m, |names| - 1, scan);
    AcceptsSuffix(f, names, m, scan);
    assert |names[m..]| - 1 == |names| - 1 - m;
    SuffixOfSuffix(f, names, m, j);
  }

  lemma SuffixOfSuffix(f: Files, names: seq<nat>, m: nat, j: nat)
    requires m <= j <= |names|
    ensures names[m..][j - m..] == names[j..]
    ensures f - Elements(names[..m]) - Elements(names[m..][..j - m]) == f - Elements(names[..j])
  {
    ElementsJoin(names, m, j);
    assert names[m..][..j - m] == names[m..j];
  }

  lemma StartOfContiguous(h: Files, kb: seq<nat>, i: nat, scan: BodyScanner)
    requires Contiguous(h, kb, scan) && i < |kb|
    ensures Start(h, kb, i, scan) == 0
    decreases i
  {
    if i > 0 {
      assert Joined(h, kb, i - 1, scan);
      StartOfContiguous(h, kb, i - 1, scan);
    }
  }

  /** A contiguous directory is its own reconciliation. */
  lemma ContiguousIsReconciled(h: Files, kb: seq<nat>, scan: BodyScanner)
    requires Contiguous(h, kb, scan) && forall i | 0 <= i < |kb| :: h[kb[i]].headerOk
    ensures Accepts(h, kb, scan) && Surviving(h, kb, scan) == kb && Reconciled(h, kb, scan) == h
  {
    StartOfContiguous(h, kb, |kb| - 1, scan);
    assert kb[..0] == [];
    forall i | 0 <= i < |kb| - 1
      ensures Follows(h, kb, i, scan)
    {
      assert Joined(h, kb, i, scan);
    }
  }

  lemma MendedAgrees(g: Files, kb: seq<nat>, scan: BodyScanner)
    requires Contiguous(g, kb, scan) && Rescannable(scan) && forall i | 0 <= i < |kb| :: g[kb[i]].headerOk
    ensures var h := Mended(g, LastBase(kb), scan);
      && (forall i | 0 <= i < |kb| - 1 :: kb[i] in h && h[kb[i]] == g[kb[i]])
      && LastBase(kb) in h && Res(h, LastBase(kb), scan) == Res(g, LastBase(kb), scan).(err := None)
      && (forall i | 0 <= i < |kb| :: kb[i] in h && h[kb[i]].headerOk)
      && Contiguous(h, kb, scan)
      && Mended(h, LastBase(kb), scan) == h
  {
    var b := LastBase(kb);
    assert scan(g[b].body[..scan(g[b].body).validEnd]) == scan(g[b].body).(err := None);
    var h := Mended(g, b, scan);
    assert Listed(h, kb);
    forall i | 0 <= i < |kb| - 1
      ensures Joined(h, kb, i, scan)
    {
      assert Joined(g, kb, i, scan);
    }
  }

  /** Directories that scan alike end alike. */
  lemma SameEnds(g: Files, h: Files, kb: seq<nat>, scan: BodyScanner)
    requires Contiguous(g, kb, scan) && Contiguous(h, kb, scan)
    requires forall i | 0 <= i < |kb| :: Res(h, kb[i], scan).(err := None) == Res(g, kb[i], scan).(err := None)
    ensures FinalBases(h, kb, scan) == FinalBases(g, kb, scan) && PrunesLast(h, kb, scan) == PrunesLast(g, kb, scan)
    ensures Collapses(h, kb, scan) == Collapses(g, kb, scan)
    ensures FinalWriter(h, kb, scan) == FinalWriter(g, kb, scan) && EndWriter(h, kb, scan) == EndWriter(g, kb, scan)
  {
    var bs := FinalBases(g, kb, scan);
    assert bs[0] == kb[0];
    assert Res(h, kb[|bs| - 1], scan).records == Res(g, kb[|bs| - 1], scan).records;
    assert Res(h, kb[|kb| - 1], scan).records == Res(g, kb[|kb| - 1], scan).records;
    assert Res(h, kb[0], scan).records == Res(g, kb[0], scan).records;
  }

  lemma MendedEnds(g: Files, kb: seq<nat>, scan: BodyScanner)
    requires Contiguous(g, kb, scan) && Rescannable(scan) && forall i | 0 <= i < |kb| :: g[kb[i]].headerOk
    ensures var h := Mended(g, LastBase(kb), scan);
      && Contiguous(h, kb, scan)
      && EndFiles(h, kb, scan) == EndFiles(g, kb, scan)
      && EndWriter(h, kb, scan) == EndWriter(g, kb, scan)
  {
    MendedAgrees(g, kb, scan);
    SameEnds(g, Mended(g, LastBase(kb), scan), kb, scan);
    hide Collapses, EndWriter, FinalWriter;
  }

  /** Crashing after the torn tail is chopped off. */
  lemma ResumeMended(g: Files, kb: seq<nat>, scan: BodyScanner)
    requires Contiguous(g, kb, scan) && Rescannable(scan) && forall i | 0 <= i < |kb| :: g[kb[i]].headerOk
    ensures LeadsTo(Mended(g, LastBase(kb), scan), kb, EndFiles(g, kb, scan), EndWriter(g, kb, scan), scan)
  {
    hide EndFiles, EndWriter, Accepts;
    MendedEnds(g, kb, scan);
    MendedAgrees(g, kb, scan);
    ContiguousIsReconciled(Mended(g, LastBase(kb), scan), kb, scan);
  }

  /** Crashing after the empty trailing segment is gone. */
  lemma ResumePruned(g: Files, kb: seq<nat>, scan: BodyScanner)
    requires Contiguous(g, kb, scan) && Rescannable(scan) && forall i | 0 <= i < |kb| :: g[kb[i]].headerOk
    ensures LeadsTo(FinalFiles(g, kb, scan), FinalBases(g, kb, scan),
                    EndFiles(g, kb, scan), EndWriter(g, kb, scan), scan)
  {
    hide EndFiles, EndWriter, Accepts, Mended;
    if PrunesLast(g, kb, scan) {
      PrunedContiguous(g, kb, scan);
      ContiguousIsReconciled(FinalFiles(g, kb, scan), FinalBases(g, kb, scan), scan);
    } else {
      ResumeMended(g, kb, scan);
    }
  }

  lemma PrunedAgrees(g: Files, kb: seq<nat>, scan: BodyScanner)
    requires Contiguous(g, kb, scan) && Rescannable(scan) && forall i | 0 <= i < |kb| :: g[kb[i]].headerOk
    requires PrunesLast(g, kb, scan)
    ensures var h := FinalFiles(g, kb, scan);
      forall i | 0 <= i < |kb| - 1 :: kb[i] in h && h[kb[i]] == g[kb[i]]
  {
    MendedAgrees(g, kb, scan);
  }

  lemma PrunedContiguous(g: Files, kb: seq<nat>, scan: BodyScanner)
    requires Contiguous(g, kb, scan) && Rescannable(scan) && forall i | 0 <= i < |kb| :: g[kb[i]].headerOk
    requires PrunesLast(g, kb, scan)
    ensures var h := FinalFiles(g, kb, scan);
      var hb := FinalBases(g, kb, scan);
      && Contiguous(h, hb, scan)
      && (forall i | 0 <= i < |hb| :: h[hb[i]].headerOk)
      && EndFiles(h, hb, scan) == EndFiles(g, kb, scan)
      && EndWriter(h, hb, scan) == EndWriter(g, kb, scan)
  {
    hide EndFiles, EndWriter;
    PrunedAgrees(g, kb, scan);
    SubsetContiguous(g, FinalFiles(g, kb, scan), kb, scan);
    PrunedLast(g, FinalFiles(g, kb, scan), kb, scan);
  }

  lemma PrunedLast(g: Files, h: Files, kb: seq<nat>, scan: BodyScanner)
    requires Contiguous(g, kb, scan) && PrunesLast(g, kb, scan) && h == FinalFiles(g, kb, scan)
    requires forall i | 0 <= i < |kb| - 1 :: kb[i] in h && h[kb[i]] == g[kb[i]]
    requires Contiguous(h, Front(kb), scan)
    ensures EndFiles(h, Front(kb), scan) == EndFiles(g, kb, scan)
    ensures EndWriter(h, Front(kb), scan) == EndWriter(g, kb, scan)
  {
    OnlyLastEmpty(g, kb, scan);
    assert Joined(g, kb, |kb| - 2, scan);
    assert LastBase(Front(kb)) == kb[|kb| - 2];
    FrontEnds(g, h, kb, scan);
    assert !PrunesLast(h, Front(kb), scan) && FinalBases(h, Front(kb), scan) == Front(kb);
    assert FinalFiles(h, Front(kb), scan) == h;
    hide FinalFiles, FinalBases, PrunesLast, FinalWriter, FirstIn;
  }

  /** Without the empty segment the bounds are the same. */
  lemma FrontEnds(g: Files, h: Files, kb: seq<nat>, scan: BodyScanner)
    requires Contiguous(g, kb, scan) && PrunesLast(g, kb, scan) && Contiguous(h, Front(kb), scan)
    requires forall i | 0 <= i < |kb| - 1 :: kb[i] in h && h[kb[i]] == g[kb[i]]
    ensures FinalWriter(h, Front(kb), scan) == FinalWriter(g, kb, scan)
    ensures FirstIn(h, Front(kb), scan) == FirstIn(g, kb, scan) && Front(kb)[0] == kb[0]
    ensures Collapses(h, Front(kb), scan) == Collapses(g, kb, scan)
  {
    OnlyLastEmpty(g, kb, scan);
    assert Joined(g, kb, |kb| - 2, scan);
    assert LastBase(Front(kb)) == kb[|kb| - 2];
  }

  /** The one way in which a collapse does no harm: two segments, and the record that is left to tell the last
      LSN lies below the base. */
  predicate Harmless(g: Files, kb: seq<nat>, scan: BodyScanner)
    requires Contiguous(g, kb, scan)
  {
    |FinalBases(g, kb, scan)| == 2 && 0 < kb[0] && LastLSNOf(Res(g, kb[0], scan)) < kb[0]
  }

  predicate Resumable(g: Files, kb: seq<nat>, scan: BodyScanner)
    requires Contiguous(g, kb, scan)
  {
    Collapses(g, kb, scan) ==> Harmless(g, kb, scan)
  }

  /** The first segment as a directory of its own. */
  lemma FirstAlone(g: Files, h: Files, kb: seq<nat>, scan: BodyScanner)
    requires Contiguous(g, kb, scan) && |kb| > 1 && kb[0] in h && h[kb[0]] == g[kb[0]] && g[kb[0]].headerOk
    ensures Contiguous(h, [kb[0]], scan) && Accepts(h, [kb[0]], scan)
    ensures Surviving(h, [kb[0]], scan) == [kb[0]] && Reconciled(h, [kb[0]], scan) == h
    ensures EndFiles(h, [kb[0]], scan) == h && EndBases(h, [kb[0]], scan) == [kb[0]]
    ensures var l := LastLSNOf(Res(g, kb[0], scan));
      EndWriter(h, [kb[0]], scan) == Writer([kb[0]], Max(l + 1, kb[0]), kb[0], Max(l, Before(kb[0])))
  {
    hide Accepts, Surviving, Reconciled, EndFiles, EndBases, EndWriter;
    OnlyLastEmpty(g, kb, scan);
    assert Joined(g, kb, 0, scan);
    assert Contiguous(h, [kb[0]], scan);
    ContiguousIsReconciled(h, [kb[0]], scan);
    OneEnds(h, kb[0], scan);
  }

  /** A single segment with records that scans cleanly. */
  lemma OneEnds(h: Files, b: nat, scan: BodyScanner)
    requires b in h && Contiguous(h, [b], scan) && Res(h, b, scan).err.None? && Res(h, b, scan).records > 0
    ensures EndFiles(h, [b], scan) == h && EndBases(h, [b], scan) == [b]
    ensures var l := LastLSNOf(Res(h, b, scan));
      EndWriter(h, [b], scan) == Writer([b], Max(l + 1, b), b, Max(l, Before(b)))
  {
  }

  /** Crashing in a harmless collapse. */
  lemma ResumeDropped(g: Files, kb: seq<nat>, h: Files, scan: BodyScanner) returns (hb: seq<nat>)
    requires Contiguous(g, kb, scan) && Rescannable(scan) && forall i | 0 <= i < |kb| :: g[kb[i]].headerOk
    requires Dropped(g, kb, scan, h) && Harmless(g, kb, scan)
    ensures LeadsTo(h, hb, EndFiles(g, kb, scan), EndWriter(g, kb, scan), scan)
    ensures hb == if h == FinalFiles(g, kb, scan) then FinalBases(g, kb, scan) else [kb[0]]
    ensures h != FinalFiles(g, kb, scan) ==> h == FinalFiles(g, kb, scan) - {kb[1]} && |FinalBases(g, kb, scan)| == 2
  {
    hide LeadsTo, FinalFiles, EndWriter, Mended;
    var bs := FinalBases(g, kb, scan);
    var m: nat :| m < |bs| && DroppedAt(g, kb, m, scan, h);
    if h == FinalFiles(g, kb, scan) {
      hb := bs;
      ResumePruned(g, kb, scan);
    } else {
      hb := [kb[0]];
      OneOrNone(bs, m);
      ResumeAlone(g, kb, h, scan);
    }
  }

  lemma OneOrNone(bs: seq<nat>, m: nat)
    requires |bs| == 2 && m < 2
    ensures bs[1..] == [bs[1]] && Elements([bs[1]]) == {bs[1]}
    ensures if m == 0 then Elements(bs[1..][..m]) == {} else Elements(bs[1..][..m]) == {bs[1]}
  {
    assert bs[1..][..m] == if m == 0 then [] else [bs[1]];
  }

  lemma ResumeAlone(g: Files, kb: seq<nat>, h: Files, scan: BodyScanner)
    requires Contiguous(g, kb, scan) && Collapses(g, kb, scan) && Harmless(g, kb, scan) && g[kb[0]].headerOk
    requires h == FinalFiles(g, kb, scan) - {kb[1]} && h == EndFiles(g, kb, scan)
    ensures LeadsTo(h, [kb[0]], EndFiles(g, kb, scan), EndWriter(g, kb, scan), scan)
  {
    OnlyLastEmpty(g, kb, scan);
    FinalFirst(g, kb, scan);
    assert kb[0] != kb[1];
    FirstAlone(g, h, kb, scan);
    BeforeIs(LastLSNOf(Res(g, kb[0], scan)), kb[0]);
    BeforeIs(0, kb[0]);
    hide FinalFiles, FinalBases, LastLSNOf, EndFiles, FinalWriter, Accepts, Surviving, Reconciled, Max, Before;
  }

  lemma BeforeIs(l: nat, n: nat)
    requires l < n
    ensures Max(l + 1, n) == n && Max(l, Before(n)) == n - 1
  {
  }

  lemma FinalFirst(g: Files, kb: seq<nat>, scan: BodyScanner)
    requires Contiguous(g, kb, scan) && |FinalBases(g, kb, scan)| > 1
    ensures kb[0] in FinalFiles(g, kb, scan) && FinalFiles(g, kb, scan)[kb[0]] == g[kb[0]]
  {
    assert kb[0] < kb[|kb| - 1];
  }

  function Front(bs: seq<nat>): seq<nat>
    requires bs != []
  {
    bs[..|bs| - 1]
  }

  lemma SubsetContiguous(g: Files, h: Files, kb: seq<nat>, scan: BodyScanner)
    requires Contiguous(g, kb, scan) && |kb| > 1
    requires forall i | 0 <= i < |kb| - 1 :: kb[i] in h && h[kb[i]] == g[kb[i]]
    ensures Contiguous(h, kb[..|kb| - 1], scan)
  {
    var hb := kb[..|kb| - 1];
    forall i | 0 <= i < |hb| - 1
      ensures Joined(h, hb, i, scan)
    {
      assert Joined(g, kb, i, scan);
    }
  }

  ghost predicate AllSynced(f: Files) {
    forall b | b in f :: f[b].synced == |f[b].body|
  }

  lemma MidwaySynced(f: Files, names: seq<nat>, scan: BodyScanner, h: Files)
    requires Listed(f, names) && names != [] && Accepts(f, names, scan) && Rescannable(scan)
    requires AllSynced(f) && Midway(f, names, scan, h)
    ensures AllSynced(h)
  {
    SurvivingContiguous(f, names, scan);
    var g, kb := Reconciled(f, names, scan), Surviving(f, names, scan);
    hide Accepts, Start, Listed;
    if Finishing(g, kb, scan, h) {
      FinishingSynced(g, kb, scan, h);
    }
  }

  lemma FinishingSynced(g: Files, kb: seq<nat>, scan: BodyScanner, h: Files)
    requires Contiguous(g, kb, scan) && Rescannable(scan) && AllSynced(g) && Finishing(g, kb, scan, h)
    ensures AllSynced(h)
  {
    var b := LastBase(kb);
    assert scan(g[b].body).validEnd <= |g[b].body|;
    assert AllSynced(Mended(g, b, scan)) && AllSynced(FinalFiles(g, kb, scan));
    hide Mended, FinalFiles, FinalBases;
    if Dropped(g, kb, scan, h) {
      var m: nat :| m < |FinalBases(g, kb, scan)| && DroppedAt(g, kb, m, scan, h);
      FewerSynced(FinalFiles(g, kb, scan), Elements(FinalBases(g, kb, scan)[1..][..m]));
    }
  }

  lemma EndSynced(g: Files, kb: seq<nat>, scan: BodyScanner)
    requires Contiguous(g, kb, scan) && Rescannable(scan) && AllSynced(g)
    ensures AllSynced(EndFiles(g, kb, scan))
  {
    FinishingSynced(g, kb, scan, FinalFiles(g, kb, scan));
    hide FinalFiles, FinalBases, AllSynced, Rescannable, Contiguous;
    FewerSynced(FinalFiles(g, kb, scan), Elements(FinalBases(g, kb, scan)[1..]));
  }

  lemma FewerSynced(f: Files, keys: set<nat>)
    requires AllSynced(f)
    ensures AllSynced(f - keys)
  {
  }

  lemma LeadsToOutcome(t: St, tnames: seq<nat>, hb: seq<nat>, files: Files, w: Writer, scan: BodyScanner)
    requires LeadsTo(t.dir.files, hb, files, w, scan)
    requires Listing(hb, t.dir.files.Keys) && Listing(tnames, t.dir.files.Keys)
    ensures var p := RecoverListed(t, tnames, scan);
      p.ok && p.st.dir.files == files && p.st.w == w
  {
    ListingUnique(tnames, hb, t.dir.files.Keys);
    RecoverClosed(t, hb, scan);
  }

  lemma WithoutResumes(f: Files, names: seq<nat>, m: nat, t: St, tnames: seq<nat>, scan: BodyScanner)
    requires Listed(f, names) && names != [] && Accepts(f, names, scan) && Listing(names, f.Keys)
    requires m <= Start(f, names, |names| - 1, scan) && t.dir.files == f - Elements(names[..m])
    requires Listing(tnames, t.dir.files.Keys)
    requires Contiguous(Reconciled(f, names, scan), Surviving(f, names, scan), scan)
    ensures var p := RecoverListed(t, tnames, scan);
      && p.ok
      && p.st.dir.files == EndFiles(Reconciled(f, names, scan), Surviving(f, names, scan), scan)
      && p.st.w == EndWriter(Reconciled(f, names, scan), Surviving(f, names, scan), scan)
  {
    ResumeReconciling(f, names, m, scan);
    ListingSuffix(names, f.Keys, m);
    assert t.dir.files.Keys == f.Keys - Elements(names[..m]);
    LeadsToOutcome(t, tnames, names[m..],
      EndFiles(Reconciled(f, names, scan), Surviving(f, names, scan), scan),
      EndWriter(Reconciled(f, names, scan), Surviving(f, names, scan), scan), scan);
  }

  lemma SurvivingHeaders(f: Files, names: seq<nat>, scan: BodyScanner)
    requires Listed(f, names) && names != [] && Accepts(f, names, scan)
    requires Contiguous(Reconciled(f, names, scan), Surviving(f, names, scan), scan)
    ensures var g, kb := Reconciled(f, names, scan), Surviving(f, names, scan);
      forall i | 0 <= i < |kb| :: g[kb[i]].headerOk
  {
    SurvivingFiles(f, names, scan);
  }

  lemma FinishedResumes(f: Files, names: seq<nat>, t: St, tnames: seq<nat>, scan: BodyScanner)
    requires Listed(f, names) && names != [] && Accepts(f, names, scan) && Listing(names, f.Keys)
    requires Contiguous(Reconciled(f, names, scan), Surviving(f, names, scan), scan) && Rescannable(scan)
    requires var g, kb := Reconciled(f, names, scan), Surviving(f, names, scan);
      Finishing(g, kb, scan, t.dir.files) && Resumable(g, kb, scan)
    requires Listing(tnames, t.dir.files.Keys)
    ensures var p := RecoverListed(t, tnames, scan);
      && p.ok
      && p.st.dir.files == EndFiles(Reconciled(f, names, scan), Surviving(f, names, scan), scan)
      && p.st.w == EndWriter(Reconciled(f, names, scan), Surviving(f, names, scan), scan)
  {
    SurvivingHeaders(f, names, scan);
    SurvivingListing(f, names, scan);
    ResumeFinished(Reconciled(f, names, scan), Surviving(f, names, scan), t, tnames, scan);
  }

  lemma MidwayResumes(s: St, names: seq<nat>, t: St, tnames: seq<nat>, scan: BodyScanner)
    requires Rescannable(scan)
    requires Listing(names, s.dir.files.Keys) && names != [] && Listing(tnames, t.dir.files.Keys)
    requires RecoverListed(s, names, scan).ok && Listed(s.dir.files, names) && Accepts(s.dir.files, names, scan)
    requires Contiguous(Reconciled(s.dir.files, names, scan), Surviving(s.dir.files, names, scan), scan)
    requires Resumable(Reconciled(s.dir.files, names, scan), Surviving(s.dir.files, names, scan), scan)
    requires Midway(s.dir.files, names, scan, t.dir.files)
    ensures var o, p := RecoverListed(s, names, scan), RecoverListed(t, tnames, scan);
      p.ok && p.st.dir.files == o.st.dir.files && p.st.w == o.st.w
  {
    var f := s.dir.files;
    RecoverClosed(s, names, scan);
    if Without(f, names, Start(f, names, |names| - 1, scan), t.dir.files) {
      var m: nat :| m <= Start(f, names, |names| - 1, scan) && t.dir.files == f - Elements(names[..m]);
      WithoutResumes(f, names, m, t, tnames, scan);
    } else {
      FinishedResumes(f, names, t, tnames, scan);
    }
  }

  lemma SurvivingListing(f: Files, names: seq<nat>, scan: BodyScanner)
    requires Listed(f, names) && names != [] && Listing(names, f.Keys)
    ensures Listing(Surviving(f, names, scan), Reconciled(f, names, scan).Keys)
  {
    var j := Start(f, names, |names| - 1, scan);
    ListingSuffix(names, f.Keys, j);
    assert Reconciled(f, names, scan).Keys == f.Keys - Elements(names[..j]);
  }

  lemma ResumeFinished(g: Files, kb: seq<nat>, t: St, tnames: seq<nat>, scan: BodyScanner)
    requires Contiguous(g, kb, scan) && Rescannable(scan) && Resumable(g, kb, scan)
    requires forall i | 0 <= i < |kb| :: g[kb[i]].headerOk
    requires Listing(kb, g.Keys) && Listing(tnames, t.dir.files.Keys) && Finishing(g, kb, scan, t.dir.files)
    ensures var p := RecoverListed(t, tnames, scan);
      p.ok && p.st.dir.files == EndFiles(g, kb, scan) && p.st.w == EndWriter(g, kb, scan)
  {
    hide EndFiles, EndWriter, LeadsTo, FinalFiles, Mended, Harmless;
    var h := t.dir.files;
    MendedKeys(g, kb, scan);
    var hb := kb;
    if h == FinalFiles(g, kb, scan) {
      hb := FinalBases(g, kb, scan);
      ResumePruned(g, kb, scan);
      ListingPrefix(kb, g.Keys);
    } else if h == Mended(g, LastBase(kb), scan) {
      ResumeMended(g, kb, scan);
    } else {
      hb := ResumeDropped(g, kb, h, scan);
      AloneListed(g, kb, h, scan);
    }
    LeadsToOutcome(t, tnames, hb, EndFiles(g, kb, scan), EndWriter(g, kb, scan), scan);
  }

  lemma AloneListed(g: Files, kb: seq<nat>, h: Files, scan: BodyScanner)
    requires Contiguous(g, kb, scan) && Listing(kb, g.Keys) && |FinalBases(g, kb, scan)| == 2
    requires h == FinalFiles(g, kb, scan) - {kb[1]}
    ensures Listing([kb[0]], h.Keys)
  {
    MendedKeys(g, kb, scan);
    ListingPrefix(kb, g.Keys);
    hide FinalFiles, Mended;
    ListingPrefix(FinalBases(g, kb, scan), FinalFiles(g, kb, scan).Keys);
    assert FinalBases(g, kb, scan)[..1] == [kb[0]];
  }

  lemma MendedKeys(g: Files, kb: seq<nat>, scan: BodyScanner)
    requires kb != [] && LastBase(kb) in g
    ensures Mended(g, LastBase(kb), scan).Keys == g.Keys
    ensures FinalFiles(g, kb, scan).Keys == if PrunesLast(g, kb, scan) then g.Keys - {LastBase(kb)} else g.Keys
  {
  }

  lemma {:induction false} RemoveTempsEffect(s: St, temps: seq<nat>)
    ensures var r := RemoveTemps(s, temps);
      && r.dir.files == s.dir.files && r.w == s.w
      && r.dir.temps == s.dir.temps - Elements(temps)
      && Through(s, r, (d: Dir) => d.files == s.dir.files)
    decreases |temps|
  {
    if temps != [] {
      var t := Do(s, RemoveTemp(temps[0]));
      RemoveTempsEffect(t, temps[1..]);
      ElementsCons(temps);
      var r := RemoveTemps(s, temps);
      forall k | |s.trace| <= k < |r.trace|
        ensures r.trace[k].files == s.dir.files
      {
        if k == |s.trace| {
          assert r.trace[k] == t.trace[k];
        }
      }
    }
  }

  /** The recovery of a whole directory, temp files included. */
  lemma RecoverWhole(d: Dir, scan: BodyScanner) returns (s: St, names: seq<nat>)
    ensures s.dir.files == d.files && s.dir.temps == map[] && Listing(names, d.files.Keys)
    ensures names == SortedKeys(d.files.Keys)
    ensures Recover(d, scan) == RecoverListed(s, names, scan)
    ensures Through(St(d, s.w, [d]), s, (e: Dir) => e.files == d.files)
    ensures Recover(d, scan).ok <==> names == [] || (Listed(d.files, names) && Accepts(d.files, names, scan))
    ensures |s.trace| > 0 && s.trace[0] == d
  {
    var s0 := St(d, Writer([], 0, 0, 0), [d]);
    var temps := SortedKeys(d.temps.Keys);
    RemoveTempsEffect(s0, temps);
    s := RemoveTemps(s0, temps);
    assert s.dir.temps == map[];
    names := SortedKeys(s.dir.files.Keys);
    if names != [] {
      RecoverClosed(s, names, scan);
    }
    assert s.trace[0] == s0.trace[0];
  }

  lemma RecoverImages(d: Dir, im: Dir, s: St, names: seq<nat>, scan: BodyScanner)
    requires s.dir.files == d.files && Listing(names, d.files.Keys) && names != []
    requires Through(St(d, s.w, [d]), s, (e: Dir) => e.files == d.files) && s.trace[0] == d
    requires RecoverListed(s, names, scan).ok && im in RecoverListed(s, names, scan).st.trace
    ensures Listed(d.files, names) && Accepts(d.files, names, scan) && Midway(d.files, names, scan, im.files)
  {
    hide RecoverListed, Contiguous, Accepts, EndFiles, EndWriter, Finishing, Drops;
    RecoverClosed(s, names, scan);
    var o := RecoverListed(s, names, scan);
    var k :| 0 <= k < |o.st.trace| && o.st.trace[k] == im;
    if k < |s.trace| {
      assert im == s.trace[k];
      assert d.files - Elements(names[..0]) == d.files;
      assert Without(d.files, names, Start(d.files, names, |names| - 1, scan), d.files);
    }
  }

  lemma SyncedImageIsIdentical(im: Dir, c: Dir)
    requires AllSynced(im.files) && CrashImage(im, c)
    ensures c.files == im.files
  {
    forall b | b in im.files
      ensures c.files[b] == im.files[b]
    {
      assert CrashedFile(im.files[b], c.files[b]);
      assert im.files[b].body[..|im.files[b].body|] == im.files[b].body;
    }
  }

  /** Interrupting the recovery of this directory does no harm: it does not collapse, or harmlessly. */
  ghost predicate Interruptible(d: Dir, scan: BodyScanner) {
    var names := SortedKeys(d.files.Keys);
    if names != [] && Listed(d.files, names) && Accepts(d.files, names, scan) then
      SurvivingContiguous(d.files, names, scan);
      Resumable(Reconciled(d.files, names, scan), Surviving(d.files, names, scan), scan)
    else
      true
  }

  /** Every directory such a recovery passes through recovers to the same end. */
  lemma ImageResumes(d: Dir, im: Dir, c: Dir, scan: BodyScanner)
    requires Rescannable(scan) && Interruptible(d, scan)
    requires Recover(d, scan).ok && im in Recover(d, scan).st.trace && c.files == im.files
    ensures Recover(c, scan).ok
    ensures Recover(c, scan).st.dir.files == Recover(d, scan).st.dir.files
    ensures Recover(c, scan).st.w == Recover(d, scan).st.w
  {
    hide Recover, RecoverListed, Midway, Resumable, Accepts, Contiguous;
    var s, names := RecoverWhole(d, scan);
    if names == [] {
      RecoverEmptyDirectory(d, im, c, s, scan);
    } else {
      RecoverImages(d, im, s, names, scan);
      SurvivingContiguous(d.files, names, scan);
      var t, tnames := RecoverWhole(c, scan);
      MidwayResumes(s, names, t, tnames, scan);
    }
  }

  /** The images of a recovery of a directory on stable storage are on stable storage. */
  lemma ImageSynced(d: Dir, im: Dir, scan: BodyScanner)
    requires Rescannable(scan) && AllSynced(d.files)
    requires Recover(d, scan).ok && im in Recover(d, scan).st.trace
    ensures AllSynced(im.files)
  {
    var s, names := RecoverWhole(d, scan);
    if names == [] {
      EmptyDirectoryImages(d, s, scan);
    } else {
      RecoverImages(d, im, s, names, scan);
      MidwaySynced(d.files, names, scan, im.files);
    }
  }

  /** Where records carry LSN 1 or more, as the writer sees to, nothing collapses. */
  lemma NumberedHolds(f: Files, names: seq<nat>, scan: BodyScanner)
    requires Listed(f, names) && names != [] && Accepts(f, names, scan) && Numbered(f, scan)
    requires Contiguous(Reconciled(f, names, scan), Surviving(f, names, scan), scan)
    ensures var g, kb := Reconciled(f, names, scan), Surviving(f, names, scan);
      && !Collapses(g, kb, scan)
      && EndFiles(g, kb, scan) == FinalFiles(g, kb, scan) && EndWriter(g, kb, scan) == FinalWriter(g, kb, scan)
  {
    NumberedPart(f, Elements(names[..Start(f, names, |names| - 1, scan)]), scan);
    hide Accepts, Start;
    OnlyLastEmpty(Reconciled(f, names, scan), Surviving(f, names, scan), scan);
    NoCollapse(Reconciled(f, names, scan), Surviving(f, names, scan), scan);
  }

  lemma NoCollapse(g: Files, kb: seq<nat>, scan: BodyScanner)
    requires Contiguous(g, kb, scan) && Numbered(g, scan)
    ensures !Collapses(g, kb, scan)
  {
    OnlyLastEmpty(g, kb, scan);
    var bs := FinalBases(g, kb, scan);
    assert LastBase(bs) in g;
  }

  lemma NumberedInterruptible(d: Dir, scan: BodyScanner)
    requires Numbered(d.files, scan)
    ensures Interruptible(d, scan)
  {
    var names := SortedKeys(d.files.Keys);
    if names != [] && Listed(d.files, names) && Accepts(d.files, names, scan) {
      SurvivingContiguous(d.files, names, scan);
      hide Accepts, Contiguous;
      NumberedHolds(d.files, names, scan);
    }
  }

  lemma RecoverFreshLog(c: Dir, scan: BodyScanner)
    requires Rescannable(scan) && c.files == map[1 := EMPTY_FILE]
    ensures var o := Recover(c, scan);
      o.ok && o.st.dir.files == c.files && o.st.w == Writer([1], 1, 0, 0)
  {
    hide Recover, RecoverListed, Rescannable, Accepts, EndFiles, EndWriter, Surviving, Reconciled;
    var s, names := RecoverWhole(c, scan);
    assert Listing([1], c.files.Keys);
    ListingUnique(names, [1], c.files.Keys);
    FreshLogEnds(c.files, scan);
    ContiguousIsReconciled(c.files, [1], scan);
    RecoverClosed(s, [1], scan);
  }

  lemma FreshLogEnds(f: Files, scan: BodyScanner)
    requires Rescannable(scan) && f == map[1 := EMPTY_FILE]
    ensures Contiguous(f, [1], scan) && EndFiles(f, [1], scan) == f && EndWriter(f, [1], scan) == Writer([1], 1, 0, 0)
  {
  }

  lemma EmptyDirectoryImages(d: Dir, s: St, scan: BodyScanner)
    requires s.dir.files == map[] && Through(St(d, s.w, [d]), s, (e: Dir) => e.files == map[])
    requires |s.trace| > 0 && s.trace[0] == d && d.files == map[]
    ensures var o := RecoverListed(s, [], scan);
      && o.ok && o.st.dir.files == map[1 := EMPTY_FILE] && o.st.w == Writer([1], 1, 0, 0)
      && forall im | im in o.st.trace :: im.files == map[] || im.files == map[1 := EMPTY_FILE]
  {
    var o := RecoverListed(s, [], scan);
    forall im | im in o.st.trace
      ensures im.files == map[] || im.files == map[1 := EMPTY_FILE]
    {
      var k :| 0 <= k < |o.st.trace| && o.st.trace[k] == im;
      if k < |s.trace| {
        assert im == s.trace[k];
      }
    }
  }

  lemma NoFilesNoNames(names: seq<nat>)
    requires Listing(names, {})
    ensures names == []
  {
    ListingUnique(names, [], {});
  }

  /** A brand-new log: the first segment is there or it is not. */
  lemma RecoverEmptyDirectory(d: Dir, im: Dir, c: Dir, s: St, scan: BodyScanner)
    requires Rescannable(scan) && d.files == map[] && s.dir.files == d.files && c.files == im.files
    requires Through(St(d, s.w, [d]), s, (e: Dir) => e.files == d.files) && |s.trace| > 0 && s.trace[0] == d
    requires Recover(d, scan) == RecoverListed(s, [], scan)
    requires im in Recover(d, scan).st.trace
    ensures Recover(c, scan).ok
    ensures Recover(c, scan).st.dir.files == Recover(d, scan).st.dir.files
    ensures Recover(c, scan).st.w == Recover(d, scan).st.w
  {
    EmptyDirectoryImages(d, s, scan);
    if im.files == map[] {
      var t, tnames := RecoverWhole(c, scan);
      NoFilesNoNames(tnames);
      EmptyDirectoryImages(c, t, scan);
    } else {
      RecoverFreshLog(c, scan);
    }
  }
}
