/** The log at rest, what a crash makes of it, and what recovery makes of that. */
module Resting {
  import opened Records
  import opened History
  import opened Directory
  import opened State
  import opened Recovery
  import opened RecoveryTheorems
  import opened RecoveryIdempotence
  import opened Layout
  import opened LayoutRecovery

  /** The representation invariant of the writer between operations: ascending bases, sealed
      segments full and non-empty, the active one reaching to the next LSN, empty only when alone. */
  ghost predicate AtRest(d: Dir, w: Writer, h: seq<Payload>, maxRec: nat) {
    && Storable(h, maxRec)
    && w.bases != [] && Laid(d.files, Plain(w.bases), h)
    && w.nextLSN == Next(h) && w.lastLSN == |h|
    && (if w.firstLSN == 0 then w.bases[0] == Next(h) else w.firstLSN == w.bases[0])
    && (|w.bases| > 1 ==> LastBase(w.bases) < Next(h))
  }

  /** `g` is an intermediate directory of a recovery of `f`: same history, nothing lost. */
  ghost predicate Descends(f: Files, s: Shape, h: seq<Payload>, maxRec: nat, g: Files) {
    exists t: Shape :: Laid(g, t, h) && Readable(t, h, maxRec) && NoLess(f, s, g, t, h)
  }

  lemma NoTail(maxRec: nat)
    ensures TornTail([], maxRec)
  {
  }

  lemma DescendsBy(f: Files, s: Shape, h: seq<Payload>, maxRec: nat, g: Files, t: Shape)
    requires Laid(g, t, h) && Readable(t, h, maxRec) && NoLess(f, s, g, t, h)
    ensures Descends(f, s, h, maxRec, g)
  {
  }

  lemma MidwayDescends(f: Files, s: Shape, h: seq<Payload>, maxRec: nat, names: seq<nat>, g: Files)
    requires Laid(f, s, h) && Readable(s, h, maxRec)
    requires Listing(names, f.Keys) && Listed(f, names) && names != [] && Accepts(f, names, SegmentScanner(maxRec))
    requires Midway(f, names, SegmentScanner(maxRec), g)
    ensures Descends(f, s, h, maxRec, g)
  {
    var scan := SegmentScanner(maxRec);
    LaidScanned(f, s, h, maxRec);
    LaidReconciled(f, s, h, names, scan);
    LaidSurvives(f, s, h, names, scan);
    LaidNumbered(f, s, h, scan);
    NumberedHolds(f, names, scan);
    hide Numbered, Collapses, Accepts, Scanned, Laid, Readable, Descends, Surviving, Reconciled, FinalFiles, Mended;
    if Without(f, names, |s.prior|, g) {
      var m: nat :| m <= |s.prior| && g == f - Elements(names[..m]);
      MidwayWithout(f, s, h, maxRec, names, m);
    } else {
      MidwayEnd(f, s, h, maxRec, names, g);
    }
  }

  lemma MidwayWithout(f: Files, s: Shape, h: seq<Payload>, maxRec: nat, names: seq<nat>, m: nat)
    requires Laid(f, s, h) && Readable(s, h, maxRec) && names == s.prior + s.bs && m <= |s.prior|
    ensures Descends(f, s, h, maxRec, f - Elements(names[..m]))
  {
    hide Laid, NoLess, TornTail;
    assert names[..m] == s.prior[..m];
    WithoutPrior(f, s, h, m);
    WithoutNoLess(f, s, h, m);
    DescendsBy(f, s, h, maxRec, f - Elements(names[..m]), s.(prior := s.prior[m..]));
  }

  lemma MidwayEnd(f: Files, s: Shape, h: seq<Payload>, maxRec: nat, names: seq<nat>, g: Files)
    requires Readable(s, h, maxRec) && s.bs != []
    requires var k := f - Elements(s.prior);
      var scan := SegmentScanner(maxRec);
      && Scanned(k, s.(prior := []), h, scan) && NoLess(f, s, k, s.(prior := []), h)
      && LastBase(s.bs) in k
      && (g == Mended(k, LastBase(s.bs), scan) || g == FinalFiles(k, s.bs, scan))
    ensures Descends(f, s, h, maxRec, g)
  {
    hide Laid, NoLess, TornTail, Scanned, Mended;
    var scan := SegmentScanner(maxRec);
    var k := f - Elements(s.prior);
    var t := if g == FinalFiles(k, s.bs, scan) then Plain(Keep(s.bs, Next(h))) else Plain(s.bs);
    LaidFinal(k, s.(prior := []), h, scan);
    NoTail(maxRec);
    NoLessChain(f, s, k, s.(prior := []), g, t, h);
    DescendsBy(f, s, h, maxRec, g, t);
  }

  /** A laid-out directory recovers: the writer comes back over exactly its history. */
  lemma RecoverLaid(d: Dir, s: Shape, h: seq<Payload>, maxRec: nat)
    requires Laid(d.files, s, h) && Readable(s, h, maxRec)
    ensures var o := Recover(d, SegmentScanner(maxRec));
      && o.ok
      && o.st.w == WriterFor(Keep(s.bs, Next(h)), h)
      && AtRest(o.st.dir, o.st.w, h, maxRec)
      && NoLess(d.files, s, o.st.dir.files, Plain(o.st.w.bases), h)
      && (forall im | im in o.st.trace :: Descends(d.files, s, h, maxRec, im.files))
  {
    var scan := SegmentScanner(maxRec);
    LaidScanned(d.files, s, h, maxRec);
    LaidNumbered(d.files, s, h, scan);
    var t, names := RecoverWhole(d, scan);
    LaidReconciled(d.files, s, h, names, scan);
    LaidSurvives(d.files, s, h, names, scan);
    RecoverClosed(t, names, scan);
    NumberedHolds(d.files, names, scan);
    var o := Recover(d, scan);
    hide Recover, RecoverListed, Listed, Laid, Scanned, Contiguous, FinalFiles, FinalWriter, Numbered, Midway, NoLess;
    hide Accepts, Reconciled, Surviving, Descends, EndFiles, EndWriter, Collapses, Drops;
    RecoverLaidEnd(d.files - Elements(s.prior), s, h, scan, o.st.dir, maxRec);
    NoLessChain(d.files, s, d.files - Elements(s.prior), s.(prior := []), o.st.dir.files, Plain(o.st.w.bases), h);
    forall im | im in o.st.trace
      ensures Descends(d.files, s, h, maxRec, im.files)
    {
      RecoverImages(d, im, t, names, scan);
      MidwayDescends(d.files, s, h, maxRec, names, im.files);
    }
  }

  lemma RecoverLaidEnd(g: Files, s: Shape, h: seq<Payload>, scan: BodyScanner, e: Dir, maxRec: nat)
    requires Scanned(g, s.(prior := []), h, scan) && Contiguous(g, s.bs, scan)
    requires e.files == FinalFiles(g, s.bs, scan) && Storable(h, maxRec)
    ensures FinalWriter(g, s.bs, scan) == WriterFor(Keep(s.bs, Next(h)), h)
    ensures AtRest(e, FinalWriter(g, s.bs, scan), h, maxRec)
    ensures NoLess(g, s.(prior := []), FinalFiles(g, s.bs, scan), Plain(Keep(s.bs, Next(h))), h)
  {
    hide Whole, Tip, Span, Storable, FinalFiles;
    LaidFinal(g, s.(prior := []), h, scan);
    PriorEndIrrelevant(g, s, h, scan);
    FinalWriterIs(g, s.bs, h, s.torn, scan);
  }

  lemma PriorEndIrrelevant(g: Files, s: Shape, h: seq<Payload>, scan: BodyScanner)
    requires Scanned(g, s.(prior := []), h, scan)
    ensures Scanned(g, Shape([], 0, s.bs, s.torn), h, scan)
  {
    hide Span, Ascending, Rescannable, Tip;
    var t := s.(prior := []);
    var u := Shape([], 0, s.bs, s.torn);
    forall i | 0 <= i < |u.bs|
      ensures ScannedAt(g, u, i, h, scan)
    {
      assert ScannedAt(g, t, i, h, scan);
    }
  }
}
