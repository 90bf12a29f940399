/** Recovery of the directories the log can leave behind. */
module LayoutRecovery {
  import opened Wrappers
  import opened Bytes
  import opened Records
  import opened History
  import opened Directory
  import opened State
  import opened RecoveryTheorems
  import opened RecoveryIdempotence
  import opened Layout

  lemma HoldsScan(f: Files, b: nat, h: seq<Payload>, end: nat, maxRec: nat)
    requires Holds(f, b, h, end) && Storable(h, maxRec)
    ensures SegmentScanner(maxRec)(f[b].body)
         == ScanResult(None, end - b, if b == end then 0 else end - 1, |f[b].body|)
  {
    assert TornTail([], maxRec);
    ScanSpan(h, b, end, [], maxRec);
    assert Span(h, b, end) + [] == Span(h, b, end);
  }

  lemma TipScan(f: Files, b: nat, h: seq<Payload>, torn: seq<byte>, maxRec: nat)
    requires Tip(f, b, h, torn) && Storable(h, maxRec) && TornTail(torn, maxRec)
    ensures SegmentScanner(maxRec)(f[b].body)
         == ScanResult(if torn == [] then None else Some(Torn),
                       Next(h) - b, if b == Next(h) then 0 else |h|, |Span(h, b, Next(h))|)
  {
    ScanSpan(h, b, Next(h), torn, maxRec);
  }

  function Full(b: nat, end: nat, size: nat): ScanResult {
    if b < end then ScanResult(None, end - b, end - 1, size) else ScanResult(None, 0, 0, size)
  }

  function TipResult(b: nat, torn: seq<byte>, h: seq<Payload>, size: nat): ScanResult {
    var full := Full(b, Next(h), size);
    if torn == [] then full else full.(err := Some(Torn))
  }

  /** The scan results of a laid-out directory, for an abstract scanner. */
  ghost predicate Scanned(f: Files, s: Shape, h: seq<Payload>, scan: BodyScanner) {
    && Laid(f, s, h)
    && (forall i | 0 <= i < |s.prior| :: ScannedPrior(f, s, i, scan))
    && (forall i | 0 <= i < |s.bs| :: ScannedAt(f, s, i, h, scan))
    && Rescannable(scan)
  }

  predicate ScannedPrior(f: Files, s: Shape, i: nat, scan: BodyScanner)
    requires i < |s.prior|
  {
    var b := s.prior[i];
    b in f && scan(f[b].body) == Full(b, EndAt(s.prior, i, s.priorEnd), |f[b].body|)
  }

  predicate ScannedAt(f: Files, s: Shape, i: nat, h: seq<Payload>, scan: BodyScanner)
    requires i < |s.bs|
  {
    var b := s.bs[i];
    && b in f
    && if i + 1 < |s.bs| then scan(f[b].body) == Full(b, s.bs[i + 1], |f[b].body|)
       else |s.torn| <= |f[b].body| && scan(f[b].body) == TipResult(b, s.torn, h, |f[b].body| - |s.torn|)
  }

  lemma LaidScannedPrior(f: Files, s: Shape, h: seq<Payload>, i: nat, maxRec: nat)
    requires Laid(f, s, h) && Readable(s, h, maxRec) && i < |s.prior|
    ensures ScannedPrior(f, s, i, SegmentScanner(maxRec))
  {
    hide Ascending, Span, TornTail, ScanSegment;
    LaidAt(f, s, h, i);
    HoldsScan(f, s.prior[i], h, EndAt(s.prior, i, s.priorEnd), maxRec);
  }

  lemma LaidScannedAt(f: Files, s: Shape, h: seq<Payload>, i: nat, maxRec: nat)
    requires Laid(f, s, h) && Readable(s, h, maxRec) && i < |s.bs|
    ensures ScannedAt(f, s, i, h, SegmentScanner(maxRec))
  {
    hide Ascending, Span, TornTail, ScanSegment;
    LaidAt(f, s, h, i);
    if i + 1 < |s.bs| {
      HoldsScan(f, s.bs[i], h, s.bs[i + 1], maxRec);
    } else {
      TipScan(f, LastBase(s.bs), h, s.torn, maxRec);
    }
  }

  lemma LaidScanned(f: Files, s: Shape, h: seq<Payload>, maxRec: nat)
    requires Laid(f, s, h) && Readable(s, h, maxRec)
    ensures Scanned(f, s, h, SegmentScanner(maxRec))
  {
    hide Ascending, Span, TornTail, ScanSegment;
    SegmentScannerRescannable(maxRec);
    forall i | 0 <= i < |s.prior|
      ensures ScannedPrior(f, s, i, SegmentScanner(maxRec))
    {
      LaidScannedPrior(f, s, h, i, maxRec);
    }
    forall i | 0 <= i < |s.bs|
      ensures ScannedAt(f, s, i, h, SegmentScanner(maxRec))
    {
      LaidScannedAt(f, s, h, i, maxRec);
    }
  }

  lemma LaidListed(f: Files, s: Shape, h: seq<Payload>)
    requires Laid(f, s, h)
    ensures Listing(s.prior + s.bs, f.Keys) && Listed(f, s.prior + s.bs)
    ensures s.prior + s.bs != []
  {
    OrderedListing(s, Next(h));
    var names := s.prior + s.bs;
    forall i | 0 <= i < |names|
      ensures names[i] in f
    {
      assert names[i] in Elements(names);
    }
  }

  /** One past the last LSN of segment `i`, superseded ones first. */
  function Reach(s: Shape, h: seq<Payload>, i: nat): nat
    requires i < |s.prior| + |s.bs|
  {
    if i < |s.prior| then EndAt(s.prior, i, s.priorEnd) else EndAt(s.bs, i - |s.prior|, Next(h))
  }

  /** Segments reach exactly to the next base, except that the superseded run reaches beyond
      the start of the log proper. */
  lemma ReachIs(s: Shape, h: seq<Payload>, i: nat)
    requires Ordered(s, Next(h)) && i < |s.prior| + |s.bs|
    ensures var names := s.prior + s.bs;
      && 1 <= names[i] <= Reach(s, h, i) <= Next(h)
      && (i + 1 < |names| ==> names[i] < Reach(s, h, i))
      && (i + 1 < |names| && i + 1 == |s.prior| ==> names[i + 1] < Reach(s, h, i))
      && (i + 1 < |names| && i + 1 != |s.prior| ==> names[i + 1] == Reach(s, h, i))
  {
    var m := |s.prior|;
    OrderedListing(s, Next(h));
    OrderedNeighbours(s, Next(h), i);
    if i >= m {
      OrderedNeighbours(s, Next(h), i - m);
    }
  }

  lemma ResIs(f: Files, s: Shape, h: seq<Payload>, i: nat, scan: BodyScanner)
    requires Scanned(f, s, h, scan) && i < |s.prior| + |s.bs|
    ensures var b := (s.prior + s.bs)[i];
      && b in f
      && (i + 1 < |s.prior| + |s.bs| ==> Res(f, b, scan).err == None)
      && Res(f, b, scan).records == Reach(s, h, i) - b
      && Res(f, b, scan).lastLSN == (if b == Reach(s, h, i) then 0 else Reach(s, h, i) - 1)
  {
    hide Ascending, Span, Rescannable;
    ReachIs(s, h, i);
    if i < |s.prior| {
      assert ScannedPrior(f, s, i, scan);
    } else {
      assert ScannedAt(f, s, i - |s.prior|, h, scan);
    }
  }

  lemma LaidFollows(f: Files, s: Shape, h: seq<Payload>, i: nat, scan: BodyScanner)
    requires Scanned(f, s, h, scan) && i < |s.prior + s.bs| - 1
    requires Listed(f, s.prior + s.bs)
    ensures var names := s.prior + s.bs;
      && Follows(f, names, i, scan)
      && (if i + 1 == |s.prior| then names[i + 1] < End(f, names[i], scan) else names[i + 1] == End(f, names[i], scan))
  {
    hide Ascending, Span, Rescannable, Whole, Tip, ScannedPrior, ScannedAt;
    ResIs(f, s, h, i, scan);
    ReachIs(s, h, i);
  }

  lemma StartIs(f: Files, names: seq<nat>, j: nat, i: nat, scan: BodyScanner)
    requires Listed(f, names) && j <= i < |names|
    requires forall k | j < k <= i :: names[k] >= End(f, names[k - 1], scan)
    requires j == 0 || names[j] < End(f, names[j - 1], scan)
    ensures Start(f, names, i, scan) == j
    decreases i
  {
    if j < i {
      StartIs(f, names, j, i - 1, scan);
    }
  }

  lemma LaidHeaders(f: Files, s: Shape, h: seq<Payload>, i: nat)
    requires Laid(f, s, h) && i < |s.prior + s.bs|
    ensures (s.prior + s.bs)[i] in f && f[(s.prior + s.bs)[i]].headerOk
  {
    hide Span, Ascending, Elements, Whole;
    var m := |s.prior|;
    if i < m {
      LaidAt(f, s, h, i);
    } else {
      LaidAt(f, s, h, i - m);
    }
  }

  lemma LaidAccepted(f: Files, s: Shape, h: seq<Payload>, scan: BodyScanner)
    requires Scanned(f, s, h, scan)
    ensures var names := s.prior + s.bs;
      && Listing(names, f.Keys) && Listed(f, names) && names != []
      && Accepts(f, names, scan)
      && Start(f, names, |names| - 1, scan) == |s.prior|
  {
    hide Ascending, Span, Rescannable, Whole, Tip, ScannedPrior, ScannedAt, Res, Reach, Start, Follows, Elements;
    LaidListed(f, s, h);
    var names := s.prior + s.bs;
    forall i | 0 <= i < |names|
      ensures f[names[i]].headerOk
    {
      LaidHeaders(f, s, h, i);
    }
    forall i | 0 <= i < |names| - 1
      ensures Follows(f, names, i, scan)
    {
      LaidFollows(f, s, h, i, scan);
    }
    forall k | |s.prior| < k <= |names| - 1
      ensures names[k] >= End(f, names[k - 1], scan)
    {
      LaidFollows(f, s, h, k - 1, scan);
    }
    if s.prior != [] {
      LaidFollows(f, s, h, |s.prior| - 1, scan);
    }
    StartIs(f, names, |s.prior|, |names| - 1, scan);
  }

  lemma LaidNumbered(f: Files, s: Shape, h: seq<Payload>, scan: BodyScanner)
    requires Scanned(f, s, h, scan)
    ensures Numbered(f, scan)
  {
    hide Ascending, Span, Rescannable, Whole, Tip, ScannedPrior, ScannedAt;
    var names := s.prior + s.bs;
    forall b | b in f
      ensures Res(f, b, scan).records > 0 ==> Res(f, b, scan).lastLSN >= 1
    {
      var i :| 0 <= i < |names| && names[i] == b;
      ResIs(f, s, h, i, scan);
      ReachIs(s, h, i);
    }
  }

  /** The directory without its superseded files. */
  lemma WithoutPrior(f: Files, s: Shape, h: seq<Payload>, m: nat)
    requires Laid(f, s, h) && m <= |s.prior|
    ensures Laid(f - Elements(s.prior[..m]), s.(prior := s.prior[m..]), h)
  {
    hide Span, TornTail, Next, Ascending;
    var g := f - Elements(s.prior[..m]);
    var t := s.(prior := s.prior[m..]);
    var names := s.prior + s.bs;
    OrderedListing(s, Next(h));
    assert t.prior + t.bs == names[m..];
    assert names[..m] == s.prior[..m];
    ListingSuffix(names, f.Keys, m);
    assert g.Keys == Elements(names[m..]);
    forall i | 0 <= i < |t.prior|
      ensures WholeAt(g, t.prior, i, h, t.priorEnd)
    {
      assert WholeAt(f, s.prior, m + i, h, s.priorEnd);
      assert t.prior[i] in names[m..];
    }
    forall i | 0 <= i < |Front(t.bs)|
      ensures WholeAt(g, Front(t.bs), i, h, LastBase(t.bs))
    {
      assert WholeAt(f, Front(s.bs), i, h, LastBase(s.bs));
      assert t.bs[i] == names[m..][|t.prior| + i];
    }
    assert LastBase(t.bs) == names[m..][|names| - m - 1];
  }

  /** The bases that survive: an empty trailing segment goes unless it is alone. */
  function Keep(bs: seq<nat>, next: nat): (kb: seq<nat>)
    requires bs != []
    ensures kb != [] && kb[0] == bs[0]
  {
    if |bs| > 1 && LastBase(bs) == next then Front(bs) else bs
  }

  /** The writer over a log with nothing superseded and nothing torn. */
  function WriterFor(bs: seq<nat>, h: seq<Payload>): Writer
    requires bs != []
  {
    Writer(bs, Next(h), if bs[0] == Next(h) then 0 else bs[0], |h|)
  }

  /** Every fact about stable storage that must not get worse. */
  ghost predicate NoLess(f: Files, s: Shape, g: Files, t: Shape, h: seq<Payload>) {
    && t.bs != [] && s.bs != [] && t.bs[0] == s.bs[0]
    && (Durable(f, s) ==> Durable(g, t))
    && (forall n | Durable(f, s) && Safe(f, s, h, n) :: Safe(g, t, h, n))
  }

  /** Chopping the torn tail. */
  lemma MendedLaid(f: Files, s: Shape, h: seq<Payload>, scan: BodyScanner)
    requires Scanned(f, s, h, scan) && s.prior == []
    ensures LastBase(s.bs) in f
    ensures var g := Mended(f, LastBase(s.bs), scan);
      Laid(g, Plain(s.bs), h)
  {
    hide Ascending, Span, Rescannable;
    var b := LastBase(s.bs);
    var t := Plain(s.bs);
    assert ScannedAt(f, s, |s.bs| - 1, h, scan);
    var g := Mended(f, b, scan);
    assert f[b].body[..|f[b].body| - |s.torn|] == Span(h, b, Next(h));
    assert s.torn == [] ==> Span(h, b, Next(h)) + s.torn == Span(h, b, Next(h));
    assert g.Keys == f.Keys;
    OrderedListing(s, Next(h));
    forall i | 0 <= i < |Front(s.bs)|
      ensures WholeAt(g, Front(s.bs), i, h, b)
    {
      assert WholeAt(f, Front(s.bs), i, h, b);
      OrderedNeighbours(s, Next(h), i);
    }
  }

  lemma MendedNoLess(f: Files, s: Shape, h: seq<Payload>, scan: BodyScanner)
    requires Scanned(f, s, h, scan) && s.prior == [] && LastBase(s.bs) in f
    ensures NoLess(f, s, Mended(f, LastBase(s.bs), scan), Plain(s.bs), h)
  {
    hide Ascending, Span, Rescannable, Whole;
    var b := LastBase(s.bs);
    var t := Plain(s.bs);
    var g := Mended(f, b, scan);
    assert ScannedAt(f, s, |s.bs| - 1, h, scan);
    if Durable(f, s) {
      forall i | 0 <= i < |Front(s.bs)|
        ensures Front(s.bs)[i] in g && g[Front(s.bs)[i]].synced == |g[Front(s.bs)[i]].body|
      {
        assert Front(s.bs)[i] in f && f[Front(s.bs)[i]].synced == |f[Front(s.bs)[i]].body|;
      }
    }
    forall n | Durable(f, s) && Safe(f, s, h, n)
      ensures Safe(g, t, h, n)
    {
      if b <= n {
        SpanMonotone(h, b, n + 1, Next(h));
      }
    }
  }

  lemma FrontBelow(bs: seq<nat>, i: nat)
    requires Ascending(bs) && i < |bs| - 1
    ensures Front(bs)[i] == bs[i] && bs[i] < LastBase(bs)
  {
  }

  lemma FrontAgrees(f: Files, bs: seq<nat>)
    requires bs != [] && Ascending(bs) && f.Keys == Elements(bs)
    ensures var g := f - {LastBase(bs)};
      Agree(f, g, Front(bs)) && g.Keys == Elements(Front(bs))
  {
    var g := f - {LastBase(bs)};
    forall i | 0 <= i < |Front(bs)|
      ensures Front(bs)[i] in f && Front(bs)[i] in g
    {
      FrontBelow(bs, i);
      assert bs[i] in Elements(bs);
    }
    ListingPrefix(bs, f.Keys);
  }

  /** Pruning the empty trailing segment. */
  lemma PrunedLaid(f: Files, bs: seq<nat>, h: seq<Payload>)
    requires Laid(f, Plain(bs), h) && |bs| > 1 && LastBase(bs) == Next(h)
    ensures var g := f - {LastBase(bs)};
      Laid(g, Plain(Front(bs)), h) && LastBase(Front(bs)) < Next(h)
  {
    hide Span, Ascending;
    var g := f - {LastBase(bs)};
    var kb := Front(bs);
    PlainParts(f, bs, h, []);
    FrontAgrees(f, bs);
    FrontBelow(bs, |bs| - 2);
    assert WholeAt(f, kb, |kb| - 1, h, LastBase(bs));
    assert Span(h, LastBase(kb), Next(h)) + [] == Span(h, LastBase(kb), Next(h));
    WholeFrame(f, g, kb, h, LastBase(bs));
    WholePrefix(g, kb, h, LastBase(bs), |kb| - 1);
    FrontAscending(bs);
    PlainParts(g, kb, h, []);
  }

  lemma FrontAscending(bs: seq<nat>)
    requires bs != [] && Ascending(bs)
    ensures Ascending(Front(bs))
  {
  }

  lemma PrunedNoLess(f: Files, bs: seq<nat>, h: seq<Payload>)
    requires Laid(f, Plain(bs), h) && |bs| > 1 && LastBase(bs) == Next(h)
    ensures NoLess(f, Plain(bs), f - {LastBase(bs)}, Plain(Front(bs)), h)
  {
    hide Span, Ascending;
    var kb := Front(bs);
    var g := f - {LastBase(bs)};
    PlainParts(f, bs, h, []);
    FrontAgrees(f, bs);
    assert WholeAt(f, kb, |kb| - 1, h, LastBase(bs));
    if Durable(f, Plain(bs)) {
      WholeFrame(f, g, kb, h, LastBase(bs));
      WholePrefix(g, kb, h, LastBase(bs), |kb| - 1);
    }
    forall n | Durable(f, Plain(bs)) && Safe(f, Plain(bs), h, n)
      ensures Safe(g, Plain(kb), h, n)
    {
      PrunedSafe(f, g, kb, h, n, LastBase(bs));
    }
  }

  lemma PrunedSafe(f: Files, g: Files, kb: seq<nat>, h: seq<Payload>, n: nat, end: nat)
    requires kb != [] && end == Next(h) && n <= |h|
    requires WholeAt(f, kb, |kb| - 1, h, end) && SyncedOn(f, kb) && Agree(f, g, kb)
    ensures Safe(g, Plain(kb), h, n)
  {
    var b := LastBase(kb);
    assert b in f && f[b].synced == |f[b].body|;
    if b <= n {
      SpanMonotone(h, b, n + 1, Next(h));
    }
  }

  lemma ScannedWithout(f: Files, s: Shape, h: seq<Payload>, m: nat, scan: BodyScanner)
    requires Scanned(f, s, h, scan) && m <= |s.prior|
    ensures Scanned(f - Elements(s.prior[..m]), s.(prior := s.prior[m..]), h, scan)
  {
    hide Span, Ascending, Rescannable, Whole, Tip;
    WithoutPrior(f, s, h, m);
    var g := f - Elements(s.prior[..m]);
    var t := s.(prior := s.prior[m..]);
    LaidListed(g, t, h);
    forall i | 0 <= i < |t.prior|
      ensures ScannedPrior(g, t, i, scan)
    {
      assert ScannedPrior(f, s, m + i, scan);
      assert (t.prior + t.bs)[i] in g;
    }
    forall i | 0 <= i < |t.bs|
      ensures ScannedAt(g, t, i, h, scan)
    {
      assert ScannedAt(f, s, i, h, scan);
      assert (t.prior + t.bs)[|t.prior| + i] in g;
    }
  }

  lemma SyncedFrame(f: Files, g: Files, bs: seq<nat>)
    requires Agree(f, g, bs) && SyncedOn(f, bs)
    ensures SyncedOn(g, bs)
  {
  }

  lemma AgreeSub(f: Files, g: Files, bs: seq<nat>)
    requires forall b | b in g :: b in f && g[b] == f[b]
    requires forall i | 0 <= i < |bs| :: bs[i] in g
    ensures Agree(f, g, bs)
  {
  }

  lemma LaidIn(g: Files, t: Shape, h: seq<Payload>)
    requires Laid(g, t, h)
    ensures forall i | 0 <= i < |t.prior| :: t.prior[i] in g
    ensures forall i | 0 <= i < |Front(t.bs)| :: Front(t.bs)[i] in g
    ensures LastBase(t.bs) in g
  {
    hide Ascending, Span, Whole;
    var names := t.prior + t.bs;
    forall i | 0 <= i < |t.prior|
      ensures t.prior[i] in g
    {
      assert names[i] in Elements(names);
    }
    forall i | 0 <= i < |Front(t.bs)|
      ensures Front(t.bs)[i] in g
    {
      assert names[|t.prior| + i] in Elements(names);
    }
  }

  lemma WithoutNoLess(f: Files, s: Shape, h: seq<Payload>, m: nat)
    requires Laid(f, s, h) && m <= |s.prior|
    ensures NoLess(f, s, f - Elements(s.prior[..m]), s.(prior := s.prior[m..]), h)
  {
    hide Elements, Next, Tip, Span;
    WithoutPrior(f, s, h, m);
    var g := f - Elements(s.prior[..m]);
    var t := s.(prior := s.prior[m..]);
    LaidIn(g, t, h);
    hide Laid, SyncedOn;
    AgreeSub(f, g, t.prior);
    AgreeSub(f, g, Front(t.bs));
    AgreeSub(f, g, [LastBase(t.bs)]);
    assert [LastBase(t.bs)][0] in g;
    if Durable(f, s) {
      SyncedSuffix(f, s.prior, m);
      SyncedFrame(f, g, t.prior);
      SyncedFrame(f, g, Front(t.bs));
      if t.prior != [] && LastBase(t.bs) < t.priorEnd {
        SyncedFrame(f, g, [LastBase(t.bs)]);
      }
    }
  }

  lemma SyncedSuffix(f: Files, bs: seq<nat>, m: nat)
    requires SyncedOn(f, bs) && m <= |bs|
    ensures SyncedOn(f, bs[m..])
  {
  }

  lemma NoLessChain(f: Files, s: Shape, g: Files, t: Shape, k: Files, u: Shape, h: seq<Payload>)
    requires NoLess(f, s, g, t, h) && NoLess(g, t, k, u, h)
    ensures NoLess(f, s, k, u, h)
  {
    hide Durable, Safe;
  }

  /** The end of recovery: contents and bounds of what survives. */
  lemma LaidFinal(f: Files, s: Shape, h: seq<Payload>, scan: BodyScanner)
    requires Scanned(f, s, h, scan) && s.prior == []
    ensures LastBase(s.bs) in f
    ensures FinalBases(f, s.bs, scan) == Keep(s.bs, Next(h))
    ensures Laid(Mended(f, LastBase(s.bs), scan), Plain(s.bs), h)
    ensures NoLess(f, s, Mended(f, LastBase(s.bs), scan), Plain(s.bs), h)
    ensures Laid(FinalFiles(f, s.bs, scan), Plain(Keep(s.bs, Next(h))), h)
    ensures NoLess(f, s, FinalFiles(f, s.bs, scan), Plain(Keep(s.bs, Next(h))), h)
    ensures |Keep(s.bs, Next(h))| > 1 ==> LastBase(Keep(s.bs, Next(h))) < Next(h)
  {
    hide Span, Ascending, Rescannable, Whole, Tip, NoLess, ScannedAt, ScannedPrior;
    MendedLaid(f, s, h, scan);
    MendedNoLess(f, s, h, scan);
    var n := |s.bs| - 1;
    ResIs(f, s, h, n, scan);
    ReachIs(s, h, n);
    var g := Mended(f, LastBase(s.bs), scan);
    if PrunesLast(f, s.bs, scan) {
      PrunedLaid(g, s.bs, h);
      PrunedNoLess(g, s.bs, h);
      NoLessChain(f, s, g, Plain(s.bs), FinalFiles(f, s.bs, scan), Plain(Front(s.bs)), h);
    }
  }

  /** The closed forms of recovery, evaluated on a laid-out directory. */
  lemma LaidReconciled(f: Files, s: Shape, h: seq<Payload>, names: seq<nat>, scan: BodyScanner)
    requires Scanned(f, s, h, scan) && Listing(names, f.Keys)
    ensures names == s.prior + s.bs && names != [] && Listed(f, names) && Accepts(f, names, scan)
    ensures Start(f, names, |names| - 1, scan) == |s.prior|
    ensures Surviving(f, names, scan) == s.bs && Reconciled(f, names, scan) == f - Elements(s.prior)
  {
    hide Span, Ascending, Scanned, Accepts;
    LaidAccepted(f, s, h, scan);
    ListingUnique(names, s.prior + s.bs, f.Keys);
    assert names[..|s.prior|] == s.prior && names[|s.prior|..] == s.bs;
  }

  lemma LaidSurvives(f: Files, s: Shape, h: seq<Payload>, names: seq<nat>, scan: BodyScanner)
    requires Scanned(f, s, h, scan) && Listing(names, f.Keys)
    ensures Listed(f, names) && names != []
    ensures Scanned(Reconciled(f, names, scan), s.(prior := []), h, scan)
    ensures NoLess(f, s, Reconciled(f, names, scan), s.(prior := []), h)
    ensures Contiguous(Reconciled(f, names, scan), s.bs, scan)
  {
    LaidReconciled(f, s, h, names, scan);
    hide *;
    SurvivingContiguous(f, names, scan);
    LaidAlone(f, s, h, scan);
  }

  lemma LaidAlone(f: Files, s: Shape, h: seq<Payload>, scan: BodyScanner)
    requires Scanned(f, s, h, scan)
    ensures Scanned(f - Elements(s.prior), s.(prior := []), h, scan)
    ensures NoLess(f, s, f - Elements(s.prior), s.(prior := []), h)
  {
    hide Span, Ascending, Rescannable, Whole, Tip, NoLess, ScannedAt, ScannedPrior;
    var m := |s.prior|;
    assert s.prior == s.prior[..m] && s.prior[m..] == [];
    ScannedWithout(f, s, h, m, scan);
    WithoutNoLess(f, s, h, m);
  }

  lemma LastRes(g: Files, bs: seq<nat>, h: seq<Payload>, torn: seq<byte>, scan: BodyScanner)
    requires Scanned(g, Shape([], 0, bs, torn), h, scan)
    ensures var b := LastBase(Keep(bs, Next(h)));
      && b in g && 1 <= b <= Next(h)
      && Res(g, b, scan).records == Next(h) - b
      && Res(g, b, scan).lastLSN == (if b == Next(h) then 0 else |h|)
  {
    hide Span, Ascending, Rescannable, Whole, Tip, ScannedAt, ScannedPrior, Res;
    var s := Shape([], 0, bs, torn);
    var i := |Keep(bs, Next(h))| - 1;
    ResIs(g, s, h, i, scan);
    ReachIs(s, h, i);
    hide Scanned, Reach;
    assert ([] + bs)[i] == bs[i];
    assert EndAt(bs, i, Next(h)) == Next(h);
  }

  lemma FirstRes(g: Files, bs: seq<nat>, h: seq<Payload>, torn: seq<byte>, scan: BodyScanner)
    requires Scanned(g, Shape([], 0, bs, torn), h, scan)
    ensures bs[0] in g && (Res(g, bs[0], scan).records == 0 <==> bs[0] == Next(h))
  {
    hide Span, Ascending, Rescannable, Whole, Tip, ScannedAt, ScannedPrior, Res;
    var s := Shape([], 0, bs, torn);
    ResIs(g, s, h, 0, scan);
    ReachIs(s, h, 0);
    assert ([] + bs)[0] == bs[0];
  }

  lemma FinalWriterIs(g: Files, bs: seq<nat>, h: seq<Payload>, torn: seq<byte>, scan: BodyScanner)
    requires Scanned(g, Shape([], 0, bs, torn), h, scan) && Contiguous(g, bs, scan)
    requires FinalBases(g, bs, scan) == Keep(bs, Next(h))
    ensures FinalWriter(g, bs, scan) == WriterFor(Keep(bs, Next(h)), h)
  {
    FirstRes(g, bs, h, torn, scan);
    LastRes(g, bs, h, torn, scan);
    assert Keep(bs, Next(h))[0] == bs[0];
    hide Scanned, Contiguous, FinalBases, Keep, Res;
  }
}
