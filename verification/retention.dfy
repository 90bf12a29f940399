/** Truncate and CutOffset, step by step. */
module Retention {
  import opened History
  import opened Directory
  import opened State
  import opened RecoveryIdempotence
  import opened Layout
  import opened Steps
  import opened WriterOps
  import opened Operations

  /** The shape without its first `m` segments. */
  function BeheadN(t: Shape, m: nat): Shape
    requires m <= |t.prior| + |t.bs|
  {
    if m <= |t.prior| then t.(prior := t.prior[m..]) else t.(prior := [], bs := t.bs[m - |t.prior|..])
  }

  /** The log proper still starts low enough after `m` removals. */
  predicate StartsLow(t: Shape, m: nat, floor: nat) {
    m < |t.prior| + |t.bs| && t.bs != [] && (if m <= |t.prior| then t.bs[0] else t.bs[m - |t.prior|]) <= floor
  }

  lemma BeheadOnce(t: Shape, m: nat, floor: nat, next: nat)
    requires 0 < m && t.bs != [] && Ordered(t, next) && StartsLow(t, m, floor)
    ensures |t.prior| + |t.bs| > 1 && (t.prior == [] ==> |t.bs| > 1)
    ensures var u := Behead(t);
      && u.bs != [] && u.prior + u.bs == (t.prior + t.bs)[1..]
      && StartsLow(u, m - 1, floor) && u.bs[0] <= floor && t.bs[0] <= floor
      && BeheadN(u, m - 1) == BeheadN(t, m)
  {
    StartsLower(t, m, floor, next);
    BeheadTail(t, m);
    hide Ordered;
  }

  /** The bases ascend, so the log proper started low enough all the time. */
  lemma StartsLower(t: Shape, m: nat, floor: nat, next: nat)
    requires 0 < m && t.bs != [] && Ordered(t, next) && StartsLow(t, m, floor)
    ensures t.bs[0] <= floor && (t.prior == [] ==> |t.bs| > 1 && t.bs[1] <= floor)
  {
    var names := t.prior + t.bs;
    var p := |t.prior|;
    if m > p {
      assert names[p] == t.bs[0] && names[m] == t.bs[m - p];
      if p == 0 && m > 1 {
        assert names[1] == t.bs[1];
      }
    }
  }

  lemma BeheadTail(t: Shape, m: nat)
    requires 0 < m < |t.prior| + |t.bs|
    ensures var u := Behead(t);
      u.prior + u.bs == (t.prior + t.bs)[1..] && BeheadN(u, m - 1) == BeheadN(t, m)
  {
    if t.prior == [] {
      assert [] + t.bs == t.bs && t.bs[1..][m - 1..] == t.bs[m..];
    } else if m <= |t.prior| {
      assert t.prior[1..][m - 1..] == t.prior[m..];
    }
  }

  lemma LiveOrdered(d: Dir, t: Shape, h: seq<Payload>, durable: nat, crash: bool)
    requires Live(d, t, h, durable, crash)
    ensures Ordered(t, Next(h))
  {
    hide Ordered;
  }

  lemma RemovePath(s: St, t: Shape, h: seq<Payload>, b: Bounds)
    requires Traced(s) && Live(s.dir, t, h, b.durable, b.crash)
    requires |t.prior| + |t.bs| > 1 && t.bs != [] && (t.prior == [] ==> |t.bs| > 1) && Behead(t).bs != []
    requires Allows(b, h, b.durable, b.crash, Behead(t).bs[0])
    ensures var r := Do(s, Remove((t.prior + t.bs)[0]));
      Path(s, r, b) && Live(r.dir, Behead(t), h, b.durable, b.crash) && r.w == s.w
  {
    hide Live, Evolves, Apply;
    var step := Remove((t.prior + t.bs)[0]);
    RemoveStep(s.dir, t, h, b.durable, b.crash);
    assert b.h[..|h|] == h;
    PathStep(s, step, b, |h|, Behead(t));
  }

  /** Removing the first `m` segment files, lowest first. */
  lemma {:induction false} RemoveFirstsPath(s: St, t: Shape, h: seq<Payload>, m: nat, b: Bounds)
    requires Traced(s) && t.bs != [] && Live(s.dir, t, h, b.durable, b.crash)
    requires StartsLow(t, m, b.floor) && h <= b.h && b.low <= |h|
    ensures var r := RemoveAll(s, (t.prior + t.bs)[..m]);
      Path(s, r, b) && Live(r.dir, BeheadN(t, m), h, b.durable, b.crash) && r.w == s.w
    decreases m
  {
    hide Live, Evolves, Apply, Passing;
    var names := t.prior + t.bs;
    if m == 0 {
      PathRefl(s, b);
      assert t.prior[0..] == t.prior;
    } else {
      LiveOrdered(s.dir, t, h, b.durable, b.crash);
      BeheadOnce(t, m, b.floor, Next(h));
      RemovePath(s, t, h, b);
      var u := Do(s, Remove(names[0]));
      RemoveFirstsPath(u, Behead(t), h, m - 1, b);
      assert names[..m][0] == names[0] && names[..m][1..] == names[1..][..m - 1];
      hide Ordered, Do;
      PathChain(s, u, RemoveAll(s, names[..m]), b);
    }
  }

  lemma {:induction false} DeletableIs(bases: seq<nat>, upTo: nat)
    requires bases != [] && Ascending(bases)
    ensures var k := Deletable(bases, upTo);
      && (k > 0 ==> bases[k] <= upTo)
      && (k + 1 < |bases| ==> upTo < bases[k + 1])
    decreases |bases|
  {
    if |bases| >= 2 && bases[1] <= upTo {
      DeletableIs(bases[1..], upTo);
    }
  }

  lemma {:induction false} BoundaryIs(bases: seq<nat>, cut: nat)
    requires bases != [] && Ascending(bases) && bases[0] <= cut
    ensures var k := BoundaryIndex(bases, cut);
      && bases[k] <= cut
      && (k + 1 < |bases| ==> cut < bases[k + 1])
    decreases |bases|
  {
    if |bases| >= 2 && bases[1] <= cut {
      BoundaryIs(bases[1..], cut);
    }
  }

  lemma RunningAscending(s: St, h: seq<Payload>, durable: nat, crash: bool, maxRec: nat)
    requires Running(s, h, durable, crash, maxRec)
    ensures Ascending(s.w.bases)
  {
    hide Span, Whole, Tip;
    assert [] + s.w.bases == s.w.bases;
  }

  lemma PlainNames(bs: seq<nat>, k: nat)
    requires k < |bs|
    ensures (Plain(bs).prior + Plain(bs).bs)[..k] == bs[..k]
    ensures k > 0 ==> BeheadN(Plain(bs), k) == Plain(bs[k..])
    ensures k == 0 ==> BeheadN(Plain(bs), k) == Plain(bs)
  {
    assert [] + bs == bs;
  }

  lemma LiveIsLaid(d: Dir, t: Shape, h: seq<Payload>, durable: nat, crash: bool)
    requires Live(d, t, h, durable, crash)
    ensures Laid(d.files, t, h) && t.torn == []
  {
    hide Laid;
  }

  /** A directory of the right shape under a writer of the right bounds is a running log. */
  lemma RunningBy(s: St, w: Writer, h: seq<Payload>, durable: nat, crash: bool, maxRec: nat)
    requires Traced(s) && w.bases != [] && Live(s.dir, Plain(w.bases), h, durable, crash) && Storable(h, maxRec)
    requires w.nextLSN == Next(h) && w.lastLSN == |h|
    requires if w.firstLSN == 0 then w.bases[0] == Next(h) else w.firstLSN == w.bases[0]
    requires |w.bases| > 1 ==> LastBase(w.bases) < Next(h)
    ensures Running(s.(w := w), h, durable, crash, maxRec)
  {
    LiveIsLaid(s.dir, Plain(w.bases), h, durable, crash);
    hide Live, Laid, Storable;
  }

  /** What deleting whole segments leaves behind. */
  lemma DropPath(s: St, h: seq<Payload>, k: nat, b: Bounds, maxRec: nat)
    requires Running(s, h, b.durable, b.crash, maxRec) && 0 < k < |s.w.bases|
    requires s.w.bases[k] <= b.floor && h <= b.h && b.low <= |h|
    ensures var s1 := RemoveAll(s, s.w.bases[..k]);
      var r := s1.(w := s1.w.(bases := s.w.bases[k..], firstLSN := s.w.bases[k]));
      Path(s, r, b) && Running(r, h, b.durable, b.crash, maxRec)
  {
    hide Live, Evolves, Passing, Laid, Storable;
    var bs := s.w.bases;
    PlainNames(bs, k);
    RemoveFirstsPath(s, Plain(bs), h, k, b);
    var s1 := RemoveAll(s, bs[..k]);
    var w := s1.w.(bases := bs[k..], firstLSN := bs[k]);
    hide RemoveAll;
    LiveIsLaid(s1.dir, Plain(bs[k..]), h, b.durable, b.crash);
    PathWriter(s, s1, b, w);
    PositiveBase(s1.dir.files, bs[k..], h);
    RunningBy(s1, w, h, b.durable, b.crash, maxRec);
  }

  lemma PositiveBase(f: Files, bs: seq<nat>, h: seq<Payload>)
    requires bs != [] && Laid(f, Plain(bs), h)
    ensures 1 <= bs[0] <= LastBase(bs) <= Next(h)
  {
    hide Span, Whole, Tip, Ascending;
    assert [] + bs == bs;
    OrderedListing(Plain(bs), Next(h));
  }

  /** Truncate, step by step. */
  lemma TruncatePath(s: St, h: seq<Payload>, upTo: nat, b: Bounds, maxRec: nat)
    requires Running(s, h, b.durable, b.crash, maxRec)
    requires s.w.bases[0] <= b.floor && Min(upTo, Next(h)) <= b.floor && h <= b.h && b.low <= |h|
    ensures var r := Truncate(s, upTo);
      Path(s, r, b) && Running(r, h, b.durable, b.crash, maxRec)
  {
    RunningAscending(s, h, b.durable, b.crash, maxRec);
    RunningFirst(s, h, b.durable, b.crash, maxRec);
    DeletableIs(s.w.bases, upTo);
    var k := Deletable(s.w.bases, upTo);
    if k > 0 {
      BaseBelowNext(s.w.bases, k);
      hide Running, Path, RemoveAll, Ascending, Deletable;
      DropPath(s, h, k, b, maxRec);
    } else {
      RunningRefl(s, h, b, maxRec);
    }
  }

  lemma BaseBelowNext(bases: seq<nat>, k: nat)
    requires k < |bases| && Ascending(bases)
    ensures bases[k] <= LastBase(bases)
  {
  }

  lemma RunningRefl(s: St, h: seq<Payload>, b: Bounds, maxRec: nat)
    requires Running(s, h, b.durable, b.crash, maxRec)
    ensures Path(s, s, b)
  {
  }
}
