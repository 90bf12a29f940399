/** The writer keeps the promises readers rely on: every directory and index it passes through is a
    world in the sense of Reading, and each flows from the one before. */
module Moments {
  import opened Seqs
  import opened History
  import opened Directory
  import opened State
  import opened RecoveryIdempotence
  import opened Layout
  import opened LayoutRecovery
  import opened Steps
  import opened Operations
  import opened Retention
  import opened Cutting
  import opened Reading
  import opened Readers

  /** Segment `i`, superseded ones first, holds the records up to where it reaches. */
  lemma LaidBody(d: Dir, t: Shape, k: seq<Payload>, i: nat)
    requires Laid(d.files, t, k) && t.torn == [] && i < |t.prior + t.bs|
    ensures var b := (t.prior + t.bs)[i];
      && b in d.files && Interval(k, b, Reach(t, k, i))
      && d.files[b].body == Span(k, b, Reach(t, k, i))
  {
    hide Span, Ascending;
    LaidAt(d.files, t, k, i);
    if i >= |t.prior| {
      LaidAt(d.files, t, k, i - |t.prior|);
      if i == |t.prior + t.bs| - 1 {
        EmptyUnit(Span(k, LastBase(t.bs), Next(k)));
      }
    }
  }

  /** A segment of an earlier history is a prefix of the same segment of a later one. */
  lemma SpanPrefix(k: seq<Payload>, h: seq<Payload>, b: nat, e: nat)
    requires k <= h && Interval(k, b, e)
    ensures Interval(h, b, Next(h)) && Span(k, b, e) <= Span(h, b, Next(h)) && Span(h, b, e) == Span(k, b, e)
  {
    SpanStable(k, h, b, e);
    SpanSplit(h, b, e, Next(h));
  }

  lemma LaidTruthful(d: Dir, t: Shape, k: seq<Payload>, h: seq<Payload>)
    requires Laid(d.files, t, k) && t.torn == [] && Bygone(d, t, k) && k <= h
    ensures Truthful(d, h)
  {
    hide Span, Laid;
    forall b | b in Known(d)
      ensures TruthfulAt(d, b, h)
    {
      if b in d.files {
        var i := IndexOf(d.files, t, k, b);
        LaidBody(d, t, k, i);
        SpanPrefix(k, h, b, Reach(t, k, i));
      } else {
        assert IsSpan(d.unlinked[b], b, k);
        var e: nat :| Interval(k, b, e) && d.unlinked[b] == Span(k, b, e);
        SpanPrefix(k, h, b, e);
      }
    }
  }

  lemma IndexOf(f: Files, t: Shape, k: seq<Payload>, b: nat) returns (i: nat)
    requires Laid(f, t, k) && b in f
    ensures i < |t.prior + t.bs| && (t.prior + t.bs)[i] == b
  {
    hide Whole, Tip, Ascending;
    assert b in Elements(t.prior + t.bs);
    i :| 0 <= i < |t.prior + t.bs| && (t.prior + t.bs)[i] == b;
  }

  lemma LaidGoneFirst(d: Dir, t: Shape, k: seq<Payload>)
    requires Laid(d.files, t, k) && Bygone(d, t, k)
    ensures GoneFirst(d)
  {
    LaidRange(d.files, t, k);
    hide Laid, IsSpan;
  }

  /** The files on disk cover what is committed. */
  lemma LaidChain(d: Dir, t: Shape, k: seq<Payload>, h: seq<Payload>, end: nat)
    requires Laid(d.files, t, k) && t.torn == [] && k <= h && end <= |k|
    ensures Chain(d, t.prior + t.bs, end, h)
  {
    var names := t.prior + t.bs;
    forall i | 0 <= i < |names|
      ensures LinkAt(d, names, i, end, h)
    {
      LaidLink(d, t, k, h, end, i);
    }
    hide Whole, Tip, LinkAt;
  }

  lemma LaidLink(d: Dir, t: Shape, k: seq<Payload>, h: seq<Payload>, end: nat, i: nat)
    requires Laid(d.files, t, k) && t.torn == [] && k <= h && end <= |k| && i < |t.prior + t.bs|
    ensures LinkAt(d, t.prior + t.bs, i, end, h)
  {
    hide Span, Whole, Tip, Ascending;
    LaidBody(d, t, k, i);
    ReachIs(t, k, i);
    var names := t.prior + t.bs;
    var b, n, e := names[i], Needed(names, i, end), Reach(t, k, i);
    LastReach(t, k, i);
    assert n < e;
    if b <= n {
      SpanPrefix(k, h, b, e);
      SpanMonotone(h, b, n + 1, e);
    }
  }

  lemma LastReach(t: Shape, k: seq<Payload>, i: nat)
    requires t.bs != [] && i < |t.prior + t.bs|
    ensures i == |t.prior + t.bs| - 1 ==> Reach(t, k, i) == Next(k)
  {
  }

  /** A live directory and an index that covers what is committed make a world. */
  lemma WorldBy(d: Dir, t: Shape, k: seq<Payload>, h: seq<Payload>, w: Writer)
    requires Live(d, t, k, 0, false) && k <= h && w.lastLSN <= |k|
    requires w.bases != [] && Chain(d, w.bases, w.lastLSN, h) && forall b | b in d.files :: w.bases[0] <= b
    requires w.firstLSN == 0 || w.firstLSN == w.bases[0]
    ensures World(Moment(d, w), h)
  {
    hide Laid, Chain, Truthful, GoneFirst, Bygone;
    LaidTruthful(d, t, k, h);
    LaidGoneFirst(d, t, k);
    LaidChain(d, t, k, h, w.lastLSN);
    LaidListed(d.files, t, k);
    LaidRange(d.files, t, k);
    forall bs | Listing(bs, d.files.Keys)
      ensures Chain(d, bs, w.lastLSN, h)
    {
      ListingUnique(bs, t.prior + t.bs, d.files.Keys);
    }
  }

  lemma LiveCalm(d: Dir, t: Shape, k: seq<Payload>, durable: nat, crash: bool)
    requires Live(d, t, k, durable, crash)
    ensures Live(d, t, k, 0, false)
  {
    hide Laid, Bygone, Durable, Safe;
  }

  /** ... in particular within a commit, with the index as a roll has just left it. */
  lemma LiveWorld(s: St, k: seq<Payload>, durable: nat, crash: bool, h: seq<Payload>)
    requires s.w.bases != [] && Live(s.dir, Plain(s.w.bases), k, durable, crash) && k <= h && s.w.lastLSN <= |k|
    requires s.w.firstLSN == 0 || s.w.firstLSN == s.w.bases[0]
    ensures World(Moment(s.dir, s.w), h)
  {
    hide Live, Laid, Chain;
    var t := Plain(s.w.bases);
    LiveCalm(s.dir, t, k, durable, crash);
    LiveIsLaid(s.dir, t, k, durable, crash);
    LaidChain(s.dir, t, k, h, s.w.lastLSN);
    LaidRange(s.dir.files, t, k);
    assert t.prior + t.bs == s.w.bases;
    WorldBy(s.dir, t, k, h, s.w);
  }

  /** Between operations. */
  lemma RunningWorld(s: St, k: seq<Payload>, durable: nat, crash: bool, maxRec: nat, h: seq<Payload>)
    requires Running(s, k, durable, crash, maxRec) && k <= h
    ensures World(Moment(s.dir, s.w), h)
  {
    hide Live, Laid;
    LiveWorld(s, k, durable, crash, h);
  }

  /** On the way: a directory that evolved from a world, under the index of before. */
  lemma PassingWorld(d: Dir, e: Dir, w: Writer, b: Bounds, h: seq<Payload>)
    requires World(Moment(d, w), h) && Evolves(d, e) && Passing(e, b) && b.h <= h && w.lastLSN <= b.low
    ensures World(Moment(e, w), h) && Flows(Moment(d, w), Moment(e, w))
  {
    hide World, Live, Chain, Evolves;
    WorldIndex(d, w, h);
    ChainEvolves(d, e, w.bases, w.lastLSN, h);
    BasesStayLow(d, e, w.bases[0]);
    var n, t := PassingLive(e, b);
    hide Passing;
    WorldBy(e, t, b.h[..n], h, w);
  }

  lemma PassingLive(e: Dir, b: Bounds) returns (n: nat, t: Shape)
    requires Passing(e, b)
    ensures b.low <= n <= |b.h| && Live(e, t, b.h[..n], 0, false)
  {
    hide Live;
    n, t :| PassingAt(e, b, n, t);
    LiveCalm(e, t, b.h[..n], b.durable, b.crash);
  }

  lemma WorldIndex(d: Dir, w: Writer, h: seq<Payload>)
    requires World(Moment(d, w), h)
    ensures w.bases != [] && Chain(d, w.bases, w.lastLSN, h) && forall b | b in d.files :: w.bases[0] <= b
    ensures w.firstLSN == 0 || w.firstLSN == w.bases[0]
  {
    hide Chain, Truthful, GoneFirst;
  }

  /** The moments of one operation: every directory of its trace under the old index, then the new index. */
  function MomentsFrom(images: seq<Dir>, w: Writer): seq<Moment> {
    if images == [] then [] else [Moment(images[0], w)] + MomentsFrom(images[1..], w)
  }

  function MomentsOf(s: St, r: St): seq<Moment> {
    if |s.trace| <= |r.trace| then MomentsFrom(r.trace[|s.trace|..], s.w) + [Moment(r.dir, r.w)] else []
  }

  lemma {:induction false} ImagesUnfold(s: St, r: St, b: Bounds, k: nat, end: Moment, rest: seq<Moment>,
                                        h: seq<Payload>)
    requires Path(s, r, b) && b.h <= h && s.w.lastLSN <= b.low
    requires |s.trace| <= k <= |r.trace| && World(Moment(r.trace[k - 1], s.w), h)
    requires Unfolds(end, rest, h) && end.dir == r.dir && s.w.lastLSN <= end.w.lastLSN
    ensures Unfolds(Moment(r.trace[k - 1], s.w), MomentsFrom(r.trace[k..], s.w) + ([end] + rest), h)
    decreases |r.trace| - k
  {
    hide World, Passing, Evolves;
    var images := r.trace[k..];
    if k == |r.trace| {
      assert images == [];
      EvolvesRefl(r.dir);
      assert ([] + ([end] + rest))[1..] == rest;
    } else {
      PassingWorld(r.trace[k - 1], r.trace[k], s.w, b, h);
      ImagesUnfold(s, r, b, k + 1, end, rest, h);
      assert images[1..] == r.trace[k + 1..];
      var later := MomentsFrom(images[1..], s.w) + ([end] + rest);
      assert MomentsFrom(images, s.w) + ([end] + rest) == [Moment(images[0], s.w)] + later;
    }
  }

  /** What leads from one state to another, under the index of the first and then that of the second. */
  lemma StepUnfolds(s: St, r: St, b: Bounds, rest: seq<Moment>, h: seq<Payload>)
    requires Path(s, r, b) && b.h <= h && s.w.lastLSN <= b.low && World(Moment(s.dir, s.w), h)
    requires Unfolds(Moment(r.dir, r.w), rest, h) && s.w.lastLSN <= r.w.lastLSN
    ensures Unfolds(Moment(s.dir, s.w), MomentsOf(s, r) + rest, h)
  {
    hide World, Path, Unfolds;
    PathTraced(s, r, b);
    PathGrows(s, r, b);
    ImagesUnfold(s, r, b, |s.trace|, Moment(r.dir, r.w), rest, h);
    ConcatAssociates(MomentsFrom(r.trace[|s.trace|..], s.w), [Moment(r.dir, r.w)], rest);
  }

  lemma PathGrows(s: St, r: St, b: Bounds)
    requires Path(s, r, b)
    ensures s.trace <= r.trace && |s.trace| > 0 && r.trace[|s.trace| - 1] == s.dir
  {
    hide Passing, Evolves;
  }
}
