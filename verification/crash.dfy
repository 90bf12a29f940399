/** What a crash leaves of a laid-out directory. */
module Crash {
  import opened Bytes
  import opened Seqs
  import opened Records
  import opened History
  import opened Directory
  import opened RecoveryIdempotence
  import opened Layout

  ghost predicate CrashedFiles(f: Files, c: Files) {
    c.Keys == f.Keys && forall b | b in f :: CrashedFile(f[b], c[b])
  }

  lemma SyncedSurvives(f: File, c: File)
    requires CrashedFile(f, c) && f.synced == |f.body|
    ensures c == f
  {
    assert f.body[..|f.body|] == f.body;
  }

  lemma SyncedAgrees(f: Files, c: Files, bs: seq<nat>)
    requires CrashedFiles(f, c) && SyncedOn(f, bs)
    ensures Agree(f, c, bs)
  {
    forall i | 0 <= i < |bs|
      ensures bs[i] in f && bs[i] in c && c[bs[i]] == f[bs[i]]
    {
      SyncedSurvives(f[bs[i]], c[bs[i]]);
    }
  }

  lemma StorablePrefix(h: seq<Payload>, n: nat, maxRec: nat)
    requires Storable(h, maxRec) && n <= |h|
    ensures Storable(h[..n], maxRec)
  {
  }

  /** Of the active segment a crash keeps a byte prefix: whole records and an incomplete one. */
  lemma CrashTip(f: Files, c: Files, b: nat, h: seq<Payload>, torn: seq<byte>, maxRec: nat)
      returns (n: nat, t: seq<byte>)
    requires Tip(f, b, h, torn) && b in c && CrashedFile(f[b], c[b])
    requires Storable(h, maxRec) && TornTail(torn, maxRec)
    ensures b <= n + 1 && n <= |h| && TornTail(t, maxRec)
    ensures Tip(c, b, h[..n], t)
    ensures n < |h| ==> |t| < HEADER_SIZE + |h[n]|
    ensures f[b].synced == |f[b].body| ==> n == |h| && t == torn
  {
    hide TornTail, Span, Storable, Frame;
    var k := |c[b].body|;
    var whole := Span(h, b, Next(h));
    if k <= |whole| && f[b].synced != |f[b].body| {
      var m;
      m, t := CutSpan(h, b, Next(h), k, maxRec);
      n := m - 1;
      PrefixOfConcat(whole, torn, k);
    } else {
      n, t := |h|, torn[..k - |whole|];
      TornTailPrefix(torn, k - |whole|, maxRec);
      PrefixOfConcat(whole, torn, k);
      assert f[b].synced == |f[b].body| ==> t == torn;
    }
    SpanShorter(h, n, b);
  }

  lemma SpanShorter(h: seq<Payload>, n: nat, b: nat)
    requires n <= |h| && 1 <= b <= n + 1
    ensures Interval(h[..n], b, n + 1) && Span(h[..n], b, n + 1) == Span(h, b, n + 1)
  {
    SpanStable(h[..n], h, b, n + 1);
  }

  /** The durable records are among the whole ones. */
  lemma CrashKeepsDurable(f: Files, c: Files, b: nat, h: seq<Payload>, n: nat, t: seq<byte>, durable: nat)
    requires b in f && b in c && CrashedFile(f[b], c[b]) && 1 <= b <= n + 1 && n <= |h|
    requires Tip(c, b, h[..n], t) && (n < |h| ==> |t| < HEADER_SIZE + |h[n]|)
    requires durable <= |h| && (b <= durable ==> |Span(h, b, durable + 1)| <= f[b].synced)
    ensures durable <= n
    ensures b <= durable ==> |Span(h[..n], b, durable + 1)| <= c[b].synced
  {
    hide Frame;
    SpanShorter(h, n, b);
    if n < durable && b <= durable {
      SpanSnoc(h, b, n + 1);
      SpanMonotone(h, b, n + 2, durable + 1);
    }
    if b <= durable {
      SpanShorter(h, n, b);
      SpanStable(h[..n], h, b, durable + 1);
    }
  }

  /** A crash of a durable log leaves a log over a prefix of its history that has every durable record. */
  lemma CrashLaid(f: Files, c: Files, s: Shape, h: seq<Payload>, durable: nat, maxRec: nat) returns (n: nat, t: Shape)
    requires Laid(f, s, h) && Readable(s, h, maxRec) && Durable(f, s) && Safe(f, s, h, durable)
    requires CrashedFiles(f, c)
    ensures durable <= n <= |h| && t.bs == s.bs
    ensures Laid(c, t, h[..n]) && Readable(t, h[..n], maxRec)
    ensures Durable(c, t) && Safe(c, t, h[..n], durable)
    ensures SyncedOn(f, [LastBase(s.bs)]) ==> n == |h| && t == s
  {
    hide Span, TornTail, Whole, Ascending, Storable, Listing;
    var b := LastBase(s.bs);
    var torn;
    n, torn := CrashTip(f, c, b, h, s.torn, maxRec);
    t := s.(torn := torn);
    CrashKeepsDurable(f, c, b, h, n, torn, durable);
    StorablePrefix(h, n, maxRec);
    SyncedAgrees(f, c, s.prior);
    SyncedAgrees(f, c, Front(s.bs));
    OrderedListing(s, Next(h));
    CrashWhole(f, c, s.prior, h, s.priorEnd, n);
    CrashWhole(f, c, Front(s.bs), h, b, n);
    assert h[..|h|] == h;
    if SyncedOn(f, [b]) {
      assert [b][0] in f;
    }
  }

  lemma CrashWhole(f: Files, c: Files, bs: seq<nat>, h: seq<Payload>, end: nat, n: nat)
    requires Whole(f, bs, h, end) && Agree(f, c, bs) && n <= |h|
    requires bs != [] ==> end <= n + 1
    requires forall i | 0 <= i < |bs| :: bs[i] <= n + 1
    ensures Whole(c, bs, h[..n], end)
  {
    hide Span;
    forall i | 0 <= i < |bs|
      ensures WholeAt(c, bs, i, h[..n], end)
    {
      assert WholeAt(f, bs, i, h, end);
      var e := EndAt(bs, i, end);
      assert e <= n + 1;
      SpanStable(h[..n], h, bs[i], e);
    }
  }
}
