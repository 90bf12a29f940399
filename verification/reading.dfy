/** What a reader may rely on while the writer changes the directory under it. */
module Reading {
  import opened Bytes
  import opened Seqs
  import opened Records
  import opened History
  import opened Directory
  import opened State
  import opened Steps

  /** The directory and the published index at one moment of a process's life. */
  datatype Moment = Moment(dir: Dir, w: Writer)

  /** The file based at `b` holds the record with LSN `n`. */
  predicate Reaches(d: Dir, b: nat, n: nat, h: seq<Payload>) {
    && b in Known(d) && Interval(h, b, n + 1)
    && |Span(h, b, n + 1)| <= |Body(d, b)|
  }

  /** ... or `n` lies before its base. */
  predicate ReachesUpTo(d: Dir, b: nat, n: nat, h: seq<Payload>) {
    b in Known(d) && (b <= n ==> Reaches(d, b, n, h))
  }

  function Preceding(n: nat): nat {
    if n == 0 then 0 else n - 1
  }

  /** The last LSN a reader needs from the `i`-th of the files `bs`: it goes on to the next one there. */
  function Needed(bs: seq<nat>, i: nat, end: nat): nat
    requires i < |bs|
  {
    if i + 1 < |bs| && bs[i + 1] <= end then Preceding(bs[i + 1]) else end
  }

  predicate LinkAt(d: Dir, bs: seq<nat>, i: nat, end: nat, h: seq<Payload>)
    requires i < |bs|
  {
    ReachesUpTo(d, bs[i], Needed(bs, i, end), h)
  }

  /** Reading `bs` one after the other meets every LSN from the first base up to `end`. */
  predicate Chain(d: Dir, bs: seq<nat>, end: nat, h: seq<Payload>) {
    Ascending(bs) && forall i | 0 <= i < |bs| :: LinkAt(d, bs, i, end, h)
  }

  /** Every file ever opened holds a prefix of the records from its base on. */
  ghost predicate Truthful(d: Dir, h: seq<Payload>) {
    forall b | b in Known(d) :: TruthfulAt(d, b, h)
  }

  ghost predicate TruthfulAt(d: Dir, b: nat, h: seq<Payload>)
    requires b in Known(d)
  {
    Interval(h, b, Next(h)) && Body(d, b) <= Span(h, b, Next(h))
  }

  /** Files go from the low end. */
  predicate GoneFirst(d: Dir) {
    forall u, b | u in d.unlinked && u !in d.files && b in d.files :: u < b
  }

  /** What holds at every moment: contents are faithful to one history, files vanish from the low end,
      both the files on disk and the files in the index cover every committed LSN from the first
      base on, and the index starts no later than the disk, at the published first LSN if there is one. */
  ghost predicate World(m: Moment, h: seq<Payload>) {
    && m.w.bases != [] && m.dir.files != map[] && m.w.lastLSN <= |h|
    && Truthful(m.dir, h) && GoneFirst(m.dir)
    && (forall bs | Listing(bs, m.dir.files.Keys) :: Chain(m.dir, bs, m.w.lastLSN, h))
    && Chain(m.dir, m.w.bases, m.w.lastLSN, h)
    && (forall b | b in m.dir.files :: m.w.bases[0] <= b)
    && (m.w.firstLSN == 0 || m.w.firstLSN == m.w.bases[0])
  }

  /** From one moment to a later one. */
  ghost predicate Flows(m: Moment, k: Moment) {
    Evolves(m.dir, k.dir) && m.w.lastLSN <= k.w.lastLSN
  }

  lemma FlowsRefl(m: Moment)
    ensures Flows(m, m)
  {
  }

  /** Record `n` is on disk. */
  ghost predicate OnDisk(d: Dir, n: nat, h: seq<Payload>) {
    exists b :: b in d.files && b <= n && Reaches(d, b, n, h)
  }

  /** LSN `n` lies before the start of the log. */
  predicate Gone(d: Dir, n: nat) {
    forall b | b in d.files :: n < b
  }

  lemma ReachesLess(d: Dir, b: nat, m: nat, n: nat, h: seq<Payload>)
    requires Reaches(d, b, n, h) && b <= m <= n
    ensures Reaches(d, b, m, h)
  {
    SpanMonotone(h, b, m + 1, n + 1);
  }

  lemma ChainShorter(d: Dir, bs: seq<nat>, low: nat, end: nat, h: seq<Payload>)
    requires Chain(d, bs, end, h) && low <= end
    ensures Chain(d, bs, low, h)
  {
    hide Span;
    forall i | 0 <= i < |bs|
      ensures LinkAt(d, bs, i, low, h)
    {
      assert LinkAt(d, bs, i, end, h);
      if bs[i] <= Needed(bs, i, low) {
        ReachesLess(d, bs[i], Needed(bs, i, low), Needed(bs, i, end), h);
      }
    }
  }

  lemma ChainEvolves(d: Dir, e: Dir, bs: seq<nat>, end: nat, h: seq<Payload>)
    requires Chain(d, bs, end, h) && Evolves(d, e)
    ensures Chain(e, bs, end, h)
  {
    hide Span;
    forall i | 0 <= i < |bs|
      ensures LinkAt(e, bs, i, end, h)
    {
      assert LinkAt(d, bs, i, end, h);
      assert Body(d, bs[i]) <= Body(e, bs[i]);
    }
  }

  lemma GoneEvolves(d: Dir, e: Dir, n: nat)
    requires Gone(d, n) && Evolves(d, e)
    ensures Gone(e, n)
  {
    forall b | b in e.files
      ensures n < b
    {
      var a :| a in d.files && a <= b;
    }
  }

  lemma ChainTail(d: Dir, bs: seq<nat>, end: nat, h: seq<Payload>)
    requires Chain(d, bs, end, h) && bs != []
    ensures Chain(d, bs[1..], end, h)
  {
    hide Reaches;
    forall i | 0 <= i < |bs[1..]|
      ensures LinkAt(d, bs[1..], i, end, h)
    {
      assert LinkAt(d, bs, i + 1, end, h);
    }
  }

  /** The bytes ahead of a reader that has read the records before `q`. */
  lemma AheadIs(d: Dir, b: nat, q: nat, h: seq<Payload>)
    requires b in Known(d) && TruthfulAt(d, b, h) && Interval(h, b, q)
    requires |Span(h, b, q)| <= |Body(d, b)|
    ensures Body(d, b)[|Span(h, b, q)|..] <= Span(h, q, Next(h))
    ensures q < Next(h) ==>
      |Span(h, b, q + 1)| == |Span(h, b, q)| + |Frame(Record(q, h[q - 1]))|
  {
    hide Span, Frame;
    SpanSplit(h, b, q, Next(h));
    if q < Next(h) {
      SpanSnoc(h, b, q);
    }
    var s, t := Span(h, b, q), Span(h, q, Next(h));
    var body := Body(d, b);
    assert body == (s + t)[..|body|];
    assert body[|s|..] == t[..|body| - |s|];
  }

  /** Decoding a byte prefix of the records from `q` on. */
  lemma DecodePrefix(h: seq<Payload>, q: nat, k: nat, maxRec: nat)
    requires Storable(h, maxRec) && 1 <= q < Next(h) && k <= |Span(h, q, Next(h))|
    ensures var rec := Record(q, h[q - 1]);
      Decode(Span(h, q, Next(h))[..k], maxRec)
        == if k >= |Frame(rec)| then Rec(rec) else if k == 0 then Eof else Bad(Torn)
  {
    hide Span, Frame, Storable, Decode, Fits;
    var rec := Record(q, h[q - 1]);
    SpanSplit(h, q, q + 1, Next(h));
    SpanOne(h, q);
    RecFits(h, q, maxRec);
    var frame, later := Frame(rec), Span(h, q + 1, Next(h));
    PrefixOfConcat(frame, later, k);
    if k >= |frame| {
      DecodeFrame(rec, later[..k - |frame|], maxRec);
    } else {
      DecodeCutFrame(rec, k, maxRec);
    }
  }

  /** One step of the scanner: the next record if it is there in full, a clean end or a torn record
      otherwise, and nothing else. */
  lemma DecodeAhead(d: Dir, b: nat, q: nat, h: seq<Payload>, maxRec: nat)
    requires Storable(h, maxRec)
    requires b in Known(d) && TruthfulAt(d, b, h) && Interval(h, b, q)
    requires |Span(h, b, q)| <= |Body(d, b)|
    ensures var r := Decode(Body(d, b)[|Span(h, b, q)|..], maxRec);
      if q < Next(h) && |Span(h, b, q + 1)| <= |Body(d, b)| then r == Rec(Record(q, h[q - 1]))
      else r == Eof || r == Bad(Torn)
  {
    hide Span, Frame, Storable, Decode, TruthfulAt;
    AheadIs(d, b, q, h);
    EmptySpan(h, Next(h));
    var ahead := Body(d, b)[|Span(h, b, q)|..];
    assert ahead == Span(h, q, Next(h))[..|ahead|];
    if q < Next(h) {
      DecodePrefix(h, q, |ahead|, maxRec);
    } else {
      DecodeNothing(ahead, maxRec);
    }
  }

  lemma DecodeNothing(s: seq<byte>, maxRec: nat)
    requires s == []
    ensures Decode(s, maxRec) == Eof
  {
  }

  lemma RecFits(h: seq<Payload>, q: nat, maxRec: nat)
    requires Storable(h, maxRec) && 1 <= q < Next(h)
    ensures Fits(Record(q, h[q - 1]), maxRec)
  {
  }
}
