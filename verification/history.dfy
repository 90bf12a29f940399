/** Every record that gets an LSN is an entry of one growing history: record `n` carries
    payload `h[n - 1]`. Segment files hold intervals of it. */
module History {
  import opened Bytes
  import opened Seqs
  import opened Records

  type Payload = seq<byte>

  /** LSNs 1 .. |h| are in use. */
  function Next(h: seq<Payload>): nat {
    |h| + 1
  }

  /** The history can be framed and is within the record limit. */
  predicate Storable(h: seq<Payload>, maxRec: nat) {
    && Next(h) < Pow256(8)
    && forall i | 0 <= i < |h| :: |h[i]| <= MAX_PAYLOAD && |h[i]| <= maxRec
  }

  /** `a .. b` is an interval of assigned LSNs. */
  predicate Interval(h: seq<Payload>, a: nat, b: nat) {
    1 <= a <= b <= Next(h)
  }

  /** The records with LSN in [a, b). */
  function Recs(h: seq<Payload>, a: nat, b: nat): (rs: seq<Record>)
    requires Interval(h, a, b)
    ensures |rs| == b - a
  {
    seq(b - a, i requires 0 <= i < b - a => Record(a + i, h[a + i - 1]))
  }

  /** ... and their frames. */
  function Span(h: seq<Payload>, a: nat, b: nat): seq<byte>
    requires Interval(h, a, b)
  {
    Frames(Recs(h, a, b))
  }

  lemma RecsFit(h: seq<Payload>, a: nat, b: nat, maxRec: nat)
    requires Storable(h, maxRec) && Interval(h, a, b)
    ensures AllFit(Recs(h, a, b), maxRec)
  {
  }

  lemma EmptySpan(h: seq<Payload>, a: nat)
    requires Interval(h, a, a)
    ensures Span(h, a, a) == []
  {
    assert Recs(h, a, a) == [];
  }

  lemma SpanSplit(h: seq<Payload>, a: nat, b: nat, c: nat)
    requires Interval(h, a, b) && Interval(h, b, c)
    ensures Recs(h, a, b) + Recs(h, b, c) == Recs(h, a, c)
    ensures Span(h, a, b) + Span(h, b, c) == Span(h, a, c)
  {
    assert Recs(h, a, b) + Recs(h, b, c) == Recs(h, a, c);
    FramesConcat(Recs(h, a, b), Recs(h, b, c));
  }

  lemma SpanOne(h: seq<Payload>, a: nat)
    requires Interval(h, a, a + 1)
    ensures Span(h, a, a) == [] && Span(h, a, a + 1) == Frame(Record(a, h[a - 1]))
  {
    var r := Record(a, h[a - 1]);
    assert Recs(h, a, a + 1) == [] + [r];
    FramesSnoc([], r);
    EmptyUnit(Frame(r));
  }

  /** Growing the history leaves the intervals it already had alone. */
  lemma SpanStable(h: seq<Payload>, k: seq<Payload>, a: nat, b: nat)
    requires h <= k && Interval(h, a, b)
    ensures Interval(k, a, b) && Recs(k, a, b) == Recs(h, a, b) && Span(k, a, b) == Span(h, a, b)
  {
    assert Recs(k, a, b) == Recs(h, a, b);
  }

  lemma SpanAppend(h: seq<Payload>, a: nat, p: Payload)
    requires Interval(h, a, Next(h))
    ensures Span(h + [p], a, Next(h) + 1) == Span(h, a, Next(h)) + Frame(Record(Next(h), p))
  {
    var k := h + [p];
    SpanStable(h, k, a, Next(h));
    SpanSplit(k, a, Next(h), Next(h) + 1);
    SpanOne(k, Next(h));
  }

  /** Scanning an interval followed by an incomplete record. */
  lemma ScanSpan(h: seq<Payload>, a: nat, b: nat, t: seq<byte>, maxRec: nat)
    requires Storable(h, maxRec) && Interval(h, a, b) && TornTail(t, maxRec)
    ensures ScanAll(Span(h, a, b) + t, maxRec)
         == Scan(Recs(h, a, b), |Span(h, a, b)|, if t == [] then Wrappers.None else Wrappers.Some(Torn))
  {
    RecsFit(h, a, b, maxRec);
    ScanTornTail(Recs(h, a, b), t, maxRec);
  }

  lemma RecsTake(h: seq<Payload>, a: nat, b: nat, m: nat)
    requires Interval(h, a, b) && m <= b - a
    ensures Interval(h, a, a + m) && Recs(h, a, b)[..m] == Recs(h, a, a + m)
    ensures m < b - a ==> Recs(h, a, b)[m] == Record(a + m, h[a + m - 1])
  {
  }

  lemma SpanSnoc(h: seq<Payload>, a: nat, n: nat)
    requires Interval(h, a, n) && n < Next(h)
    ensures Span(h, a, n + 1) == Span(h, a, n) + Frame(Record(n, h[n - 1]))
  {
    SpanSplit(h, a, n, n + 1);
    SpanOne(h, n);
  }

  /** A byte prefix of an interval is a shorter interval and an incomplete record. */
  lemma CutSpan(h: seq<Payload>, a: nat, b: nat, k: nat, maxRec: nat) returns (n: nat, t: seq<byte>)
    requires Storable(h, maxRec) && Interval(h, a, b) && k <= |Span(h, a, b)|
    ensures Interval(h, a, n) && n <= b
    ensures Span(h, a, b)[..k] == Span(h, a, n) + t && TornTail(t, maxRec)
    ensures n == b ==> t == []
    ensures n < b ==> |t| < HEADER_SIZE + |h[n - 1]|
  {
    hide Recs, Frame, Frames, WholeRecords, Storable, TornTail, AllFit;
    RecsFit(h, a, b, maxRec);
    var rs := Recs(h, a, b);
    var m;
    m, t := SplitPrefix(rs, k, maxRec);
    n := a + m;
    RecsTake(h, a, b, m);
    hide Span;
    SpanIs(h, a, b);
    SpanIs(h, a, n);
    if n < b {
      assert |t| < |Frame(Record(n, h[n - 1]))|;
    }
  }

  lemma SpanIs(h: seq<Payload>, a: nat, b: nat)
    requires Interval(h, a, b)
    ensures Span(h, a, b) == Frames(Recs(h, a, b))
  {
    hide Recs, Frames;
  }

  lemma SpanMonotone(h: seq<Payload>, a: nat, b: nat, c: nat)
    requires Interval(h, a, b) && Interval(h, b, c)
    ensures |Span(h, a, b)| + 16 * (c - b) <= |Span(h, a, c)|
    decreases c - b
  {
    hide Span, Frame;
    if b < c {
      SpanMonotone(h, a, b, c - 1);
      SpanSnoc(h, a, c - 1);
    }
  }
}
