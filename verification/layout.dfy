/** The shape of every directory the log can be in: a contiguous run of segments, possibly with
    a superseded run before it (an interrupted cut) and an incomplete record at its end. */
module Layout {
  import opened Bytes
  import opened Seqs
  import opened Records
  import opened History
  import opened Directory
  import opened RecoveryIdempotence

  /** `prior` are the superseded segments, which end just before LSN `priorEnd`; `bs` are the bases of
      the log proper; `torn` is what follows the last whole record. */
  datatype Shape = Shape(prior: seq<nat>, priorEnd: nat, bs: seq<nat>, torn: seq<byte>)

  function Plain(bs: seq<nat>): Shape {
    Shape([], 0, bs, [])
  }

  /** The segment based at `b` holds exactly the records with LSN in [b, end). */
  predicate Holds(f: Files, b: nat, h: seq<Payload>, end: nat) {
    && b in f && Interval(h, b, end)
    && f[b].headerOk && f[b].body == Span(h, b, end) && f[b].synced <= |f[b].body|
  }

  function EndAt(bs: seq<nat>, i: nat, end: nat): nat
    requires i < |bs|
  {
    if i + 1 < |bs| then bs[i + 1] else end
  }

  /** The bases ascend from 1 up to at most `next`; a superseded run overlaps the log proper. */
  predicate Ordered(s: Shape, next: nat) {
    && s.bs != [] && Ascending(s.prior + s.bs)
    && 1 <= (s.prior + s.bs)[0] && LastBase(s.bs) <= next
    && (s.prior != [] ==> s.bs[0] < s.priorEnd <= next)
  }

  /** Whole segments, each reaching up to the next one, the last one up to `end`. */
  predicate Whole(f: Files, bs: seq<nat>, h: seq<Payload>, end: nat) {
    forall i | 0 <= i < |bs| :: WholeAt(f, bs, i, h, end)
  }

  predicate WholeAt(f: Files, bs: seq<nat>, i: nat, h: seq<Payload>, end: nat)
    requires i < |bs|
  {
    Holds(f, bs[i], h, EndAt(bs, i, end))
  }

  /** The active segment: every record from its base on, then an incomplete one. */
  predicate Tip(f: Files, b: nat, h: seq<Payload>, torn: seq<byte>) {
    && b in f && Interval(h, b, Next(h))
    && f[b].headerOk && f[b].body == Span(h, b, Next(h)) + torn && f[b].synced <= |f[b].body|
  }

  ghost predicate Laid(f: Files, s: Shape, h: seq<Payload>) {
    && Ordered(s, Next(h))
    && f.Keys == Elements(s.prior + s.bs)
    && Whole(f, s.prior, h, s.priorEnd)
    && Whole(f, Front(s.bs), h, LastBase(s.bs))
    && Tip(f, LastBase(s.bs), h, s.torn)
  }

  /** What the record layer needs to read the log back. */
  ghost predicate Readable(s: Shape, h: seq<Payload>, maxRec: nat) {
    Storable(h, maxRec) && TornTail(s.torn, maxRec)
  }

  predicate SyncedOn(f: Files, bs: seq<nat>) {
    forall i | 0 <= i < |bs| :: bs[i] in f && f[bs[i]].synced == |f[bs[i]].body|
  }

  /** Everything but the active segment is on stable storage, and that one too while it is
      needed to cover superseded segments. */
  predicate Durable(f: Files, s: Shape) {
    && s.bs != [] && SyncedOn(f, s.prior) && SyncedOn(f, Front(s.bs))
    && (s.prior != [] && LastBase(s.bs) < s.priorEnd ==> SyncedOn(f, [LastBase(s.bs)]))
  }

  /** Of the active segment, at least the records up to LSN `durable` are on stable storage. */
  predicate Safe(f: Files, s: Shape, h: seq<Payload>, durable: nat) {
    && durable <= |h| && s.bs != [] && LastBase(s.bs) in f
    && (1 <= LastBase(s.bs) <= durable ==> |Span(h, LastBase(s.bs), durable + 1)| <= f[LastBase(s.bs)].synced)
  }

  lemma OrderedListing(s: Shape, next: nat)
    requires Ordered(s, next)
    ensures Listing(s.prior + s.bs, Elements(s.prior + s.bs))
    ensures forall i | 0 <= i < |s.bs| :: 1 <= s.bs[0] <= s.bs[i] <= LastBase(s.bs) <= next
    ensures forall i | 0 <= i < |s.prior| :: 1 <= s.prior[i] < s.bs[0]
  {
    var names := s.prior + s.bs;
    var m := |s.prior|;
    forall i | 0 <= i < |s.bs|
      ensures 1 <= s.bs[0] <= s.bs[i] <= LastBase(s.bs) <= next
    {
      assert names[m] == s.bs[0] && names[m + i] == s.bs[i] && names[|names| - 1] == LastBase(s.bs);
    }
    forall i | 0 <= i < m
      ensures 1 <= s.prior[i] < s.bs[0]
    {
      assert names[i] == s.prior[i] && names[m] == s.bs[0] && names[0] <= names[i];
    }
  }

  lemma OrderedNeighbours(s: Shape, next: nat, i: nat)
    requires Ordered(s, next)
    ensures i < |s.bs| - 1 ==> s.bs[i] < s.bs[i + 1]
    ensures i < |s.prior| ==> s.prior[i] < EndAt(s.prior, i, s.priorEnd) <= next
  {
    var names := s.prior + s.bs;
    var m := |s.prior|;
    OrderedListing(s, next);
    if i < |s.bs| - 1 {
      assert names[m + i] == s.bs[i] && names[m + i + 1] == s.bs[i + 1];
    }
    if i < m - 1 {
      assert names[i] == s.prior[i] && names[i + 1] == s.prior[i + 1];
    }
  }

  /** The segments of a laid-out directory, one at a time. */
  lemma LaidAt(f: Files, s: Shape, h: seq<Payload>, i: nat)
    requires Laid(f, s, h)
    ensures i < |s.prior| ==> Holds(f, s.prior[i], h, EndAt(s.prior, i, s.priorEnd))
    ensures i < |s.bs| - 1 ==> Holds(f, s.bs[i], h, s.bs[i + 1])
  {
    hide Holds, Tip, Ordered, Elements;
    if i < |s.prior| {
      assert WholeAt(f, s.prior, i, h, s.priorEnd);
    }
    if i < |s.bs| - 1 {
      assert WholeAt(f, Front(s.bs), i, h, LastBase(s.bs));
    }
  }

  /** `g` has the files `bs` of `f`, unchanged. */
  predicate Agree(f: Files, g: Files, bs: seq<nat>) {
    forall i | 0 <= i < |bs| :: bs[i] in f && bs[i] in g && g[bs[i]] == f[bs[i]]
  }

  lemma WholeFrame(f: Files, g: Files, bs: seq<nat>, h: seq<Payload>, end: nat)
    requires Whole(f, bs, h, end) && Agree(f, g, bs)
    ensures Whole(g, bs, h, end)
    ensures SyncedOn(f, bs) ==> SyncedOn(g, bs)
  {
    hide Span;
    forall i | 0 <= i < |bs|
      ensures WholeAt(g, bs, i, h, end)
    {
      assert WholeAt(f, bs, i, h, end);
    }
  }

  lemma WholePrefix(f: Files, bs: seq<nat>, h: seq<Payload>, end: nat, k: nat)
    requires Whole(f, bs, h, end) && k < |bs|
    ensures Whole(f, bs[..k], h, bs[k])
    ensures SyncedOn(f, bs) ==> SyncedOn(f, bs[..k])
  {
    hide Span;
    forall i | 0 <= i < k
      ensures WholeAt(f, bs[..k], i, h, bs[k])
    {
      assert WholeAt(f, bs, i, h, end);
    }
  }

  lemma WholeSuffix(f: Files, bs: seq<nat>, h: seq<Payload>, end: nat, k: nat)
    requires Whole(f, bs, h, end) && k <= |bs|
    ensures Whole(f, bs[k..], h, end)
    ensures SyncedOn(f, bs) ==> SyncedOn(f, bs[k..])
  {
    hide Span;
    forall i | 0 <= i < |bs[k..]|
      ensures WholeAt(f, bs[k..], i, h, end)
    {
      assert WholeAt(f, bs, k + i, h, end);
    }
  }

  lemma WholeSnoc(f: Files, bs: seq<nat>, b: nat, h: seq<Payload>, end: nat)
    requires Whole(f, bs, h, b) && Holds(f, b, h, end)
    ensures Whole(f, bs + [b], h, end)
    ensures SyncedOn(f, bs) && f[b].synced == |f[b].body| ==> SyncedOn(f, bs + [b])
  {
    hide Span;
    forall i | 0 <= i < |bs| + 1
      ensures WholeAt(f, bs + [b], i, h, end)
    {
      if i < |bs| {
        assert WholeAt(f, bs, i, h, b);
      }
    }
  }

  lemma WholeCons(f: Files, b: nat, bs: seq<nat>, h: seq<Payload>, end: nat)
    requires bs != [] && Whole(f, bs, h, end) && Holds(f, b, h, bs[0])
    ensures Whole(f, [b] + bs, h, end)
    ensures SyncedOn(f, bs) && f[b].synced == |f[b].body| ==> SyncedOn(f, [b] + bs)
  {
    hide Span;
    forall i | 0 <= i < |bs| + 1
      ensures WholeAt(f, [b] + bs, i, h, end)
    {
      if i > 0 {
        assert WholeAt(f, bs, i - 1, h, end);
      }
    }
  }

  /** Growing the history changes nothing about segments that are complete. */
  lemma WholeStable(f: Files, bs: seq<nat>, h: seq<Payload>, k: seq<Payload>, end: nat)
    requires Whole(f, bs, h, end) && h <= k
    ensures Whole(f, bs, k, end)
  {
    hide Span;
    forall i | 0 <= i < |bs|
      ensures WholeAt(f, bs, i, k, end)
    {
      assert WholeAt(f, bs, i, h, end);
      SpanStable(h, k, bs[i], EndAt(bs, i, end));
    }
  }

  /** A laid-out directory without superseded segments, from its parts. */
  lemma PlainParts(f: Files, bs: seq<nat>, h: seq<Payload>, torn: seq<byte>)
    ensures Laid(f, Shape([], 0, bs, torn), h) <==>
      && bs != [] && Ascending(bs) && 1 <= bs[0] && LastBase(bs) <= Next(h)
      && f.Keys == Elements(bs)
      && Whole(f, Front(bs), h, LastBase(bs))
      && Tip(f, LastBase(bs), h, torn)
  {
    hide Whole, Tip, Elements, Ascending;
    EmptyUnit(bs);
    WholeNothing(f, h, 0);
  }

  lemma WholeNothing(f: Files, h: seq<Payload>, end: nat)
    ensures Whole(f, [], h, end)
  {
  }
}
