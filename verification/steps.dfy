/** One directory step at a time: what each kind of step does to a laid-out directory, and what
    a reader holding names and handles may rely on across it. */
module Steps {
  import opened Bytes
  import opened Seqs
  import opened Records
  import opened History
  import opened Directory
  import opened RecoveryIdempotence
  import opened Layout
  import opened LayoutRecovery

  /** Bases that name a file now or named one that an open handle may still read. */
  function Known(d: Dir): set<nat> {
    d.files.Keys + d.unlinked.Keys
  }

  function Body(d: Dir, b: nat): seq<byte>
    requires b in Known(d)
  {
    if b in d.files then d.files[b].body else d.unlinked[b]
  }

  /** What readers rely on: contents only grow, a name that is gone stays gone, and nothing
      appears below the start of the log. */
  ghost predicate Evolves(d: Dir, e: Dir) {
    && Known(d) <= Known(e)
    && (forall b | b in Known(d) :: Body(d, b) <= Body(e, b) && (b in e.files ==> b in d.files))
    && (forall b | b in e.files :: exists a :: a in d.files && a <= b)
  }

  /** Nothing appears below a bound of all the files. */
  lemma BasesStayLow(d: Dir, e: Dir, first: nat)
    requires Evolves(d, e) && forall b | b in d.files :: first <= b
    ensures forall b | b in e.files :: first <= b
  {
    forall b | b in e.files
      ensures first <= b
    {
      var a :| a in d.files && a <= b;
    }
  }

  lemma EvolvesRefl(d: Dir)
    ensures Evolves(d, d)
  {
  }

  lemma EvolvesChain(d: Dir, e: Dir, f: Dir)
    requires Evolves(d, e) && Evolves(e, f)
    ensures Evolves(d, f)
  {
    forall b | b in f.files
      ensures exists a :: a in d.files && a <= b
    {
      var c :| c in e.files && c <= b;
    }
    forall b | b in Known(d)
      ensures Body(d, b) <= Body(f, b) && (b in f.files ==> b in d.files)
    {
      assert b in Known(e) && Body(d, b) <= Body(e, b) && Body(e, b) <= Body(f, b);
    }
  }

  /** Steps that publish no new name. */
  lemma QuietStepEvolves(d: Dir, step: Step)
    requires !step.Chop? && !step.Create? && !step.Rename?
    ensures Evolves(d, Apply(d, step))
  {
    var e := Apply(d, step);
    assert forall b | b in Known(d) :: Body(d, b) <= Body(e, b);
  }

  /** A new name was never used before and lies above the start of the log. */
  lemma NewNameEvolves(d: Dir, step: Step, b: nat, a: nat)
    requires step == Create(b) || step == Rename(b)
    requires b !in Known(d) && a in d.files && a <= b
    ensures Evolves(d, Apply(d, step))
  {
    var e := Apply(d, step);
    assert forall c | c in Known(d) :: Body(e, c) == Body(d, c);
  }

  /** Every unlinked file lies below the start of the log and held an interval of the history. */
  ghost predicate Bygone(d: Dir, s: Shape, h: seq<Payload>)
    requires s.bs != []
  {
    forall u | u in d.unlinked :: u < (s.prior + s.bs)[0] && IsSpan(d.unlinked[u], u, h)
  }

  ghost predicate IsSpan(body: seq<byte>, b: nat, h: seq<Payload>) {
    exists e: nat :: Interval(h, b, e) && body == Span(h, b, e)
  }

  /** A running log: laid out, nothing torn; with `crash`, also fit to survive one. */
  ghost predicate Live(d: Dir, s: Shape, h: seq<Payload>, durable: nat, crash: bool) {
    && Laid(d.files, s, h) && s.torn == [] && Bygone(d, s, h)
    && (crash ==> Durable(d.files, s) && Safe(d.files, s, h, durable))
  }

  lemma SpanIsSpan(body: seq<byte>, b: nat, h: seq<Payload>, e: nat)
    requires Interval(h, b, e) && body == Span(h, b, e)
    ensures IsSpan(body, b, h)
  {
  }

  /** Steps on temp files leave the log alone. */
  lemma TempStep(d: Dir, step: Step, s: Shape, h: seq<Payload>, durable: nat, crash: bool)
    requires Live(d, s, h, durable, crash)
    requires step.CreateTemp? || step.WriteTemp? || step.FsyncTemp? || step.RemoveTemp?
    ensures Live(Apply(d, step), s, h, durable, crash) && Evolves(d, Apply(d, step))
  {
    hide Laid, Durable, Safe, Span;
    QuietStepEvolves(d, step);
  }

  lemma LaidFrame(f: Files, g: Files, s: Shape, h: seq<Payload>)
    requires Laid(f, s, h) && g.Keys == f.Keys
    requires forall b | b in f ::
      && g[b].headerOk == f[b].headerOk && g[b].body == f[b].body
      && f[b].synced <= g[b].synced <= |g[b].body|
    ensures Laid(g, s, h)
    ensures Durable(f, s) ==> Durable(g, s)
    ensures forall n | Safe(f, s, h, n) :: Safe(g, s, h, n)
  {
    hide Span, Ascending;
    forall i | 0 <= i < |s.prior|
      ensures WholeAt(g, s.prior, i, h, s.priorEnd)
    {
      assert WholeAt(f, s.prior, i, h, s.priorEnd);
    }
    forall i | 0 <= i < |Front(s.bs)|
      ensures WholeAt(g, Front(s.bs), i, h, LastBase(s.bs))
    {
      assert WholeAt(f, Front(s.bs), i, h, LastBase(s.bs));
    }
  }

  lemma BygoneSame(d: Dir, e: Dir, s: Shape, h: seq<Payload>)
    requires s.bs != [] && Bygone(d, s, h) && e.unlinked == d.unlinked
    ensures Bygone(e, s, h)
  {
  }

  lemma FsyncEffect(d: Dir, b: nat)
    requires b in d.files
    ensures var e := Apply(d, Fsync(b));
      e.unlinked == d.unlinked && e.files == d.files[b := Synced(d.files[b])]
  {
  }

  lemma FsyncFiles(f: Files, g: Files, s: Shape, h: seq<Payload>)
    requires Laid(f, s, h) && s.torn == [] && LastBase(s.bs) in f && g == f[LastBase(s.bs) := Synced(f[LastBase(s.bs)])]
    ensures Laid(g, s, h) && SyncedOn(g, [LastBase(s.bs)]) && Safe(g, s, h, |h|)
    ensures Durable(f, s) ==> Durable(g, s)
    ensures forall n | Safe(f, s, h, n) :: Safe(g, s, h, n)
  {
    hide Span, Whole, Durable;
    LaidWell(f, s, h);
    LaidFrame(f, g, s, h);
    var b := LastBase(s.bs);
    EmptyUnit(Span(h, b, Next(h)));
  }

  /** Syncing the active segment makes the whole history durable. */
  lemma FsyncStep(d: Dir, s: Shape, h: seq<Payload>, durable: nat, crash: bool)
    requires Live(d, s, h, durable, crash)
    ensures var e := Apply(d, Fsync(LastBase(s.bs)));
      && Live(e, s, h, durable, crash) && Evolves(d, e)
      && SyncedOn(e.files, [LastBase(s.bs)])
      && (crash ==> Live(e, s, h, |h|, crash))
  {
    LaidWell(d.files, s, h);
    hide Evolves, Durable, Safe, Bygone;
    var b := LastBase(s.bs);
    FsyncEffect(d, b);
    QuietStepEvolves(d, Fsync(b));
    FsyncLive(d, Apply(d, Fsync(b)), s, h, durable, crash);
  }

  lemma FsyncLive(d: Dir, e: Dir, s: Shape, h: seq<Payload>, durable: nat, crash: bool)
    requires Live(d, s, h, durable, crash) && LastBase(s.bs) in d.files
    requires e.unlinked == d.unlinked && e.files == d.files[LastBase(s.bs) := Synced(d.files[LastBase(s.bs)])]
    ensures Live(e, s, h, durable, crash)
    ensures SyncedOn(e.files, [LastBase(s.bs)])
    ensures crash ==> Live(e, s, h, |h|, crash)
  {
    FsyncFiles(d.files, e.files, s, h);
    BygoneSame(d, e, s, h);
    hide Laid, Safe, Durable, SyncedOn, Bygone;
  }

  lemma LaidWell(f: Files, s: Shape, h: seq<Payload>)
    requires Laid(f, s, h)
    ensures forall b | b in f :: f[b].synced <= |f[b].body|
    ensures LastBase(s.bs) in f
  {
    hide Span, Ascending;
    var names := s.prior + s.bs;
    forall b | b in f
      ensures f[b].synced <= |f[b].body|
    {
      var i :| 0 <= i < |names| && names[i] == b;
      if i < |s.prior| {
        LaidAt(f, s, h, i);
      } else {
        LaidAt(f, s, h, i - |s.prior|);
      }
    }
  }

  /** Creating the next segment over a non-empty, synced active one. */
  lemma CreateStep(d: Dir, bs: seq<nat>, h: seq<Payload>, durable: nat, crash: bool)
    requires bs != [] && Live(d, Plain(bs), h, durable, crash) && LastBase(bs) < Next(h)
    requires crash ==> SyncedOn(d.files, [LastBase(bs)])
    ensures Next(h) !in d.files
    ensures var e := Apply(d, Create(Next(h)));
      Live(e, Plain(bs + [Next(h)]), h, durable, crash) && Evolves(d, e)
  {
    hide Span, Evolves, Apply, Tip, Durable, Safe;
    var e := Apply(d, Create(Next(h)));
    PlainParts(d.files, bs, h, []);
    CreateNew(d, bs, h);
    CreateEffect(d, Next(h));
    hide Laid;
    CreateLaid(d.files, e.files, bs, h);
    NewNameEvolves(d, Create(Next(h)), Next(h), bs[0]);
    BygoneFirst(d, e, Plain(bs), Plain(bs + [Next(h)]), h);
    if crash {
      CreateDurable(d.files, e.files, bs, h, durable);
    }
  }

  lemma BygoneFirst(d: Dir, e: Dir, s: Shape, t: Shape, h: seq<Payload>)
    requires s.bs != [] && t.bs != [] && Bygone(d, s, h) && e.unlinked == d.unlinked
    requires (s.prior + s.bs)[0] == (t.prior + t.bs)[0]
    ensures Bygone(e, t, h)
  {
  }

  lemma CreateEffect(d: Dir, b: nat)
    requires b !in d.files
    ensures var e := Apply(d, Create(b));
      e.files == d.files[b := EMPTY_FILE] && e.unlinked == d.unlinked
  {
  }

  lemma CreateNew(d: Dir, bs: seq<nat>, h: seq<Payload>)
    requires bs != [] && Live(d, Plain(bs), h, 0, false) && LastBase(bs) < Next(h)
    ensures Next(h) !in Known(d) && bs[0] in d.files && bs[0] < Next(h)
  {
    LaidRange(d.files, Plain(bs), h);
    hide Laid, IsSpan;
    assert ([] + bs)[0] == bs[0];
  }

  /** All names lie between the first and the last one. */
  lemma LaidRange(f: Files, s: Shape, h: seq<Payload>)
    requires Laid(f, s, h)
    ensures (s.prior + s.bs)[0] in f && LastBase(s.bs) in f
    ensures forall b | b in f :: 1 <= (s.prior + s.bs)[0] <= b <= LastBase(s.bs)
  {
    hide Span, Whole, Tip;
    var names := s.prior + s.bs;
    assert names[0] in Elements(names);
    assert names[|names| - 1] == LastBase(s.bs) && names[|names| - 1] in Elements(names);
    forall b | b in f
      ensures 1 <= names[0] <= b <= LastBase(s.bs)
    {
      var i :| 0 <= i < |names| && names[i] == b;
    }
  }

  lemma AscendingSnoc(bs: seq<nat>, b: nat)
    requires bs != [] && Ascending(bs) && LastBase(bs) < b
    ensures Ascending(bs + [b]) && Front(bs + [b]) == bs && LastBase(bs + [b]) == b && (bs + [b])[0] == bs[0]
    ensures Elements(bs + [b]) == Elements(bs) + {b}
  {
  }

  lemma CreateLaid(f: Files, g: Files, bs: seq<nat>, h: seq<Payload>)
    requires bs != [] && Laid(f, Plain(bs), h) && LastBase(bs) < Next(h) && Next(h) !in f
    requires g == f[Next(h) := EMPTY_FILE]
    ensures Laid(g, Plain(bs + [Next(h)]), h)
  {
    hide Span, Ascending, Laid, Whole, Agree;
    var n := Next(h);
    PlainParts(f, bs, h, []);
    AscendingSnoc(bs, n);
    LaidIn(f, Plain(bs), h);
    AgreeExtended(f, g, Front(bs), n);
    WholeFrame(f, g, Front(bs), h, LastBase(bs));
    EmptyUnit(Span(h, LastBase(bs), n));
    WholeSnoc(g, Front(bs), LastBase(bs), h, n);
    FrontLast(bs);
    EmptySpan(h, Next(h));
    EmptyUnit(Span(h, Next(h), Next(h)));
    KeysAdded(f, g, n, EMPTY_FILE);
    PlainParts(g, bs + [n], h, []);
  }

  lemma FrontLast(bs: seq<nat>)
    requires bs != []
    ensures Front(bs) + [LastBase(bs)] == bs
  {
  }

  lemma AgreeExtended(f: Files, g: Files, bs: seq<nat>, n: nat)
    requires n !in f && g == f[n := EMPTY_FILE] && forall i | 0 <= i < |bs| :: bs[i] in f
    ensures Agree(f, g, bs)
  {
  }

  lemma CreateDurable(f: Files, g: Files, bs: seq<nat>, h: seq<Payload>, durable: nat)
    requires bs != [] && Laid(f, Plain(bs), h) && LastBase(bs) < Next(h) && Next(h) !in f
    requires g == f[Next(h) := EMPTY_FILE]
    requires Durable(f, Plain(bs)) && Safe(f, Plain(bs), h, durable) && SyncedOn(f, [LastBase(bs)])
    ensures Durable(g, Plain(bs + [Next(h)])) && Safe(g, Plain(bs + [Next(h)]), h, durable)
  {
    hide Span, Ascending, Whole, Tip, Laid;
    LaidIn(f, Plain(bs), h);
    var n := Next(h);
    AgreeExtended(f, g, Front(bs), n);
    SyncedFrame(f, g, Front(bs));
    assert [LastBase(bs)][0] in f;
    assert Front(bs + [n]) == bs == Front(bs) + [LastBase(bs)];
    assert SyncedOn(g, bs);
  }

  lemma WriteEffect(d: Dir, b: nat, bytes: seq<byte>)
    requires b in d.files
    ensures var e := Apply(d, Write(b, bytes));
      e.unlinked == d.unlinked && e.files == d.files[b := Appended(d.files[b], bytes)]
  {
  }

  lemma BygoneGrown(d: Dir, e: Dir, s: Shape, h: seq<Payload>, k: seq<Payload>)
    requires s.bs != [] && Bygone(d, s, h) && e.unlinked == d.unlinked && h <= k
    ensures Bygone(e, s, k)
  {
    hide Span;
    forall u | u in e.unlinked
      ensures u < (s.prior + s.bs)[0] && IsSpan(e.unlinked[u], u, k)
    {
      var end: nat :| Interval(h, u, end) && d.unlinked[u] == Span(h, u, end);
      SpanStable(h, k, u, end);
      SpanIsSpan(e.unlinked[u], u, k, end);
    }
  }

  lemma AgreeBut(f: Files, g: Files, bs: seq<nat>, b: nat, x: File)
    requires g == f[b := x] && b !in bs && forall i | 0 <= i < |bs| :: bs[i] in f
    ensures Agree(f, g, bs)
  {
  }

  lemma LastNotInFront(bs: seq<nat>)
    requires bs != [] && Ascending(bs)
    ensures LastBase(bs) !in Front(bs)
  {
  }

  lemma WriteFiles(f: Files, g: Files, bs: seq<nat>, h: seq<Payload>, p: Payload)
    requires bs != [] && Laid(f, Plain(bs), h) && LastBase(bs) in f
    requires g == f[LastBase(bs) := Appended(f[LastBase(bs)], Frame(Record(Next(h), p)))]
    ensures Laid(g, Plain(bs), h + [p])
    ensures Durable(f, Plain(bs)) ==> Durable(g, Plain(bs))
    ensures forall n | Safe(f, Plain(bs), h, n) :: Safe(g, Plain(bs), h + [p], n)
  {
    hide Span, Frame, Laid;
    var b := LastBase(bs);
    PlainParts(f, bs, h, []);
    LaidIn(f, Plain(bs), h);
    LastNotInFront(bs);
    AgreeBut(f, g, Front(bs), b, g[b]);
    hide Ascending;
    WholeFrame(f, g, Front(bs), h, b);
    WholeStable(g, Front(bs), h, h + [p], b);
    SpanAppend(h, b, p);
    EmptyUnit(Span(h, b, Next(h)));
    EmptyUnit(Span(h + [p], b, Next(h + [p])));
    assert Tip(g, b, h + [p], []);
    PlainParts(g, bs, h + [p], []);
    forall n | Safe(f, Plain(bs), h, n)
      ensures Safe(g, Plain(bs), h + [p], n)
    {
      if b <= n {
        SpanStable(h, h + [p], b, n + 1);
      }
    }
  }

  /** Appending a record to the active segment appends it to the history. */
  lemma WriteStep(d: Dir, bs: seq<nat>, h: seq<Payload>, p: Payload, durable: nat, crash: bool)
    requires bs != [] && Live(d, Plain(bs), h, durable, crash)
    ensures var e := Apply(d, Write(LastBase(bs), Frame(Record(Next(h), p))));
      Live(e, Plain(bs), h + [p], durable, crash) && Evolves(d, e)
  {
    LaidWell(d.files, Plain(bs), h);
    hide Evolves, Durable, Safe, Bygone, Frame;
    var b := LastBase(bs);
    var bytes := Frame(Record(Next(h), p));
    WriteEffect(d, b, bytes);
    QuietStepEvolves(d, Write(b, bytes));
    WriteLive(d, Apply(d, Write(b, bytes)), bs, h, p, durable, crash);
  }

  lemma WriteLive(d: Dir, e: Dir, bs: seq<nat>, h: seq<Payload>, p: Payload, durable: nat, crash: bool)
    requires bs != [] && Live(d, Plain(bs), h, durable, crash) && LastBase(bs) in d.files
    requires e.unlinked == d.unlinked
    requires e.files == d.files[LastBase(bs) := Appended(d.files[LastBase(bs)], Frame(Record(Next(h), p)))]
    ensures Live(e, Plain(bs), h + [p], durable, crash)
  {
    WriteFiles(d.files, e.files, bs, h, p);
    BygoneGrown(d, e, Plain(bs), h, h + [p]);
    hide Laid, Safe, Durable, Bygone, Frame;
  }

  /** The shape without its first segment. */
  function Behead(s: Shape): Shape
    requires |s.prior| + |s.bs| > 1
  {
    if s.prior != [] then s.(prior := s.prior[1..]) else s.(bs := s.bs[1..])
  }

  lemma BeheadFiles(f: Files, g: Files, s: Shape, h: seq<Payload>)
    requires Laid(f, s, h) && |s.prior| + |s.bs| > 1 && s.bs != []
    requires s.prior == [] ==> |s.bs| > 1
    requires g == f - {(s.prior + s.bs)[0]}
    ensures Behead(s).bs != [] && Laid(g, Behead(s), h)
    ensures Durable(f, s) ==> Durable(g, Behead(s))
    ensures forall n | Safe(f, s, h, n) :: Safe(g, Behead(s), h, n)
  {
    if s.prior != [] {
      BeheadPrior(f, g, s, h);
    } else {
      BeheadLog(f, g, s, h);
    }
  }

  lemma BeheadPrior(f: Files, g: Files, s: Shape, h: seq<Payload>)
    requires Laid(f, s, h) && s.prior != [] && g == f - {s.prior[0]}
    ensures Laid(g, s.(prior := s.prior[1..]), h)
    ensures Durable(f, s) ==> Durable(g, s.(prior := s.prior[1..]))
    ensures forall n | Safe(f, s, h, n) :: Safe(g, s.(prior := s.prior[1..]), h, n)
  {
    assert s.prior[..1] == [s.prior[0]];
    assert Elements(s.prior[..1]) == {s.prior[0]};
    WithoutPrior(f, s, h, 1);
    WithoutNoLess(f, s, h, 1);
    LaidIn(g, s.(prior := s.prior[1..]), h);
    hide Laid, Durable, Span;
  }

  lemma BeheadLog(f: Files, g: Files, s: Shape, h: seq<Payload>)
    requires Laid(f, s, h) && s.prior == [] && |s.bs| > 1 && g == f - {s.bs[0]}
    ensures Laid(g, s.(bs := s.bs[1..]), h)
    ensures Durable(f, s) ==> Durable(g, s.(bs := s.bs[1..]))
    ensures forall n | Safe(f, s, h, n) :: Safe(g, s.(bs := s.bs[1..]), h, n)
  {
    hide Span;
    var t := s.(bs := s.bs[1..]);
    PriorEnd(f, s, h);
    PlainParts(f, s.bs, h, s.torn);
    LaidIn(f, s, h);
    TailListing(s.bs, f.Keys);
    AgreeLess(f, g, s.bs);
    TailFront(s.bs);
    hide Laid, Ascending, Whole, Agree, Front, LastBase;
    WholeSuffix(f, Front(s.bs), h, LastBase(s.bs), 1);
    WholeFrame(f, g, Front(t.bs), h, LastBase(t.bs));
    PlainParts(g, t.bs, h, t.torn);
    PriorEnd(g, t, h);
  }

  /** Without a superseded run its end is irrelevant. */
  lemma PriorEnd(f: Files, s: Shape, h: seq<Payload>)
    requires s.prior == []
    ensures Laid(f, s, h) <==> Laid(f, Shape([], 0, s.bs, s.torn), h)
  {
    hide Span, Tip, Ascending, WholeAt;
  }

  lemma TailFront(bs: seq<nat>)
    requires |bs| > 1
    ensures Front(bs[1..]) == Front(bs)[1..] && LastBase(bs[1..]) == LastBase(bs) && |Front(bs)| >= 1
  {
  }

  lemma TailListing(bs: seq<nat>, keys: set<nat>)
    requires |bs| > 1 && Ascending(bs) && keys == Elements(bs)
    ensures Ascending(bs[1..]) && keys - {bs[0]} == Elements(bs[1..]) && bs[0] < bs[1]
  {
  }

  lemma AgreeLess(f: Files, g: Files, bs: seq<nat>)
    requires |bs| > 1 && Ascending(bs) && g == f - {bs[0]} && forall i | 0 <= i < |bs| :: bs[i] in f
    ensures Agree(f, g, bs[1..]) && Agree(f, g, Front(bs)[1..])
  {
  }

  lemma RemoveEffect(d: Dir, b: nat)
    requires b in d.files
    ensures var e := Apply(d, Remove(b));
      e.files == d.files - {b} && e.unlinked == d.unlinked[b := d.files[b].body]
  {
  }

  lemma FirstIsSpan(f: Files, s: Shape, h: seq<Payload>)
    requires Laid(f, s, h) && |s.prior| + |s.bs| > 1
    ensures var b := (s.prior + s.bs)[0];
      b in f && IsSpan(f[b].body, b, h)
  {
    hide Ascending, Span;
    var b := (s.prior + s.bs)[0];
    LaidAt(f, s, h, 0);
    if s.prior != [] {
      SpanIsSpan(f[b].body, b, h, EndAt(s.prior, 0, s.priorEnd));
    } else {
      SpanIsSpan(f[b].body, b, h, s.bs[1]);
    }
  }

  lemma BygoneMore(d: Dir, e: Dir, s: Shape, h: seq<Payload>)
    requires Laid(d.files, s, h) && |s.prior| + |s.bs| > 1 && (s.prior == [] ==> |s.bs| > 1) && Bygone(d, s, h)
    requires var b := (s.prior + s.bs)[0];
      b in d.files && e.unlinked == d.unlinked[b := d.files[b].body] && IsSpan(d.files[b].body, b, h)
    ensures Bygone(e, Behead(s), h)
  {
    hide Whole, Tip, IsSpan;
    var names := s.prior + s.bs;
    var t := Behead(s);
    assert (t.prior + t.bs)[0] == names[1];
    assert names[0] < names[1];
  }

  /** Removing the first segment file. */
  lemma RemoveStep(d: Dir, s: Shape, h: seq<Payload>, durable: nat, crash: bool)
    requires Live(d, s, h, durable, crash) && |s.prior| + |s.bs| > 1 && (s.prior == [] ==> |s.bs| > 1)
    ensures var e := Apply(d, Remove((s.prior + s.bs)[0]));
      Live(e, Behead(s), h, durable, crash) && Evolves(d, e)
  {
    FirstIsSpan(d.files, s, h);
    hide Evolves, Durable, Safe, Bygone, IsSpan;
    var b := (s.prior + s.bs)[0];
    RemoveEffect(d, b);
    QuietStepEvolves(d, Remove(b));
    RemoveLive(d, Apply(d, Remove(b)), s, h, durable, crash);
  }

  lemma RemoveLive(d: Dir, e: Dir, s: Shape, h: seq<Payload>, durable: nat, crash: bool)
    requires Live(d, s, h, durable, crash) && |s.prior| + |s.bs| > 1 && (s.prior == [] ==> |s.bs| > 1)
    requires var b := (s.prior + s.bs)[0];
      && b in d.files && IsSpan(d.files[b].body, b, h)
      && e.files == d.files - {b} && e.unlinked == d.unlinked[b := d.files[b].body]
    ensures Live(e, Behead(s), h, durable, crash)
  {
    BeheadFiles(d.files, e.files, s, h);
    BygoneMore(d, e, s, h);
    hide Laid, Safe, Durable, Bygone, IsSpan;
  }

  /** The shape in the middle of a cut: seg-cut is published, the segments it replaces still there. */
  function Overlap(bs: seq<nat>, k: nat, cut: nat, next: nat): Shape
    requires k < |bs|
  {
    Shape(bs[..k + 1], EndAt(bs, k, next), [cut] + bs[k + 1..], [])
  }

  /** `cut` falls strictly inside segment `k`. */
  predicate Inside(bs: seq<nat>, k: nat, cut: nat, next: nat) {
    k < |bs| && bs[k] < cut < EndAt(bs, k, next)
  }

  lemma ElementsConcat(a: seq<nat>, b: seq<nat>)
    ensures Elements(a + b) == Elements(a) + Elements(b)
  {
  }

  lemma InsertElements(bs: seq<nat>, k: nat, cut: nat)
    requires k < |bs|
    ensures Elements(bs[..k + 1] + ([cut] + bs[k + 1..])) == Elements(bs) + {cut}
  {
    ElementsConcat(bs[..k + 1], [cut] + bs[k + 1..]);
    ElementsConcat([cut], bs[k + 1..]);
    ElementsConcat(bs[..k + 1], bs[k + 1..]);
    assert bs == bs[..k + 1] + bs[k + 1..];
    assert Elements([cut]) == {cut};
  }

  lemma InsertAscending(bs: seq<nat>, k: nat, cut: nat, next: nat)
    requires bs != [] && Ascending(bs) && Inside(bs, k, cut, next)
    ensures Ascending(bs[..k + 1] + ([cut] + bs[k + 1..])) && cut !in bs
  {
    var names := bs[..k + 1] + ([cut] + bs[k + 1..]);
    assert forall i | 0 <= i < |names| :: names[i] == if i <= k then bs[i] else if i == k + 1 then cut else bs[i - 1];
    assert k + 1 < |bs| ==> bs[k + 1] > cut;
  }

  lemma OverlapAscending(bs: seq<nat>, k: nat, cut: nat, next: nat)
    requires bs != [] && Ascending(bs) && Inside(bs, k, cut, next) && LastBase(bs) <= next
    ensures var s := Overlap(bs, k, cut, next);
      && Ascending(s.prior + s.bs) && (s.prior + s.bs)[0] == bs[0]
      && Elements(s.prior + s.bs) == Elements(bs) + {cut}
      && cut !in bs && LastBase(s.bs) <= next && cut < s.priorEnd <= next
  {
    InsertElements(bs, k, cut);
    InsertAscending(bs, k, cut, next);
    assert k + 1 < |bs| ==> bs[k + 1] <= LastBase(bs);
  }

  /** The complete replacement segment, as RewriteFrom leaves it in the temp file. */
  predicate Replacement(f: File, bs: seq<nat>, k: nat, cut: nat, h: seq<Payload>) {
    && Inside(bs, k, cut, Next(h)) && Interval(h, cut, EndAt(bs, k, Next(h)))
    && f == File(true, Span(h, cut, EndAt(bs, k, Next(h))), |Span(h, cut, EndAt(bs, k, Next(h)))|)
  }

  lemma RenameFiles(f: Files, g: Files, bs: seq<nat>, k: nat, cut: nat, h: seq<Payload>, x: File)
    requires bs != [] && Laid(f, Plain(bs), h) && Replacement(x, bs, k, cut, h) && g == f[cut := x]
    ensures cut !in f && bs[0] in f && bs[0] <= cut
    ensures Laid(g, Overlap(bs, k, cut, Next(h)), h)
  {
    hide Span, Frame;
    var s := Overlap(bs, k, cut, Next(h));
    PlainParts(f, bs, h, []);
    OverlapAscending(bs, k, cut, Next(h));
    LaidIn(f, Plain(bs), h);
    LaidRange(f, Plain(bs), h);
    assert ([] + bs)[0] == bs[0];
    InAll(f, bs);
    AgreeBut(f, g, bs, cut, x);
    KeysAdded(f, g, cut, x);
    hide Laid, Ascending, Whole, Tip, Agree, Replacement;
    RenameWhole(f, g, bs, k, cut, h);
    LaidFrom(g, s, h);
  }

  lemma KeysAdded(f: Files, g: Files, b: nat, x: File)
    requires g == f[b := x]
    ensures g.Keys == f.Keys + {b}
  {
  }

  lemma LaidFrom(f: Files, s: Shape, h: seq<Payload>)
    requires Ordered(s, Next(h)) && f.Keys == Elements(s.prior + s.bs)
    requires Whole(f, s.prior, h, s.priorEnd) && Whole(f, Front(s.bs), h, LastBase(s.bs))
      && Tip(f, LastBase(s.bs), h, s.torn)
    ensures Laid(f, s, h)
  {
  }

  lemma InAll(f: Files, bs: seq<nat>)
    requires f.Keys == Elements(bs)
    ensures forall i | 0 <= i < |bs| :: bs[i] in f
  {
    assert forall i | 0 <= i < |bs| :: bs[i] in Elements(bs);
  }

  /** All segments of a plain log as one run of whole segments, when nothing is torn. */
  lemma AllWhole(f: Files, bs: seq<nat>, h: seq<Payload>)
    requires bs != [] && Whole(f, Front(bs), h, LastBase(bs)) && Tip(f, LastBase(bs), h, [])
    ensures Whole(f, bs, h, Next(h))
  {
    hide Span;
    EmptyUnit(Span(h, LastBase(bs), Next(h)));
    WholeSnoc(f, Front(bs), LastBase(bs), h, Next(h));
    assert Front(bs) + [LastBase(bs)] == bs;
  }

  lemma RenameWhole(f: Files, g: Files, bs: seq<nat>, k: nat, cut: nat, h: seq<Payload>)
    requires bs != [] && Whole(f, Front(bs), h, LastBase(bs)) && Tip(f, LastBase(bs), h, [])
    requires cut in g && Replacement(g[cut], bs, k, cut, h) && Agree(f, g, bs)
    ensures var s := Overlap(bs, k, cut, Next(h));
      && Whole(g, s.prior, h, s.priorEnd)
      && Whole(g, Front(s.bs), h, LastBase(s.bs))
      && Tip(g, LastBase(s.bs), h, [])
  {
    hide Span, Frame;
    var s := Overlap(bs, k, cut, Next(h));
    AllWhole(f, bs, h);
    WholeFrame(f, g, bs, h, Next(h));
    if k + 1 < |bs| {
      WholePrefix(g, bs, h, Next(h), k + 1);
      WholeSuffix(g, bs, h, Next(h), k + 1);
      WholeCons(g, cut, bs[k + 1..], h, Next(h));
    } else {
      assert bs[..k + 1] == bs;
      assert s.bs == [cut];
      assert WholeAt(g, s.bs, 0, h, Next(h));
    }
    WholePrefix(g, s.bs, h, Next(h), |s.bs| - 1);
    assert WholeAt(g, s.bs, |s.bs| - 1, h, Next(h));
    EmptyUnit(Span(h, LastBase(s.bs), Next(h)));
  }

  lemma SyncedParts(f: Files, a: seq<nat>, b: seq<nat>)
    ensures SyncedOn(f, a + b) <==> SyncedOn(f, a) && SyncedOn(f, b)
  {
    assert forall i | 0 <= i < |a| :: (a + b)[i] == a[i];
    assert forall i | 0 <= i < |b| :: (a + b)[|a| + i] == b[i];
  }

  lemma RenameDurable(f: Files, g: Files, bs: seq<nat>, k: nat, cut: nat, h: seq<Payload>, durable: nat)
    requires bs != [] && cut in g && Replacement(g[cut], bs, k, cut, h) && Agree(f, g, bs)
    requires Durable(f, Plain(bs)) && Safe(f, Plain(bs), h, durable)
    requires k == |bs| - 1 ==> SyncedOn(f, [LastBase(bs)])
    requires k + 1 < |bs| ==> bs[k + 1] <= LastBase(bs)
    ensures Durable(g, Overlap(bs, k, cut, Next(h))) && Safe(g, Overlap(bs, k, cut, Next(h)), h, durable)
  {
    hide Span;
    var s := Overlap(bs, k, cut, Next(h));
    assert bs == Front(bs) + [LastBase(bs)];
    SyncedFrame(f, g, Front(bs));
    assert SyncedOn(g, [cut]);
    if k + 1 < |bs| {
      assert Front(bs) == bs[..k + 1] + Front(bs)[k + 1..];
      SyncedParts(g, bs[..k + 1], Front(bs)[k + 1..]);
      assert Front(s.bs) == [cut] + Front(bs)[k + 1..];
      SyncedParts(g, [cut], Front(bs)[k + 1..]);
      assert LastBase(s.bs) == LastBase(bs);
    } else {
      assert bs[..k + 1] == bs && s.bs == [cut];
      SyncedFrame(f, g, [LastBase(bs)]);
      SyncedParts(g, Front(bs), [LastBase(bs)]);
      if cut <= durable {
        SpanMonotone(h, cut, durable + 1, Next(h));
      }
    }
  }

  lemma RenameEffect(d: Dir, cut: nat)
    requires cut in d.temps
    ensures var e := Apply(d, Rename(cut));
      e.files == d.files[cut := d.temps[cut]] && e.unlinked == d.unlinked
  {
  }

  /** Publishing seg-cut. With `crash`, the segment it replaces must be on stable storage. */
  lemma RenameStep(d: Dir, bs: seq<nat>, k: nat, cut: nat, h: seq<Payload>, durable: nat, crash: bool)
    requires bs != [] && Live(d, Plain(bs), h, durable, crash)
    requires cut in d.temps && Replacement(d.temps[cut], bs, k, cut, h)
    requires crash && k == |bs| - 1 ==> SyncedOn(d.files, [LastBase(bs)])
    ensures var e := Apply(d, Rename(cut));
      Live(e, Overlap(bs, k, cut, Next(h)), h, durable, crash) && Evolves(d, e)
  {
    RenameEffect(d, cut);
    var e := Apply(d, Rename(cut));
    RenameNew(d, bs, k, cut, h);
    hide Evolves, Bygone, Durable, Safe, Laid, Replacement;
    NewNameEvolves(d, Rename(cut), cut, bs[0]);
    hide Apply;
    RenameLive(d, e, bs, k, cut, h, durable, crash);
  }

  lemma RenameNew(d: Dir, bs: seq<nat>, k: nat, cut: nat, h: seq<Payload>)
    requires bs != [] && Live(d, Plain(bs), h, 0, false)
    requires cut in d.temps && Replacement(d.temps[cut], bs, k, cut, h)
    ensures cut !in Known(d) && bs[0] in d.files && bs[0] <= cut
  {
    RenameFiles(d.files, d.files[cut := d.temps[cut]], bs, k, cut, h, d.temps[cut]);
    hide Laid, Replacement, IsSpan;
    assert ([] + bs)[0] == bs[0];
  }

  lemma RenameLive(d: Dir, e: Dir, bs: seq<nat>, k: nat, cut: nat, h: seq<Payload>, durable: nat, crash: bool)
    requires bs != [] && Live(d, Plain(bs), h, durable, crash)
    requires cut in d.temps && Replacement(d.temps[cut], bs, k, cut, h)
    requires e.files == d.files[cut := d.temps[cut]] && e.unlinked == d.unlinked
    requires crash && k == |bs| - 1 ==> SyncedOn(d.files, [LastBase(bs)])
    ensures Live(e, Overlap(bs, k, cut, Next(h)), h, durable, crash)
  {
    RenameFiles(d.files, e.files, bs, k, cut, h, d.temps[cut]);
    RenameFirst(bs, k, cut, Next(h));
    BygoneFirst(d, e, Plain(bs), Overlap(bs, k, cut, Next(h)), h);
    if crash {
      LaidAllIn(d.files, bs, h);
      LaidRange(d.files, Plain(bs), h);
      AgreeBut(d.files, e.files, bs, cut, d.temps[cut]);
      RenameDurable(d.files, e.files, bs, k, cut, h, durable);
    }
    hide Laid, Safe, Durable, Bygone;
  }

  lemma RenameFirst(bs: seq<nat>, k: nat, cut: nat, next: nat)
    requires Inside(bs, k, cut, next)
    ensures (Overlap(bs, k, cut, next).prior + Overlap(bs, k, cut, next).bs)[0] == bs[0] == ([] + bs)[0]
  {
  }

  lemma LaidAllIn(f: Files, bs: seq<nat>, h: seq<Payload>)
    requires bs != [] && Laid(f, Plain(bs), h)
    ensures forall i | 0 <= i < |bs| :: bs[i] in f
    ensures forall b | b in bs :: b in f
  {
    hide Span, Ascending, Whole, Tip;
    assert [] + bs == bs;
    InAll(f, bs);
  }
}
