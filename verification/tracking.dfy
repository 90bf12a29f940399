/** The bookkeeping of a reader's position: what it has yielded, what is still ahead of it, what is gone. */
module Tracking {
  import opened Records
  import opened History
  import opened Directory
  import opened Steps
  import opened Reading

  /** A reader over the LSNs from `start` to `end`: it will take LSNs from `from` on, out of the
      files `names`. */
  datatype Track = Track(names: seq<nat>, from: nat, start: nat, end: nat, yielded: seq<Record>, done: bool)

  predicate Yielded(ys: seq<Record>, n: nat) {
    exists i :: 0 <= i < |ys| && ys[i].lsn == n
  }

  /** What was yielded ascends, lies in the window, and is what was written. */
  predicate Sound(t: Track, h: seq<Payload>) {
    && (forall i, j | 0 <= i < j < |t.yielded| :: t.yielded[i].lsn < t.yielded[j].lsn)
    && forall i | 0 <= i < |t.yielded| :: SoundAt(t, i, h)
  }

  predicate SoundAt(t: Track, i: nat, h: seq<Payload>)
    requires i < |t.yielded|
  {
    var r := t.yielded[i];
    1 <= r.lsn <= |h| && t.start <= r.lsn <= t.end && r.lsn < t.from && r.payload == h[r.lsn - 1]
  }

  /** LSN `n` is still to come. */
  predicate Pending(t: Track, n: nat) {
    !t.done && t.from <= n && t.names != [] && t.names[0] <= n
  }

  /** Every LSN of the window was yielded, is gone from the disk, or is still to come. */
  ghost predicate Complete(d: Dir, t: Track) {
    forall n: nat | t.start <= n <= t.end :: Yielded(t.yielded, n) || Gone(d, n) || Pending(t, n)
  }

  ghost predicate Tracked(m: Moment, t: Track, h: seq<Payload>) {
    && Sound(t, h) && Complete(m.dir, t) && t.end <= m.w.lastLSN && t.start <= t.from
    && Chain(m.dir, t.names, t.end, h)
  }

  lemma TrackedFlows(m: Moment, k: Moment, t: Track, h: seq<Payload>)
    requires Tracked(m, t, h) && Flows(m, k)
    ensures Tracked(k, t, h)
  {
    ChainEvolves(m.dir, k.dir, t.names, t.end, h);
    forall n: nat | t.start <= n <= t.end
      ensures Yielded(t.yielded, n) || Gone(k.dir, n) || Pending(t, n)
    {
      if Gone(m.dir, n) {
        GoneEvolves(m.dir, k.dir, n);
      }
    }
  }

  /** A reader over the published index. */
  lemma TrackedStart(m: Moment, start: nat, end: nat, h: seq<Payload>)
    requires World(m, h) && end <= m.w.lastLSN
    ensures Tracked(m, Track(m.w.bases, start, start, end, [], end == 0 || start > end), h)
  {
    var t := Track(m.w.bases, start, start, end, [], end == 0 || start > end);
    hide Chain, Truthful;
    ChainShorter(m.dir, m.w.bases, end, m.w.lastLSN, h);
    forall n: nat | t.start <= n <= t.end
      ensures Gone(m.dir, n) || Pending(t, n)
    {
      if !(m.w.bases[0] <= n) || end == 0 {
        GoneBelow(m, n, h);
      }
    }
  }

  /** LSNs before the first base of the index, and LSN 0, are not on disk. */
  lemma GoneBelow(m: Moment, n: nat, h: seq<Payload>)
    requires World(m, h) && (n < m.w.bases[0] || n == 0)
    ensures Gone(m.dir, n)
  {
    hide Chain, Span;
    forall b | b in m.dir.files
      ensures n < b
    {
      assert b in Known(m.dir) && TruthfulAt(m.dir, b, h);
    }
  }

  /** The reader has read the records of its first file before LSN `q`. */
  predicate At(t: Track, q: nat) {
    t.names != [] && t.names[0] <= q && (q == t.names[0] || q <= t.from)
  }

  /** Yielding a record. */
  lemma YieldRecord(m: Moment, t: Track, q: nat, h: seq<Payload>) returns (u: Track)
    requires Tracked(m, t, h) && At(t, q) && !t.done && t.from <= q <= t.end && 1 <= q <= |h|
    ensures u == t.(from := q + 1, yielded := t.yielded + [Record(q, h[q - 1])])
    ensures Tracked(m, u, h) && At(u, q + 1)
  {
    u := t.(from := q + 1, yielded := t.yielded + [Record(q, h[q - 1])]);
    hide Chain, Gone;
    forall i | 0 <= i < |u.yielded|
      ensures SoundAt(u, i, h)
      ensures i < |t.yielded| ==> u.yielded[i].lsn < q
    {
      if i < |t.yielded| {
        assert SoundAt(t, i, h);
      }
    }
    forall n: nat | u.start <= n <= u.end
      ensures Yielded(u.yielded, n) || Gone(m.dir, n) || Pending(u, n)
    {
      YieldKeeps(t.yielded, Record(q, h[q - 1]), n);
    }
  }

  lemma YieldKeeps(ys: seq<Record>, r: Record, n: nat)
    ensures Yielded(ys, n) || n == r.lsn ==> Yielded(ys + [r], n)
  {
    if Yielded(ys, n) {
      var i :| 0 <= i < |ys| && ys[i].lsn == n;
      assert (ys + [r])[i].lsn == n;
    } else if n == r.lsn {
      assert (ys + [r])[|ys|].lsn == n;
    }
  }

  /** A record beyond the window: nothing in the window is left. */
  lemma EndBeyond(m: Moment, t: Track, q: nat, h: seq<Payload>)
    requires Tracked(m, t, h) && At(t, q) && q >= t.from && q > t.end
    ensures Tracked(m, t.(done := true), h)
  {
    hide Chain, Gone, Yielded;
    var u := t.(done := true);
    assert forall i | 0 <= i < |t.yielded| :: SoundAt(t, i, h) ==> SoundAt(u, i, h);
  }

  /** The first file has no further record: it is done with. */
  lemma LeaveFile(m: Moment, t: Track, q: nat, h: seq<Payload>)
    requires Tracked(m, t, h) && At(t, q)
    requires t.names[0] in Known(m.dir) && Interval(h, t.names[0], q)
    requires q < Next(h) ==> |Span(h, t.names[0], q + 1)| > |Body(m.dir, t.names[0])|
    ensures Tracked(m, t.(names := t.names[1..]), h)
  {
    var u := t.(names := t.names[1..]);
    ChainTail(m.dir, t.names, t.end, h);
    ReadThrough(m.dir, t, q, h);
    hide Chain, Gone, Yielded, Span;
    assert forall i | 0 <= i < |t.yielded| :: SoundAt(t, i, h) ==> SoundAt(u, i, h);
  }

  /** Then everything that was needed from it has been read. */
  lemma ReadThrough(d: Dir, t: Track, q: nat, h: seq<Payload>)
    requires t.names != [] && Chain(d, t.names, t.end, h) && t.names[0] in Known(d) && Interval(h, t.names[0], q)
    requires q < Next(h) ==> |Span(h, t.names[0], q + 1)| > |Body(d, t.names[0])|
    ensures Needed(t.names, 0, t.end) < q || Needed(t.names, 0, t.end) < t.names[0]
    ensures |t.names| > 1 ==> 1 <= t.names[1]
  {
    assert LinkAt(d, t.names, 0, t.end, h);
    var m := Needed(t.names, 0, t.end);
    if t.names[0] <= m && q <= m {
      ReachesLess(d, t.names[0], q, m, h);
    }
    if |t.names| > 1 {
      assert t.names[0] < t.names[1];
    }
  }

  /** No file is left. */
  lemma EndTracking(m: Moment, t: Track, h: seq<Payload>)
    requires Tracked(m, t, h) && t.names == []
    ensures Tracked(m, t.(done := true), h)
  {
    hide Chain, Gone, Yielded;
    var u := t.(done := true);
    assert forall i | 0 <= i < |t.yielded| :: SoundAt(t, i, h) ==> SoundAt(u, i, h);
  }

  /** The first file is no longer on disk: the files that are take over. */
  lemma Relist(m: Moment, t: Track, missing: nat, bs: seq<nat>, h: seq<Payload>)
    requires World(m, h) && Tracked(m, t, h) && t.names != [] && t.names[0] == missing
    requires missing in Known(m.dir) && missing !in m.dir.files && Listing(bs, m.dir.files.Keys)
    ensures forall b | b in bs :: missing < b
    ensures Tracked(m, t.(names := bs), h)
  {
    hide Chain, Truthful, Yielded;
    var u := t.(names := bs);
    ChainShorter(m.dir, bs, t.end, m.w.lastLSN, h);
    assert forall i | 0 <= i < |t.yielded| :: SoundAt(t, i, h) ==> SoundAt(u, i, h);
    forall n: nat | t.start <= n <= t.end && Pending(t, n)
      ensures Gone(m.dir, n) || Pending(u, n)
    {
      if b :| b in m.dir.files && b <= n {
        assert b in bs && bs[0] <= b;
      }
    }
  }

  /** A finished reader has yielded every record of its window that is still on disk. */
  lemma FinishedComplete(m: Moment, t: Track, n: nat, h: seq<Payload>)
    requires Tracked(m, t, h) && t.done && t.start <= n <= t.end && OnDisk(m.dir, n, h)
    ensures 1 <= n <= |h| && Record(n, h[n - 1]) in t.yielded
  {
    hide Chain, Span;
    var b :| b in m.dir.files && b <= n && Reaches(m.dir, b, n, h);
    assert !Gone(m.dir, n);
    var i :| 0 <= i < |t.yielded| && t.yielded[i].lsn == n;
    assert SoundAt(t, i, h);
  }

  /** The last record yielded lies in the window and carries what was written. */
  lemma EntryIsSound(m: Moment, t: Track, h: seq<Payload>)
    requires Tracked(m, t, h) && t.yielded != []
    ensures var e := t.yielded[|t.yielded| - 1];
      1 <= e.lsn <= |h| && e.lsn <= t.end && e.payload == h[e.lsn - 1]
  {
    hide Chain, Complete;
    assert SoundAt(t, |t.yielded| - 1, h);
  }
}
