/** What the course of the writer shows to readers: no directory that an operation passes through is left out. */
module Courses {
  import opened History
  import opened Directory
  import opened State
  import opened WriterOps
  import opened Operations
  import opened CutSafety
  import opened Runs
  import opened Reading
  import opened Moments
  import opened Beside
  import opened Overtaking

  /** One of the moments shows this directory. */
  predicate Shown(ms: seq<Moment>, d: Dir) {
    exists i :: 0 <= i < |ms| && ms[i].dir == d
  }

  /** Every image from `s` on to `r` is shown. */
  ghost predicate ShowsAll(ms: seq<Moment>, s: St, r: St) {
    s.trace <= r.trace && forall k | |s.trace| <= k < |r.trace| :: Shown(ms, r.trace[k])
  }

  lemma ShownLeft(a: seq<Moment>, b: seq<Moment>, d: Dir)
    ensures Shown(a, d) || Shown(b, d) ==> Shown(a + b, d)
  {
    if i :| 0 <= i < |a| && a[i].dir == d {
      assert (a + b)[i].dir == d;
    } else if i :| 0 <= i < |b| && b[i].dir == d {
      assert (a + b)[|a| + i].dir == d;
    }
  }

  lemma ShowsJoin(a: seq<Moment>, b: seq<Moment>, s: St, t: St, r: St)
    requires ShowsAll(a, s, t) && ShowsAll(b, t, r)
    ensures ShowsAll(a + b, s, r)
  {
    hide Shown;
    forall k | |s.trace| <= k < |r.trace|
      ensures Shown(a + b, r.trace[k])
    {
      if k < |t.trace| {
        assert r.trace[k] == t.trace[k];
      }
      ShownLeft(a, b, r.trace[k]);
    }
  }

  lemma {:induction false} MomentsFromShow(ds: seq<Dir>, w: Writer, k: nat)
    requires k < |ds|
    ensures Shown(MomentsFrom(ds, w), ds[k])
    decreases k
  {
    var ms := MomentsFrom(ds, w);
    if k == 0 {
      assert ms[0].dir == ds[0];
    } else {
      MomentsFromShow(ds[1..], w, k - 1);
      ShownLeft([ms[0]], MomentsFrom(ds[1..], w), ds[k]);
      assert ms == [ms[0]] + MomentsFrom(ds[1..], w);
    }
  }

  lemma MomentsOfShow(s: St, r: St)
    requires s.trace <= r.trace
    ensures ShowsAll(MomentsOf(s, r), s, r)
  {
    hide Shown, MomentsFrom;
    forall k | |s.trace| <= k < |r.trace|
      ensures Shown(MomentsOf(s, r), r.trace[k])
    {
      var ds := r.trace[|s.trace|..];
      MomentsFromShow(ds, s.w, k - |s.trace|);
      ShownLeft(MomentsFrom(ds, s.w), [Moment(r.dir, r.w)], r.trace[k]);
    }
  }

  lemma RecordShows(s: St, p: Payload, cfg: Config)
    requires s.w.bases != []
    ensures ShowsAll(RecordMoments(s, p, cfg), s, WriteRecord(s, p, cfg))
  {
    hide MomentsOf, ShowsAll, Apply, MustRoll;
    var r := WriteRecord(s, p, cfg);
    if MustRoll(s, p, cfg) {
      MomentsOfShow(s, Roll(s));
      MomentsOfShow(Roll(s), r);
      ShowsJoin(MomentsOf(s, Roll(s)), MomentsOf(Roll(s), r), s, Roll(s), r);
    } else {
      MomentsOfShow(s, r);
    }
  }

  lemma {:induction false} RequestShows(s: St, ps: seq<Payload>, cfg: Config)
    requires s.w.bases != []
    ensures ShowsAll(RequestMoments(s, ps, cfg), s, WriteRequest(s, ps, cfg))
    decreases |ps|
  {
    hide RecordMoments, WriteRecord, Shown;
    if ps != [] {
      var t := WriteRecord(s, ps[0], cfg);
      RecordShows(s, ps[0], cfg);
      RequestShows(t, ps[1..], cfg);
      ShowsJoin(RecordMoments(s, ps[0], cfg), RequestMoments(t, ps[1..], cfg), s, t, WriteRequest(t, ps[1..], cfg));
    }
  }

  lemma {:induction false} BatchShows(s: St, batch: seq<Request>, cfg: Config)
    requires s.w.bases != []
    ensures ShowsAll(BatchMoments(s, batch, cfg), s, WriteBatch(s, batch, cfg).st)
    decreases |batch|
  {
    hide RequestMoments, WriteRequest, Shown;
    if batch == [] {
    } else if batch[0].cancelled {
      BatchShows(s, batch[1..], cfg);
    } else {
      var ps := batch[0].payloads;
      var t := WriteRequest(s, ps, cfg);
      RequestShows(s, ps, cfg);
      BatchShows(t, batch[1..], cfg);
      ShowsJoin(RequestMoments(s, ps, cfg), BatchMoments(t, batch[1..], cfg), s, t, WriteBatch(t, batch[1..], cfg).st);
    }
  }

  lemma CommitShows(s: St, batch: seq<Request>, cfg: Config)
    requires s.w.bases != []
    ensures ShowsAll(CommitMoments(s, batch, cfg), s, Commit(s, batch, cfg).st)
  {
    hide BatchMoments, MomentsOf, WriteBatch, ShowsAll, Apply;
    var t, r := WriteBatch(s, batch, cfg).st, Commit(s, batch, cfg).st;
    BatchShows(s, batch, cfg);
    MomentsOfShow(t, r);
    ShowsJoin(BatchMoments(s, batch, cfg), MomentsOf(t, r), s, t, r);
  }

  /** An operation of a running log shows every directory it passes through, and where it ends. */
  lemma OpShows(s: St, k: seq<Payload>, durable: nat, op: Op, cfg: Config)
    requires Running(s, k, durable, false, cfg.maxRecordSize) && s.w.bases != []
    requires Storable(k + Payloads(op), cfg.maxRecordSize)
    ensures ShowsAll(OpMoments(s, op, cfg), s, Perform(s, op, cfg))
    ensures var r := Perform(s, op, cfg);
      exists i :: 0 <= i < |OpMoments(s, op, cfg)| && OpMoments(s, op, cfg)[i] == Moment(r.dir, r.w)
  {
    hide Running, Path, Perform, Commit, CommitMoments, MomentsOf, Payloads, Storable, ShowsAll;
    OpEnds(s, k, durable, op, cfg);
    if op.DoCommit? {
      CommitIsOp(s, op, cfg);
      CommitShows(s, op.batch, cfg);
    } else {
      var b := OpCalmPath(s, k, durable, op, cfg);
      PathGrows(s, Perform(s, op, cfg), b);
      MomentsOfShow(s, Perform(s, op, cfg));
    }
  }

  /** So does the course of any sequence of operations, for each of them. */
  lemma {:induction false} CourseShows(s: St, k: seq<Payload>, durable: nat, ops: seq<Op>, n: nat, cfg: Config)
    requires Running(s, k, durable, false, cfg.maxRecordSize) && Storable(k + AllPayloads(ops), cfg.maxRecordSize)
    requires n < |ops|
    ensures var t := Finally(s, ops[..n], cfg);
      t.w.bases != [] && ShowsAll(Course(s, ops, cfg), t, Perform(t, ops[n], cfg))
    decreases n
  {
    hide Running, Perform, Payloads, OpMoments, Storable, ShowsAll;
    RunningStorable(s, k, durable, false, cfg.maxRecordSize);
    var k1, rest := k + Payloads(ops[0]), ops[1..];
    assert k + AllPayloads(ops) == k1 + AllPayloads(rest);
    StorableInit(k + AllPayloads(ops), k1, cfg.maxRecordSize);
    var r := Perform(s, ops[0], cfg);
    if n == 0 {
      assert ops[..0] == [];
      OpShows(s, k, durable, ops[0], cfg);
      ShowsWider([Moment(s.dir, s.w)], OpMoments(s, ops[0], cfg), MomentsOfAll(Settled(r), rest, cfg), s, r);
    } else {
      var b := OpCalmPath(s, k, durable, ops[0], cfg);
      SettledRunning(r, k1, durable, cfg.maxRecordSize);
      CourseShows(Settled(r), k1, durable, rest, n - 1, cfg);
      assert ops[..n][1..] == rest[..n - 1] && ops[..n][0] == ops[0];
      var t := Finally(Settled(r), rest[..n - 1], cfg);
      OpShows(s, k, durable, ops[0], cfg);
      LaterShown(s, OpMoments(s, ops[0], cfg), r, MomentsOfAll(Settled(r), rest, cfg), t, Perform(t, ops[n], cfg));
    }
  }

  lemma ShowsWider(a: seq<Moment>, b: seq<Moment>, c: seq<Moment>, s: St, r: St)
    requires ShowsAll(b, s, r)
    ensures ShowsAll(a + (b + c), s, r)
  {
    hide Shown;
    forall k | |s.trace| <= k < |r.trace|
      ensures Shown(a + (b + c), r.trace[k])
    {
      ShownLeft(b, c, r.trace[k]);
      ShownLeft(a, b + c, r.trace[k]);
    }
  }

  /** What the course from the end of the first operation on shows, the whole course shows. */
  lemma LaterShown(s: St, a: seq<Moment>, r: St, b: seq<Moment>, t: St, u: St)
    requires exists i :: 0 <= i < |a| && a[i] == Moment(r.dir, r.w)
    requires ShowsAll([Moment(r.dir, r.w)] + b, t, u)
    ensures ShowsAll([Moment(s.dir, s.w)] + (a + b), t, u)
  {
    var i :| 0 <= i < |a| && a[i] == Moment(r.dir, r.w);
    forall k | |t.trace| <= k < |u.trace|
      ensures Shown([Moment(s.dir, s.w)] + (a + b), u.trace[k])
    {
      assert Shown([Moment(r.dir, r.w)] + b, u.trace[k]);
      var j :| 0 <= j < |[Moment(r.dir, r.w)] + b| && ([Moment(r.dir, r.w)] + b)[j].dir == u.trace[k];
      if j == 0 {
        assert ([Moment(s.dir, s.w)] + (a + b))[i + 1].dir == u.trace[k];
      } else {
        assert ([Moment(s.dir, s.w)] + (a + b))[|a| + j].dir == u.trace[k];
      }
    }
  }
}
