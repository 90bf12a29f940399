/** When a follower that a truncation or a cut overtakes is told so, and when it is not. */
module Silence {
  import opened Wrappers
  import opened History
  import opened Directory
  import opened Reading
  import opened Readers
  import opened Followers

  lemma GoneLess(d: Dir, m: nat, n: nat)
    requires m <= n && Gone(d, n)
    ensures Gone(d, m)
  {
  }

  /** What was handed over lay at or above the start of the log when the turn began. */
  lemma {:induction false} HandedThere(t: Turning, i: nat, h: seq<Payload>)
    requires Handing(t, h) && i <= |t.handed|
    ensures Flows(t.snap, Reached(Upto(t, i)))
    ensures i < |t.handed| ==> !Gone(t.snap.dir, t.handed[i].base) && !Gone(t.snap.dir, t.handed[i].entry.lsn)
    decreases i
  {
    hide Flows, Gone, Handing;
    if i == 0 {
      FlowsRefl(t.snap);
    } else {
      HandedThere(t, i - 1, h);
      HandedAt(t, i - 1, h);
      FlowsChain(t.snap, Reached(Upto(t, i - 1)), t.handed[i - 1].after);
    }
    if i < |t.handed| {
      HandedAt(t, i, h);
      HandedFrom(t, i);
    }
  }

  lemma HandedAt(t: Turning, i: nat, h: seq<Payload>)
    requires Handing(t, h) && i < |t.handed|
    ensures var x, u := t.handed[i], Upto(t, i);
      && x.base <= x.entry.lsn <= t.end && ComesFrom(u, x.base, x.since, x.opening, x.entry.lsn)
      && Flows(Reached(u), x.after)
      && (u.started || u.handed != [] ==> x.entry.lsn == Mark(u) + 1)
    ensures i + 1 <= |t.handed| && Reached(Upto(t, i + 1)) == t.handed[i].after
  {
    hide ComesFrom, Flows, Reaches;
    assert Continues(Upto(t, i), t.handed[i], h);
  }

  lemma HandedFrom(t: Turning, i: nat)
    requires i < |t.handed| && t.handed[i].base <= t.handed[i].entry.lsn
    requires var x := t.handed[i]; ComesFrom(Upto(t, i), x.base, x.since, x.opening, x.entry.lsn)
    requires Flows(t.snap, Reached(Upto(t, i)))
    requires i > 0 ==> !Gone(t.snap.dir, t.handed[i - 1].base)
    ensures !Gone(t.snap.dir, t.handed[i].base) && !Gone(t.snap.dir, t.handed[i].entry.lsn)
  {
    hide Flows, Gone;
    var u, x := Upto(t, i), t.handed[i];
    if SameFile(u, x.base, x.since, x.opening) {
      assert u.handed[|u.handed| - 1] == t.handed[i - 1];
    } else {
      FlowsChain(t.snap, Reached(u), x.since);
      OnceThere(t.snap, x.since, x.base);
    }
    if Gone(t.snap.dir, x.entry.lsn) {
      GoneLess(t.snap.dir, x.base, x.entry.lsn);
    }
  }

  /** The record met was at or above the start of the log when the last entry had been handed over. */
  lemma MetThere(t: Turning, h: seq<Payload>)
    requires Meets(t, h) && t.met.Some?
    ensures !Gone(Reached(t).dir, t.met.value.entry.lsn)
  {
    hide Flows, Gone;
    OnceThere(Reached(t), t.met.value.since, t.met.value.entry.lsn);
  }

  lemma NothingToHand(result: BatchResult, t: Turning, last: Moment, h: seq<Payload>)
    requires TurnsOut(result, t, last, h) && Gone(t.snap.dir, t.end)
    ensures t.handed == []
  {
    hide Flows, Gone, Handing, NothingLeft, Meets;
    if t.handed != [] {
      HandedThere(t, 0, h);
      HandedAt(t, 0, h);
      GoneLess(t.snap.dir, t.handed[0].entry.lsn, t.end);
    }
  }

  /** With everything that the turn goes for gone at its start, it delivers nothing; and it ends as truncated
      exactly when the index says so, whatever the writer does meanwhile. */
  lemma GoneBefore(result: BatchResult, t: Turning, last: Moment, h: seq<Payload>)
    requires TurnsOut(result, t, last, h) && result != Stopped && Gone(t.snap.dir, t.end)
    ensures t.handed == [] && Mark(t) == t.mark && result == if Overtaken(t) then Gap else Drained
  {
    hide Flows, Gone, Handing, NothingLeft;
    NothingToHand(result, t, last, h);
    if t.met.Some? {
      MetThere(t, h);
      GoneLess(t.snap.dir, t.met.value.entry.lsn, t.end);
    }
  }

  /** At this moment a follower can see that LSN `due` is gone: by the index, or by a file that starts above it
      and not above `end`. */
  ghost predicate Shows(m: Moment, due: nat, end: nat) {
    due < m.w.firstLSN || (Gone(m.dir, due) && !Gone(m.dir, end))
  }

  /** ... at the one after which `left` are to come. */
  ghost predicate ShowsAt(course: seq<Moment>, left: nat, due: nat, end: nat) {
    left < |course| && Shows(course[|course| - 1 - left], due, end)
  }

  /** However the writer's steps fall between the looks of the follower: it is told only if at some moment of the
      turn it can be seen that the record due is gone; it is not told, short of the end, only if
      in the end nothing is left. */
  lemma PacedTurn(result: BatchResult, t: Turning, left: nat, last: Moment, course: seq<Moment>, h: seq<Payload>)
      returns (i: nat)
    requires TurnsOut(result, t, last, h) && result != Stopped && Timed(t, course) && Ended(t, left)
    ensures result == Gap ==> left <= i <= t.at && ShowsAt(course, i, Mark(t) + 1, t.end)
    ensures result == Drained && Mark(t) < t.end ==> Gone(last.dir, t.end)
  {
    hide Flows, Gone, Handing, TimedAt;
    ToComeFalls(t, course);
    i := if Overtaken(t) || t.met == None then t.at else t.met.value.opening;
    if result == Gap && !Overtaken(t) {
      MetShows(t, h);
    }
  }

  lemma MetShows(t: Turning, h: seq<Payload>)
    requires Meets(t, h) && t.met.Some?
    ensures Shows(t.met.value.since, Mark(t) + 1, t.end)
  {
    hide Flows;
  }

  /** With something that the turn went for left when it ends, the follower is told. */
  lemma LeftAfter(result: BatchResult, t: Turning, last: Moment, h: seq<Payload>)
    requires TurnsOut(result, t, last, h) && result != Stopped && Mark(t) < t.end && !Gone(last.dir, t.end)
    ensures result == Gap
  {
    hide Flows, Gone, Handing, Meets;
  }

  /** With the files as they were throughout the turn it is exact. The follower is told exactly when the index
      says so, or the record due is gone and something that the turn goes for is left. It misses
      records without being told exactly when the index does not say so and nothing is left. */
  lemma CalmTurn(result: BatchResult, t: Turning, last: Moment, h: seq<Payload>)
    requires TurnsOut(result, t, last, h) && result != Stopped && last.dir.files == t.snap.dir.files
    ensures result == Gap
      <==> Overtaken(t) || (t.started && Gone(t.snap.dir, t.mark + 1) && !Gone(t.snap.dir, t.end))
    ensures result == Drained && Mark(t) < t.end <==> !Overtaken(t) && t.mark < t.end && Gone(t.snap.dir, t.end)
  {
    hide Flows, Gone, Handing, NothingLeft;
    SameGone(t.snap.dir, last.dir, t.end);
    SameGone(t.snap.dir, last.dir, Mark(t) + 1);
    if !Overtaken(t) {
      MarkIs(t, h);
      if result == Gap {
        GapInCalm(t, last, h);
      } else {
        DrainedInCalm(t, last, h);
        if t.mark < t.end && Gone(t.snap.dir, t.end) {
          GoneBefore(result, t, last, h);
        }
      }
    }
  }

  lemma SameGone(d: Dir, e: Dir, n: nat)
    requires d.files == e.files
    ensures Gone(d, n) == Gone(e, n)
  {
  }

  lemma MarkIs(t: Turning, h: seq<Payload>)
    requires Handing(t, h)
    ensures t.mark <= Mark(t) && (t.handed != [] ==> t.mark < Mark(t) <= t.end && !Gone(t.snap.dir, Mark(t)))
    ensures t.handed != [] && t.started ==> !Gone(t.snap.dir, t.mark + 1)
  {
    hide Gone, Handing, Upto, Reached, Flows;
    HandsUp(t, h);
    if t.handed != [] {
      HandedThere(t, |t.handed| - 1, h);
      HandedAbove(t, |t.handed| - 1, h);
      FirstHanded(t, h);
    }
  }

  lemma FirstHanded(t: Turning, h: seq<Payload>)
    requires Handing(t, h) && t.handed != []
    ensures t.started ==> !Gone(t.snap.dir, t.mark + 1)
  {
    hide Gone, Handing, Reached, Flows, ComesFrom;
    HandedThere(t, 0, h);
    HandedAt(t, 0, h);
  }

  lemma HandedAbove(t: Turning, i: nat, h: seq<Payload>)
    requires Handing(t, h) && i < |t.handed|
    ensures t.mark < t.handed[i].entry.lsn <= t.end
  {
    hide ComesFrom, Flows, Supplies;
    HandsUpFrom(t, i, h);
    assert Continues(Upto(t, i), t.handed[i], h);
  }

  lemma GapInCalm(t: Turning, last: Moment, h: seq<Payload>)
    requires Swept(Gap, t, last, h) && Gone(t.snap.dir, Mark(t) + 1)
    ensures t.handed == [] && t.started && Gone(t.snap.dir, t.mark + 1) && !Gone(t.snap.dir, t.end)
  {
    hide Flows, Gone, Handing;
    MarkIs(t, h);
    GoneLess(t.snap.dir, Mark(t), Mark(t) + 1);
    MetThere(t, h);
    if Gone(t.snap.dir, t.end) {
      GoneLess(t.snap.dir, t.met.value.entry.lsn, t.end);
    }
  }

  lemma DrainedInCalm(t: Turning, last: Moment, h: seq<Payload>)
    requires Swept(Drained, t, last, h) && last.dir.files == t.snap.dir.files
    ensures Mark(t) < t.end ==> Gone(t.snap.dir, t.end)
    ensures t.started && Gone(t.snap.dir, t.mark + 1) ==> Gone(t.snap.dir, t.end)
  {
    hide Flows, Gone, Handing, Meets;
    SameGone(t.snap.dir, last.dir, t.end);
    MarkIs(t, h);
    if Gone(t.snap.dir, t.mark + 1) && t.end <= t.mark {
      GoneLess(t.snap.dir, t.end, t.mark + 1);
    }
  }

  /** Woken because it is behind, a follower delivers, is told, or finds the record due gone. */
  lemma WokenTurn(result: BatchResult, t: Turning, last: Moment, h: seq<Payload>)
    requires TurnsOut(result, t, last, h) && t.mark < t.end
    ensures t.handed != [] || result == Gap || Gone(last.dir, t.mark + 1) || result == Stopped
  {
    hide Flows, Gone, Handing, Meets;
  }
}
