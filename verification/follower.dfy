/** The follower: reader after reader over one high-water mark, ending rather than skipping a record. */
module Followers {
  import opened Wrappers
  import opened Seqs
  import opened Records
  import opened History
  import opened Directory
  import opened Reading
  import opened Tracking
  import opened Readers

  datatype FollowError = Truncated | Closed | Canceled

  /** What waiting for the next commit can come to. */
  datatype Wakeup = Woken | WalClosed | ContextCanceled | ClosedByUser

  datatype BatchResult = Drained | Stopped | Gap

  /** Whoever ranges over the records. It may stop after any number of them, and take its time over each:
      `delays` says how many steps the writer takes meanwhile. */
  class Consumer {
    var received: seq<Record>
    var patience: nat
    var delays: seq<nat>

    constructor (patience: nat, delays: seq<nat>)
      ensures received == [] && this.patience == patience && this.delays == delays
    {
      received, this.patience, this.delays := [], patience, delays;
    }

    method Yield(entry: Record) returns (more: bool, steps: nat)
      modifies this
      ensures received == old(received) + [entry] && steps == Delay(old(delays), 0) && delays == Later(old(delays), 1)
      ensures more == (old(patience) > 0) && patience == if more then old(patience) - 1 else 0
    {
      received := received + [entry];
      more, steps := patience > 0, Delay(delays, 0);
      delays := Later(delays, 1);
      if more {
        patience := patience - 1;
      }
    }
  }

  /** LSNs n, n + 1, n + 2, ..., each with the payload written under it. */
  predicate Unbroken(rs: seq<Record>, h: seq<Payload>) {
    forall i | 0 <= i < |rs| :: UnbrokenAt(rs, i, h)
  }

  predicate UnbrokenAt(rs: seq<Record>, i: nat, h: seq<Payload>)
    requires i < |rs|
  {
    && 1 <= rs[i].lsn <= |h| && rs[i].payload == h[rs[i].lsn - 1]
    && rs[i].lsn == rs[0].lsn + i
  }

  /** The stream delivered so far: unbroken, from `from` on if that is positive, up to `highWater`. */
  predicate Stream(rs: seq<Record>, from: nat, highWater: nat, h: seq<Payload>) {
    && Unbroken(rs, h)
    && (if rs == [] then highWater == (if from > 0 then from - 1 else 0)
        else highWater == rs[|rs| - 1].lsn && (from > 0 ==> rs[0].lsn == from))
  }

  /** Every LSN from `from` to `tail` was delivered or is gone from the disk. */
  ghost predicate Caught(rs: seq<Record>, d: Dir, from: nat, tail: nat) {
    forall n: nat | from <= n <= tail :: Yielded(rs, n) || Gone(d, n)
  }

  /** None of the LSNs above `low`, up to `high`, is left on disk. */
  predicate NothingLeft(d: Dir, low: nat, high: nat) {
    forall n: nat | low < n <= high :: Gone(d, n)
  }

  /** An entry as it was handed over: the file it came from, the moment that file was opened and how many were
      still to come then, the moment the consumer was done with the entry, and how many were still to come then. */
  datatype Handed = Handed(entry: Record, base: nat, since: Moment, opening: nat, after: Moment, left: nat)

  /** A record that was met instead of the one due, and the moment the file that starts with it was opened. */
  datatype Met = Met(entry: Record, since: Moment, opening: nat)

  /** One turn of the stream: the snapshot it began with and how many moments were still to come, the high-water
      mark then and whether that counts, the last LSN it goes for, whether the writer moved only while the
      consumer had an entry, what was handed over, and the record above the one due that it met, if any. */
  datatype Turning = Turning(snap: Moment, at: nat, mark: nat, started: bool, end: nat, calm: bool, handed: seq<Handed>,
                             met: Option<Met>)

  /** How far the turn has come. */
  function Reached(t: Turning): Moment {
    if t.handed == [] then t.snap else t.handed[|t.handed| - 1].after
  }

  function Mark(t: Turning): nat {
    if t.handed == [] then t.mark else t.handed[|t.handed| - 1].entry.lsn
  }

  function Upto(t: Turning, i: nat): Turning
    requires i <= |t.handed|
  {
    t.(handed := t.handed[..i], met := None)
  }

  /** `x` comes next: out of the same file, or out of one that was on disk when it was opened since. */
  ghost predicate Continues(t: Turning, x: Handed, h: seq<Payload>) {
    && 1 <= x.entry.lsn <= |h| && x.entry.lsn <= t.end && x.entry.payload == h[x.entry.lsn - 1]
    && (if t.started || t.handed != [] then x.entry.lsn == Mark(t) + 1 else x.entry.lsn > Mark(t))
    && Supplies(x.after.dir, Some(x.base), x.entry.lsn, h)
    && ComesFrom(t, x.base, x.since, x.opening, x.entry.lsn) && Flows(Reached(t), x.after)
  }

  /** Record `n` comes out of the same file as the one before it and is the one due; or out of a file that was
      on disk when it was opened since. Then it is the one due too, or the first record of that file, and the
      one due was gone. */
  ghost predicate ComesFrom(t: Turning, base: nat, since: Moment, opening: nat, n: nat) {
    || (SameFile(t, base, since, opening) && n == Mark(t) + 1)
    || (base in since.dir.files && Flows(Reached(t), since) && (t.calm ==> since == Reached(t))
        && (n == Mark(t) + 1 || (n == base && Gone(since.dir, Mark(t) + 1))))
  }

  predicate SameFile(t: Turning, base: nat, since: Moment, opening: nat) {
    && t.handed != [] && base == t.handed[|t.handed| - 1].base
    && since == t.handed[|t.handed| - 1].since && opening == t.handed[|t.handed| - 1].opening
  }

  function Given(handed: seq<Handed>): (rs: seq<Record>)
    ensures |rs| == |handed|
  {
    seq(|handed|, i requires 0 <= i < |handed| => handed[i].entry)
  }

  ghost predicate Handing(t: Turning, h: seq<Payload>) {
    forall i | 0 <= i < |t.handed| :: Continues(Upto(t, i), t.handed[i], h)
  }

  /** The published index says that the record due next is gone. */
  predicate Overtaken(t: Turning) {
    t.started && t.mark + 1 < t.snap.w.firstLSN
  }

  /** The record met instead of the one due is the first of a file that was on disk when it was opened, after the
      last entry had been handed over; the one due was gone then. */
  ghost predicate Meets(t: Turning, h: seq<Payload>) {
    t.met.Some? ==>
      var x := t.met.value;
      && (t.started || t.handed != [])
      && Mark(t) + 1 < x.entry.lsn <= t.end && x.entry.lsn <= |h| && x.entry.payload == h[x.entry.lsn - 1]
      && x.entry.lsn in x.since.dir.files && Gone(x.since.dir, Mark(t) + 1) && Flows(Reached(t), x.since)
  }

  /** How a scan comes out: with a gap exactly when a record above the one due was met, drained only when
      nothing of what it went for is left. */
  ghost predicate Swept(result: BatchResult, t: Turning, last: Moment, h: seq<Payload>) {
    && (result == Gap <==> t.met.Some?)
    && Meets(t, h) && Handing(t, h) && Flows(Reached(t), last)
    && (result == Gap ==> Gone(last.dir, Mark(t) + 1))
    && (result == Drained ==> NothingLeft(last.dir, Mark(t), t.end))
  }

  /** How a turn comes out: with a gap at once when the index says so, and otherwise as the scan does. */
  ghost predicate TurnsOut(result: BatchResult, t: Turning, last: Moment, h: seq<Payload>) {
    if Overtaken(t) then
      result == Gap && t.handed == [] && t.met == None && Flows(t.snap, last) && Gone(last.dir, t.mark + 1)
    else
      Swept(result, t, last, h)
  }

  /** Where on the course of the writer the turn took place: nothing was looked at before what came before it, and
      every look fell on a moment that did occur. */
  ghost predicate Timed(t: Turning, course: seq<Moment>) {
    && Placed(t.snap, t.at, course)
    && (forall i | 0 <= i < |t.handed| :: TimedAt(t, i, course))
    && (t.met.Some? ==> Placed(t.met.value.since, t.met.value.opening, course) && t.met.value.opening <= ToCome(t))
  }

  ghost predicate TimedAt(t: Turning, i: nat, course: seq<Moment>)
    requires i < |t.handed|
  {
    var u, x := Upto(t, i), t.handed[i];
    && Placed(x.since, x.opening, course) && Placed(x.after, x.left, course)
    && x.left <= x.opening && x.left <= ToCome(u)
    && (SameFile(u, x.base, x.since, x.opening) || x.opening <= ToCome(u))
  }

  /** How many moments were still to come when the turn had come so far. */
  function ToCome(t: Turning): nat {
    LeftOf(t.handed, t.at)
  }

  /** So many moments are left when the turn has ended: it has looked at none of them. */
  predicate Ended(t: Turning, left: nat) {
    left <= ToCome(t) && (t.met.Some? ==> left <= t.met.value.opening)
  }

  /** With a calm disk, the course of the writer's moments is set by the consumer alone. */
  ghost predicate Punctual(hs: seq<Handed>, delays: seq<nat>, left: nat, course: seq<Moment>) {
    forall i | 0 <= i < |hs| :: PunctualAt(hs, i, delays, left, course)
  }

  ghost predicate PunctualAt(hs: seq<Handed>, i: nat, delays: seq<nat>, left: nat, course: seq<Moment>)
    requires i < |hs|
  {
    && hs[i].left == Left(if i == 0 then left else hs[i - 1].left, Delay(delays, i))
    && Placed(hs[i].after, hs[i].left, course)
  }

  function LeftOf(hs: seq<Handed>, left: nat): nat {
    if hs == [] then left else hs[|hs| - 1].left
  }

  lemma HandOn(t: Turning, x: Handed, h: seq<Payload>)
    requires Handing(t, h) && t.met == None && Continues(t, x, h)
    ensures Handing(t.(handed := t.handed + [x]), h)
  {
    hide Continues;
    var u := t.(handed := t.handed + [x]);
    forall i | 0 <= i < |u.handed|
      ensures Continues(Upto(u, i), u.handed[i], h)
    {
      assert u.handed[..i] == t.handed[..i];
      if i == |t.handed| {
        assert t.handed[..i] == t.handed && Upto(u, i) == t;
      } else {
        assert Upto(u, i) == Upto(t, i);
      }
    }
  }

  lemma StreamSnoc(rs: seq<Record>, from: nat, highWater: nat, e: Record, h: seq<Payload>)
    requires Stream(rs, from, highWater, h) && 1 <= e.lsn <= |h| && e.payload == h[e.lsn - 1]
    requires e.lsn == highWater + 1 || (rs == [] && from == 0)
    ensures Stream(rs + [e], from, e.lsn, h)
  {
    forall i | 0 <= i < |rs + [e]|
      ensures UnbrokenAt(rs + [e], i, h)
    {
      if i < |rs| {
        assert UnbrokenAt(rs, i, h);
      } else if rs != [] {
        assert UnbrokenAt(rs, |rs| - 1, h);
      }
    }
  }

  lemma CaughtFlows(rs: seq<Record>, m: Moment, k: Moment, from: nat, tail: nat)
    requires Caught(rs, m.dir, from, tail) && Flows(m, k)
    ensures Caught(rs, k.dir, from, tail)
  {
    forall n: nat | from <= n <= tail
      ensures Yielded(rs, n) || Gone(k.dir, n)
    {
      if Gone(m.dir, n) {
        GoneEvolves(m.dir, k.dir, n);
      }
    }
  }

  /** The reader has just passed over LSN `n`: that record is gone. */
  lemma GapIsGone(m: Moment, t: Track, passed: seq<Record>, e: Record, n: nat, h: seq<Payload>)
    requires Tracked(m, t, h) && t.yielded == passed + [e] && t.from == e.lsn + 1
    requires t.start <= n < e.lsn && (passed == [] || passed[|passed| - 1].lsn < n)
    ensures Gone(m.dir, n)
  {
    hide Chain, Gone;
    assert t.yielded[|t.yielded| - 1] == e;
    assert SoundAt(t, |t.yielded| - 1, h);
    forall i | 0 <= i < |t.yielded|
      ensures t.yielded[i].lsn != n
    {
      if i < |passed| {
        assert t.yielded[i].lsn <= t.yielded[|passed| - 1].lsn;
      }
    }
  }

  /** A finished reader leaves nothing of its window behind. */
  lemma FinishedCaught(m: Moment, t: Track, before: seq<Record>, h: seq<Payload>)
    requires Tracked(m, t, h) && t.done
    ensures Caught(before + t.yielded, m.dir, t.start, t.end)
  {
    hide Chain, Gone, Sound;
    forall n: nat | t.start <= n <= t.end
      ensures Yielded(before + t.yielded, n) || Gone(m.dir, n)
    {
      if i :| 0 <= i < |t.yielded| && t.yielded[i].lsn == n {
        assert (before + t.yielded)[|before| + i].lsn == n;
      }
    }
  }

  lemma NoneAbove(t: Track, highWater: nat, n: nat, h: seq<Payload>)
    requires Sound(t, h) && highWater < n
    requires t.yielded != [] ==> t.yielded[|t.yielded| - 1].lsn == highWater
    ensures !Yielded(t.yielded, n)
  {
    hide SoundAt;
  }

  /** ... so above the last entry nothing of it is on disk. */
  lemma FinishedNothingLeft(m: Moment, t: Track, highWater: nat, h: seq<Payload>)
    requires Tracked(m, t, h) && t.done && t.start <= highWater + 1
    requires t.yielded != [] ==> t.yielded[|t.yielded| - 1].lsn == highWater
    requires t.yielded == [] ==> highWater + 1 == t.start
    ensures NothingLeft(m.dir, highWater, t.end)
  {
    hide Chain, Gone, SoundAt;
    forall n: nat | highWater < n <= t.end
      ensures Gone(m.dir, n)
    {
      NoneAbove(t, highWater, n, h);
    }
  }

  /** The entry a reader has just come upon can be handed over. */
  lemma EntryContinues(t: Turning, x: Handed, m: Moment, file: Option<nat>, h: seq<Payload>)
    requires 1 <= x.entry.lsn <= |h| && x.entry.lsn <= t.end && x.entry.payload == h[x.entry.lsn - 1]
    requires if t.started || t.handed != [] then x.entry.lsn == Mark(t) + 1 else x.entry.lsn > Mark(t)
    requires Supplies(m.dir, file, x.entry.lsn, h) && file == Some(x.base)
    requires ComesFrom(t, x.base, x.since, x.opening, x.entry.lsn) && Flows(Reached(t), m) && Flows(m, x.after)
    ensures Continues(t, x, h)
  {
    hide Flows, Supplies, ComesFrom;
    SuppliesFlows(m, x.after, file, x.entry.lsn, h);
    FlowsChain(Reached(t), m, x.after);
  }

  lemma NothingHanded(t: Turning, delays: seq<nat>, course: seq<Moment>, h: seq<Payload>)
    requires t.handed == []
    ensures Handing(t, h) && Punctual(t.handed, delays, t.at, course)
    ensures t.met == None && Placed(t.snap, t.at, course) ==> Timed(t, course) && Ended(t, t.at)
    ensures Given(t.handed) == [] && Flows(Reached(t), t.snap)
  {
    FlowsRefl(t.snap);
  }

  lemma ComesFresh(t: Turning, o: Outlook, end: nat, file: Option<nat>, since: Moment, opening: nat,
                   course: seq<Moment>, n: nat)
    requires OpenedSince(o, Mark(t) + 1, end, file, since, opening, course) && o.now == Reached(t)
    requires (t.calm ==> o.pace == []) && |o.future| <= ToCome(t)
    requires Mark(t) + 1 <= n <= end && (n == Mark(t) + 1 || n == file.value)
    ensures ComesFrom(t, file.value, since, opening, n) && Placed(since, opening, course) && opening <= ToCome(t)
  {
    hide Flows, Gone, Placed;
  }

  lemma ComesOn(t: Turning, base: nat, since: Moment, opening: nat, course: seq<Moment>, n: nat)
    requires Timed(t, course) && SameFile(t, base, since, opening) && n == Mark(t) + 1
    ensures ComesFrom(t, base, since, opening, n) && Placed(since, opening, course)
  {
    hide Placed;
    assert TimedAt(t, |t.handed| - 1, course);
  }

  /** Time goes one way. */
  lemma ToComeFalls(t: Turning, course: seq<Moment>)
    requires Timed(t, course)
    ensures ToCome(t) <= t.at
  {
    hide Placed;
    ToComeFallsUpto(t, |t.handed|, course);
    assert Upto(t, |t.handed|).handed == t.handed;
  }

  lemma {:induction false} ToComeFallsUpto(t: Turning, i: nat, course: seq<Moment>)
    requires Timed(t, course) && i <= |t.handed|
    ensures ToCome(Upto(t, i)) <= t.at
    decreases i
  {
    hide Placed;
    if i > 0 {
      ToComeFallsUpto(t, i - 1, course);
      assert TimedAt(t, i - 1, course);
    }
  }

  lemma SweptHands(result: BatchResult, t: Turning, last: Moment, h: seq<Payload>)
    requires Swept(result, t, last, h)
    ensures Handing(t, h)
  {
    hide Handing, Meets, NothingLeft;
  }

  lemma GivenHigh(t: Turning, h: seq<Payload>)
    requires Handing(t, h)
    ensures Mark(t) == t.mark || Mark(t) <= t.end
  {
    if t.handed != [] {
      assert Continues(Upto(t, |t.handed| - 1), t.handed[|t.handed| - 1], h);
    }
  }

  lemma GivenLast(handed: seq<Handed>)
    ensures (handed == [] <==> Given(handed) == [])
    ensures handed != [] ==> Given(handed)[|handed| - 1] == handed[|handed| - 1].entry
  {
  }

  lemma GivenSnoc(handed: seq<Handed>, x: Handed, before: seq<Record>)
    ensures Given(handed + [x]) == Given(handed) + [x.entry]
    ensures before + Given(handed) + [x.entry] == before + Given(handed + [x])
  {
  }

  lemma HandOnTime(t: Turning, x: Handed, delays: seq<nat>, course: seq<Moment>)
    requires Punctual(t.handed, delays, t.at, course) && x.left == Left(ToCome(t), Delay(delays, |t.handed|))
    requires Placed(x.after, x.left, course)
    ensures Punctual(t.handed + [x], delays, t.at, course)
  {
    hide Placed;
    forall i | 0 <= i < |t.handed + [x]|
      ensures PunctualAt(t.handed + [x], i, delays, t.at, course)
    {
      if i < |t.handed| {
        assert PunctualAt(t.handed, i, delays, t.at, course);
      }
    }
  }

  /** The entry and the moments it comes with take their place on the course. */
  lemma HandTimed(t: Turning, x: Handed, course: seq<Moment>)
    requires Timed(t, course) && t.met == None
    requires Placed(x.since, x.opening, course) && Placed(x.after, x.left, course)
    requires x.left <= x.opening && x.left <= ToCome(t)
    requires SameFile(t, x.base, x.since, x.opening) || x.opening <= ToCome(t)
    ensures Timed(t.(handed := t.handed + [x]), course)
  {
    hide Placed, SameFile;
    var u := t.(handed := t.handed + [x]);
    forall i | 0 <= i < |u.handed|
      ensures TimedAt(u, i, course)
    {
      assert u.handed[..i] == t.handed[..i];
      if i == |t.handed| {
        assert t.handed[..i] == t.handed && Upto(u, i) == t;
      } else {
        assert TimedAt(t, i, course) && Upto(u, i) == Upto(t, i);
      }
    }
  }

  lemma MeetTimed(t: Turning, x: Met, course: seq<Moment>)
    requires Timed(t, course) && Placed(x.since, x.opening, course) && x.opening <= ToCome(t)
    ensures Timed(t.(met := Some(x)), course)
  {
    hide Placed;
    var u := t.(met := Some(x));
    forall i | 0 <= i < |u.handed|
      ensures TimedAt(u, i, course)
    {
      assert TimedAt(t, i, course) && Upto(u, i) == Upto(t, i);
    }
  }

  lemma SweptGap(t: Turning, e: Record, since: Moment, opening: nat, last: Moment, h: seq<Payload>)
    requires Handing(t, h) && Flows(Reached(t), last) && t.met == None && (t.started || t.handed != [])
    requires Mark(t) + 1 < e.lsn <= t.end && e.lsn <= |h| && e.payload == h[e.lsn - 1]
    requires ComesFrom(t, e.lsn, since, opening, e.lsn) && Gone(last.dir, Mark(t) + 1)
    ensures Swept(Gap, t.(met := Some(Met(e, since, opening))), last, h)
  {
    hide Gone, Flows, Continues;
    MeetOn(t, Met(e, since, opening), h);
    hide Handing;
  }

  lemma MeetOn(t: Turning, x: Met, h: seq<Payload>)
    requires Handing(t, h)
    ensures Handing(t.(met := Some(x)), h)
  {
    hide Continues;
    var u := t.(met := Some(x));
    forall i | 0 <= i < |u.handed|
      ensures Continues(Upto(u, i), u.handed[i], h)
    {
      assert Upto(u, i) == Upto(t, i);
    }
  }

  lemma SuppliedAbove(d: Dir, file: Option<nat>, n: nat, h: seq<Payload>)
    requires Supplies(d, file, n, h)
    ensures file.Some? && file.value <= n
  {
    hide Reaches;
  }

  lemma SweptStopped(t: Turning, last: Moment, h: seq<Payload>)
    requires Handing(t, h) && Flows(Reached(t), last) && t.met == None
    ensures Swept(Stopped, t, last, h)
  {
    hide Handing, Flows;
  }

  lemma SweptDrained(t: Turning, last: Moment, h: seq<Payload>)
    requires Handing(t, h) && Flows(Reached(t), last) && t.met == None && NothingLeft(last.dir, Mark(t), t.end)
    ensures Swept(Drained, t, last, h)
  {
    hide Handing, Flows, NothingLeft;
  }

  /** Where a scan began: what the consumer had, and its delays. */
  datatype Begin = Begin(received: seq<Record>, delays: seq<nat>)

  /** The reader has come upon `e`. */
  ghost predicate Upcoming(t: Turning, e: Record, file: Option<nat>, since: Moment, opening: nat, yielded: seq<Record>,
                           now: Moment, course: seq<Moment>, h: seq<Payload>) {
    && yielded == Given(t.handed) + [e] && EntryAt(e, Mark(t) + 1, t.end, h)
    && file.Some? && Supplies(now.dir, file, e.lsn, h) && ComesFrom(t, file.value, since, opening, e.lsn)
    && Placed(since, opening, course)
    && ((SameFile(t, file.value, since, opening) && e.lsn == Mark(t) + 1) || opening <= ToCome(t))
  }

  /** A scan on its way. */
  ghost predicate Underway(t: Turning, b: Begin, received: seq<Record>, delays: seq<nat>, o: Outlook,
                         course: seq<Moment>, h: seq<Payload>) {
    && t.met == None && Handing(t, h) && Flows(Reached(t), o.now)
    && Timed(t, course) && |o.future| <= ToCome(t)
    && received == b.received + Given(t.handed) && delays == Later(b.delays, |t.handed|)
    && (t.calm ==> o.pace == [] && |o.future| == ToCome(t) && Punctual(t.handed, b.delays, t.at, course))
  }

  lemma UnderwayStart(t: Turning, b: Begin, o: Outlook, course: seq<Moment>, h: seq<Payload>)
    requires t.handed == [] && t.met == None && t.snap == o.now && t.at == |o.future| && (t.calm ==> o.pace == [])
    requires OnCourse(o.now, o.future, course)
    ensures Underway(t, b, b.received, b.delays, o, course, h) && Given(t.handed) == []
    ensures Mark(t) == t.mark && Mark(t.(met := None)) == t.mark
  {
    hide Flows, Given, OnCourse;
    NowAt(o.now, o.future, course);
    NothingHanded(t, b.delays, course, h);
    EmptyUnit(b.received);
    hide Handing, Punctual, Timed;
  }

  lemma UnderwayHolds(t: Turning, b: Begin, received: seq<Record>, delays: seq<nat>, o: Outlook,
                    course: seq<Moment>, h: seq<Payload>)
    requires Underway(t, b, received, delays, o, course, h)
    ensures t.met == None && Handing(t, h) && Flows(Reached(t), o.now) && received == b.received + Given(t.handed)
    ensures Timed(t, course) && |o.future| <= ToCome(t)
    ensures t.calm ==> o.pace == [] && |o.future| == ToCome(t) && Punctual(t.handed, b.delays, t.at, course)
  {
    hide Handing, Flows, Given, Punctual, Timed;
  }

  /** Time passes. */
  lemma UnderwayFlows(t: Turning, b: Begin, received: seq<Record>, delays: seq<nat>, o: Outlook, q: Outlook,
                    course: seq<Moment>, h: seq<Payload>)
    requires Underway(t, b, received, delays, o, course, h)
    requires Flows(o.now, q.now) && |q.future| <= |o.future| && (o.pace == [] ==> q.pace == [] && q.future == o.future)
    ensures Underway(t, b, received, delays, q, course, h)
  {
    hide Handing, Flows, Given, Punctual, Timed;
    FlowsChain(Reached(t), o.now, q.now);
  }

  /** An entry is handed over. */
  lemma UnderwayOn(t: Turning, x: Handed, b: Begin, received: seq<Record>, delays: seq<nat>, o: Outlook, q: Outlook,
                 course: seq<Moment>, h: seq<Payload>)
    requires Underway(t, b, received, delays, o, course, h) && OnCourse(q.now, q.future, course)
    requires Flows(o.now, q.now) && q.pace == o.pace && |q.future| == Left(|o.future|, Delay(delays, 0))
    requires x.after == q.now && x.left == |q.future| <= x.opening
    requires EntryAt(x.entry, Mark(t), t.end, h) && x.entry.lsn > Mark(t)
    requires t.started || t.handed != [] ==> x.entry.lsn == Mark(t) + 1
    requires Supplies(o.now.dir, Some(x.base), x.entry.lsn, h)
    requires ComesFrom(t, x.base, x.since, x.opening, x.entry.lsn) && Placed(x.since, x.opening, course)
    requires SameFile(t, x.base, x.since, x.opening) || x.opening <= ToCome(t)
    ensures Underway(t.(handed := t.handed + [x]), b, received + [x.entry], Later(delays, 1), q, course, h)
  {
    hide Handing, Flows, Given, Punctual, Supplies, ComesFrom, Continues, OnCourse, Left, Timed, SameFile, Placed;
    var u := t.(handed := t.handed + [x]);
    LaterNext(b.delays, |t.handed|);
    FlowsRefl(q.now);
    EntryContinues(t, x, o.now, Some(x.base), h);
    HandOn(t, x, h);
    NowAt(q.now, q.future, course);
    LeftLess(|o.future|, Delay(delays, 0));
    HandTimed(t, x, course);
    if t.calm {
      HandOnTime(t, x, b.delays, course);
    }
    GivenSnoc(t.handed, x, b.received);
  }

  lemma LeftLess(left: nat, steps: nat)
    ensures Left(left, steps) <= left
  {
  }

  lemma LaterNext(delays: seq<nat>, n: nat)
    ensures Delay(Later(delays, n), 0) == Delay(delays, n) && Later(Later(delays, n), 1) == Later(delays, n + 1)
  {
  }

  /** The consumer wants no more. */
  lemma LeftOff(t: Turning, b: Begin, received: seq<Record>, delays: seq<nat>, o: Outlook, course: seq<Moment>,
                h: seq<Payload>)
    requires Underway(t, b, received, delays, o, course, h)
    ensures Swept(Stopped, t, o.now, h) && received == b.received + Given(t.handed)
    ensures Timed(t, course) && Ended(t, |o.future|)
    ensures t.calm ==> o.pace == [] && |o.future| == ToCome(t) && Punctual(t.handed, b.delays, t.at, course)
  {
    hide Underway, Given, Flows, Swept, Punctual, Handing, Timed;
    UnderwayHolds(t, b, received, delays, o, course, h);
    SweptStopped(t, o.now, h);
  }

  /** The reader has nothing more. */
  lemma AllDrained(t: Turning, b: Begin, received: seq<Record>, delays: seq<nat>, p: Track, o: Outlook,
                   course: seq<Moment>, h: seq<Payload>)
    requires Underway(t, b, received, delays, o, course, h)
    requires Tracked(o.now, p, h) && p.done && p.yielded == Given(t.handed) && p.start == t.mark + 1 && p.end == t.end
    ensures Swept(Drained, t, o.now, h) && received == b.received + Given(t.handed)
    ensures Timed(t, course) && Ended(t, |o.future|)
    ensures Caught(received, o.now.dir, t.mark + 1, t.end)
    ensures t.calm ==> o.pace == [] && |o.future| == ToCome(t) && Punctual(t.handed, b.delays, t.at, course)
  {
    hide Underway, Tracked, Given, Flows, Gone, Swept, Punctual, Handing, Caught, NothingLeft, Timed;
    UnderwayHolds(t, b, received, delays, o, course, h);
    GivenLast(t.handed);
    HandsUp(t, h);
    FinishedCaught(o.now, p, b.received, h);
    FinishedNothingLeft(o.now, p, Mark(t), h);
    SweptDrained(t, o.now, h);
  }

  lemma HandsUp(t: Turning, h: seq<Payload>)
    requires Handing(t, h)
    ensures t.mark <= Mark(t)
  {
    hide Supplies, ComesFrom, Flows;
    HandsUpFrom(t, |t.handed|, h);
    assert Upto(t, |t.handed|).handed == t.handed;
  }

  lemma {:induction false} HandsUpFrom(t: Turning, i: nat, h: seq<Payload>)
    requires Handing(t, h) && i <= |t.handed|
    ensures t.mark <= Mark(Upto(t, i))
    decreases i
  {
    hide Supplies, ComesFrom, Flows;
    if i > 0 {
      HandsUpFrom(t, i - 1, h);
      assert Continues(Upto(t, i - 1), t.handed[i - 1], h);
    }
  }

  /** The reader has come upon a record above the one due. */
  lemma GapFound(t: Turning, b: Begin, received: seq<Record>, delays: seq<nat>, e: Record, p: Track, file: Option<nat>,
                 since: Moment, opening: nat, o: Outlook, course: seq<Moment>, h: seq<Payload>)
    requires Underway(t, b, received, delays, o, course, h) && (t.started || t.handed != [])
    requires Upcoming(t, e, file, since, opening, p.yielded, o.now, course, h) && Mark(t) + 1 < e.lsn
    requires Tracked(o.now, p, h) && p.start <= Mark(t) + 1 && p.from == e.lsn + 1
    requires file.Some? ==> |o.future| <= opening
    ensures var u := t.(met := Some(Met(e, since, opening)));
      && Swept(Gap, u, o.now, h) && Timed(u, course) && Ended(u, |o.future|)
      && Mark(u) == Mark(t) && ToCome(u) == ToCome(t)
    ensures received == b.received + Given(t.handed)
    ensures t.calm ==> o.pace == [] && |o.future| == ToCome(t) && Punctual(t.handed, b.delays, t.at, course)
  {
    hide Underway, Tracked, Supplies, Given, Flows, Gone, Swept, Punctual, Handing, Timed, Placed;
    UnderwayHolds(t, b, received, delays, o, course, h);
    GivenLast(t.handed);
    GapIsGone(o.now, p, Given(t.handed), e, Mark(t) + 1, h);
    assert file == Some(e.lsn);
    hide ComesFrom;
    SweptGap(t, e, since, opening, o.now, h);
    MeetTimed(t, Met(e, since, opening), course);
  }

  /** The first turn begins with the first look at what there is, `o`. */
  ghost predicate StartsAt(t: Turning, o: Outlook, highWater: nat, started: bool) {
    t.at == Left(|o.future|, Delay(o.pace, 0)) && t.mark == highWater && t.started == started
  }

  /** The turns of a stream: each on the course of the writer, and after the one before. */
  ghost predicate Series(ts: seq<Turning>, calm: bool, course: seq<Moment>, h: seq<Payload>) {
    && (forall i | 0 <= i < |ts| :: Timed(ts[i], course))
    && forall i | 0 <= i < |ts| - 1 :: TurnAfter(ts[i], ts[i + 1], calm, course, h)
  }

  /** The turn `t` was drained, and `u` takes up where it left off; at once if the writer stands still. */
  ghost predicate TurnAfter(t: Turning, u: Turning, calm: bool, course: seq<Moment>, h: seq<Payload>) {
    && u.mark == Mark(t) && u.started == (t.started || t.handed != [])
    && (calm ==> u.at == ToCome(t))
    && exists left: nat :: u.at <= left && DrainedAt(t, left, course, h)
  }

  /** It was drained when `left` moments were still to come. */
  ghost predicate DrainedAt(t: Turning, left: nat, course: seq<Moment>, h: seq<Payload>) {
    left < |course| && Ended(t, left) && TurnsOut(Drained, t, course[|course| - 1 - left], h)
  }

  /** Between two turns. */
  ghost predicate Awaits(ts: seq<Turning>, o: Outlook, highWater: nat, started: bool, calm: bool, course: seq<Moment>,
                         h: seq<Payload>) {
    && (calm ==> o.pace == [])
    && (ts != [] ==>
      var t := ts[|ts| - 1];
      && highWater == Mark(t) && started == (t.started || t.handed != [])
      && (calm ==> |o.future| == ToCome(t)) && DrainedAt(t, |o.future|, course, h))
  }

  function GivenAll(ts: seq<Turning>): seq<Record> {
    if ts == [] then [] else GivenAll(ts[..|ts| - 1]) + Given(ts[|ts| - 1].handed)
  }

  lemma NoTurnsYet(o: Outlook, highWater: nat, started: bool, calm: bool, course: seq<Moment>, h: seq<Payload>)
    requires calm ==> o.pace == []
    ensures Series([], calm, course, h) && GivenAll([]) == []
    ensures Awaits([], o, highWater, started, calm, course, h)
  {
  }

  lemma SeriesOn(ts: seq<Turning>, t: Turning, o: Outlook, calm: bool, course: seq<Moment>, h: seq<Payload>)
    requires Series(ts, calm, course, h) && Awaits(ts, o, t.mark, t.started, calm, course, h)
    requires Timed(t, course) && t.at == Left(|o.future|, Delay(o.pace, 0))
    ensures Series(ts + [t], calm, course, h) && GivenAll(ts + [t]) == GivenAll(ts) + Given(t.handed)
    ensures (ts + [t])[0] == if ts == [] then t else ts[0]
  {
    hide Timed, DrainedAt, ToCome, Given;
    assert (ts + [t])[..|ts|] == ts;
    LeftLess(|o.future|, Delay(o.pace, 0));
    if ts != [] {
      assert TurnAfter(ts[|ts| - 1], t, calm, course, h);
    }
    forall i | 0 <= i < |ts + [t]| - 1
      ensures TurnAfter((ts + [t])[i], (ts + [t])[i + 1], calm, course, h)
    {
      if i < |ts| - 1 {
        assert TurnAfter(ts[i], ts[i + 1], calm, course, h);
      }
    }
  }

  lemma DrainsOn(ts: seq<Turning>, t: Turning, o: Outlook, calm: bool, course: seq<Moment>, h: seq<Payload>)
    requires TurnsOut(Drained, t, o.now, h) && Ended(t, |o.future|) && OnCourse(o.now, o.future, course)
    requires calm ==> o.pace == [] && |o.future| == ToCome(t)
    ensures Awaits(ts + [t], o, Mark(t), t.started || t.handed != [], calm, course, h)
  {
    hide TurnsOut, Ended, ToCome, OnCourse;
    NowAt(o.now, o.future, course);
  }

  /** Wait `i`; after the last one the context is cancelled. */
  function WaitAt(waits: seq<Wakeup>, i: nat): Wakeup {
    if i < |waits| then waits[i] else ContextCanceled
  }

  class Follower {
    const disk: Disk
    const consumer: Consumer
    const fromLSN: nat
    /** The last LSN committed when the follower was made: where snapshot mode ends. */
    const endLSN: nat
    const follow: bool
    var highWater: nat
    var delivered: bool
    var err: Option<FollowError>

    constructor (disk: Disk, consumer: Consumer, fromLSN: nat, follow: bool)
      requires disk.Valid() && consumer.received == []
      ensures Valid() && this.disk == disk && this.consumer == consumer && this.fromLSN == fromLSN
        && this.follow == follow
      ensures endLSN == disk.now.w.lastLSN && err == None && highWater == if fromLSN > 0 then fromLSN - 1 else 0
    {
      this.disk, this.consumer, this.fromLSN, this.follow := disk, consumer, fromLSN, follow;
      endLSN := disk.now.w.lastLSN;
      highWater := if fromLSN > 0 then fromLSN - 1 else 0;
      delivered, err := false, None;
    }

    ghost predicate Valid()
      reads this, disk, consumer
    {
      && disk.Valid() && endLSN <= disk.now.w.lastLSN
      && Stream(consumer.received, fromLSN, highWater, disk.h)
      && (delivered <==> consumer.received != [])
    }

    lemma Usable()
      requires Valid()
      ensures disk.Valid() && OnCourse(disk.now, disk.future, disk.course)
    {
      hide Unfolds, Storable, OnCourse, Stream;
    }

    /** Moves the high-water mark to the entry and hands it to the consumer. */
    method Deliver(entry: Record) returns (continued: bool, steps: nat)
      requires Valid() && 1 <= entry.lsn <= |disk.h| && entry.payload == disk.h[entry.lsn - 1]
      requires entry.lsn == highWater + 1 || !(delivered || fromLSN > 0)
      modifies this`highWater, this`delivered, consumer
      ensures Valid() && highWater == entry.lsn && delivered && consumer.received == old(consumer.received) + [entry]
      ensures steps == Delay(old(consumer.delays), 0) && consumer.delays == Later(old(consumer.delays), 1)
      ensures continued == (old(consumer.patience) > 0)
      ensures consumer.patience == if continued then old(consumer.patience) - 1 else 0
    {
      hide Unfolds, Storable, OnCourse, Stream;
      StreamSnoc(consumer.received, fromLSN, highWater, entry, disk.h);
      highWater := entry.lsn;
      delivered := true;
      continued, steps := consumer.Yield(entry);
    }

    /** What a finished wait means for the stream. */
    method WaitForCommit(outcome: Wakeup) returns (again: bool)
      modifies this`err
      ensures again <==> outcome == Woken
      ensures outcome == WalClosed ==> err == Some(Closed)
      ensures outcome == ContextCanceled ==> err == Some(Canceled)
      ensures outcome == Woken || outcome == ClosedByUser ==> err == old(err)
    {
      again := outcome == Woken;
      match outcome
      case WalClosed => err := Some(Closed);
      case ContextCanceled => err := Some(Canceled);
      case _ =>
    }

    /** Hands over the entry the reader has come upon; the writer goes on while the consumer has it. */
    method HandOver(reader: Reader, entry: Record, ghost t: Turning, ghost b: Begin)
        returns (continued: bool, ghost u: Turning)
      requires Valid() && reader.disk == disk && reader.Valid() && highWater == Mark(t)
      requires Upcoming(t, entry, reader.file, reader.since, reader.opening, reader.yielded, disk.now, disk.course,
                        disk.h)
      requires delivered || fromLSN > 0 <==> t.started || t.handed != []
      requires delivered || fromLSN > 0 ==> entry.lsn == Mark(t) + 1
      requires Underway(t, b, consumer.received, consumer.delays, disk.Look(), disk.course, disk.h)
      modifies this`highWater, this`delivered, disk`now, disk`future, consumer
      ensures Valid() && reader.Valid() && delivered && highWater == Mark(u) == entry.lsn && Reached(u) == disk.now
      ensures u == t.(handed := u.handed) && |u.handed| == |t.handed| + 1 && reader.yielded == Given(u.handed)
      ensures reader.file.Some? && SameFile(u, reader.file.value, reader.since, reader.opening)
      ensures Underway(u, b, consumer.received, consumer.delays, disk.Look(), disk.course, disk.h)
      ensures Flows(old(disk.now), disk.now) && continued == (old(consumer.patience) > 0)
      ensures consumer.patience == if continued then old(consumer.patience) - 1 else 0
    {
      hide World, Unfolds, OnCourse, Storable, Flows, Stream, Tracked, Reads, Supplies, ComesFrom, Underway, Placed;
      hide ToCome, Left;
      ghost var o, received, delays := disk.Look(), consumer.received, consumer.delays;
      var steps;
      continued, steps := Deliver(entry);
      reader.Wait(steps);
      FlowsLast(o.now, disk.now);
      ghost var x := Handed(entry, reader.file.value, reader.since, reader.opening, disk.now, |disk.future|);
      u := t.(handed := t.handed + [x]);
      GivenSnoc(t.handed, x, []);
      UnderwayOn(t, x, b, received, delays, o, disk.Look(), disk.course, disk.h);
    }

    /** Asks the reader for the next entry, after `t.handed` or at the start. */
    method Proceed(reader: Reader, ghost t: Turning, ghost b: Begin) returns (more: bool)
      requires Valid() && reader.disk == disk && reader.Valid() && reader.Steady() && Reached(t) == disk.now
      requires reader.yielded == Given(t.handed) && reader.endLSN == t.end && reader.fromLSN == Mark(t) + 1
      requires reader.file == None || SameFile(t, reader.file.value, reader.since, reader.opening)
      requires Underway(t, b, consumer.received, consumer.delays, disk.Look(), disk.course, disk.h)
      modifies reader, disk
      ensures Valid() && reader.Valid() && Flows(old(disk.now), disk.now)
      ensures Underway(t, b, consumer.received, consumer.delays, disk.Look(), disk.course, disk.h)
      ensures more ==>
        Upcoming(t, reader.current, reader.file, reader.since, reader.opening, reader.yielded, disk.now, disk.course,
                 disk.h)
      ensures if more
        then Mark(t) < reader.current.lsn && reader.fromLSN == reader.current.lsn + 1 <= t.end + 1 && reader.Steady()
        else reader.done && reader.yielded == Given(t.handed)
    {
      hide World, Unfolds, OnCourse, Tracked, Storable, StaleIn, Flows, Reads, Stream, Supplies, ComesFrom, Given;
      hide Underway, Gone, Placed, ToCome, OpenedSince, Timed, SameFile;
      ghost var o := disk.Look();
      UnderwayHolds(t, b, consumer.received, consumer.delays, o, disk.course, disk.h);
      more := reader.Next();
      FlowsLast(o.now, disk.now);
      UnderwayFlows(t, b, consumer.received, consumer.delays, o, disk.Look(), disk.course, disk.h);
      if more {
        EntryIsSound(disk.now, reader.Position(), disk.h);
        if reader.Reopened() {
          ComesFresh(t, o, t.end, reader.file, reader.since, reader.opening, disk.course, reader.current.lsn);
        } else {
          ComesOn(t, reader.file.value, reader.since, reader.opening, disk.course, reader.current.lsn);
        }
      }
    }

    /** Delivers one snapshot's worth of records, up to `tail`. */
    method ScanBatch(tail: nat) returns (result: BatchResult, ghost t: Turning)
      requires Valid() && tail <= disk.now.w.lastLSN
      modifies this`highWater, this`delivered, disk, consumer
      ensures Valid() && Flows(old(disk.now), disk.now)
      ensures t == Turning(old(disk.now), old(|disk.future|), old(highWater), old(delivered) || fromLSN > 0, tail,
                           old(disk.pace) == [], t.handed, t.met)
      ensures Swept(result, t, disk.now, disk.h) && highWater == Mark(t)
      ensures Timed(t, disk.course) && Ended(t, |disk.future|)
      ensures consumer.received == old(consumer.received) + Given(t.handed)
      ensures result == Gap ==> delivered || fromLSN > 0
      ensures result == Stopped ==> |t.handed| == old(consumer.patience) + 1
      ensures result == Drained ==> Caught(consumer.received, disk.now.dir, old(highWater) + 1, tail)
      ensures t.calm ==>
        disk.pace == [] && |disk.future| == ToCome(t) && Punctual(t.handed, old(consumer.delays), t.at, disk.course)
    {
      hide World, Unfolds, OnCourse, Tracked, Storable, StaleIn, Flows, Reads, Stream, Gone, Caught, Sound;
      hide Supplies, ComesFrom, Handing, Punctual, Given, NothingLeft, Swept, Underway, Upcoming, EntryAt;
      hide LeftOf, Mark, Left, ToCome, Ended, Timed, Placed, Reader.Valid, Reader.Position, Valid, Disk.Valid;
      Usable();
      ghost var b := Begin(consumer.received, consumer.delays);
      t := Turning(disk.now, |disk.future|, highWater, delivered || fromLSN > 0, tail, disk.pace == [], [], None);
      ghost var start := t;
      UnderwayStart(t, b, disk.Look(), disk.course, disk.h);
      var expectedLSN := highWater + 1;
      var reader := new Reader(disk, expectedLSN, tail);
      var more := Proceed(reader, t, b);
      while more
        invariant Valid() && fresh(reader) && reader.disk == disk && reader.Valid() && Flows(old(disk.now), disk.now)
        invariant reader.start == old(highWater) + 1 && reader.endLSN == tail && expectedLSN == highWater + 1
        invariant t == start.(handed := t.handed)
        invariant highWater == Mark(t) && reader.start <= expectedLSN
        invariant delivered || fromLSN > 0 <==> t.started || t.handed != []
        invariant Underway(t, b, consumer.received, consumer.delays, disk.Look(), disk.course, disk.h)
        invariant more ==>
          Upcoming(t, reader.current, reader.file, reader.since, reader.opening, reader.yielded, disk.now, disk.course,
                   disk.h)
        invariant if more
          then Mark(t) < reader.current.lsn && reader.fromLSN == reader.current.lsn + 1 <= tail + 1 && reader.Steady()
          else reader.done && reader.yielded == Given(t.handed)
        invariant |t.handed| + consumer.patience == old(consumer.patience)
        decreases if more then tail + 2 - reader.fromLSN else 0
      {
        var entry := reader.current;
        if entry.lsn > expectedLSN && (delivered || fromLSN > 0) {
          reader.Stands();
          reader.InBounds();
          GapFound(t, b, consumer.received, consumer.delays, entry, reader.Position(), reader.file, reader.since,
                   reader.opening, disk.Look(), disk.course, disk.h);
          return Gap, t.(met := Some(Met(entry, reader.since, reader.opening)));
        }
        ghost var at := disk.now;
        var continued;
        continued, t := HandOver(reader, entry, t, b);
        expectedLSN := highWater + 1;
        FlowsChain(old(disk.now), at, disk.now);
        if !continued {
          LeftOff(t, b, consumer.received, consumer.delays, disk.Look(), disk.course, disk.h);
          return Stopped, t;
        }
        at := disk.now;
        more := Proceed(reader, t, b);
        FlowsChain(old(disk.now), at, disk.now);
      }
      reader.Stands();
      AllDrained(t, b, consumer.received, consumer.delays, reader.Position(), disk.Look(), disk.course, disk.h);
      return Drained, t;
    }

    /** Takes a snapshot of the index and delivers what it covers: one turn of the stream. */
    method Turn() returns (result: BatchResult, ghost t: Turning)
      requires Valid() && Caught(consumer.received, disk.now.dir, fromLSN, highWater)
      modifies this`highWater, this`delivered, disk, consumer
      ensures Valid() && Flows(old(disk.now), t.snap) && (old(disk.pace) == [] ==> t.calm && t.snap == old(disk.now))
      ensures t.at == Left(old(|disk.future|), Delay(old(disk.pace), 0)) && Timed(t, disk.course)
      ensures Ended(t, |disk.future|) && ToCome(t) <= t.at
      ensures t.mark == old(highWater) && t.started == (old(delivered) || fromLSN > 0)
      ensures t.end == if follow then t.snap.w.lastLSN else endLSN
      ensures TurnsOut(result, t, disk.now, disk.h) && highWater == Mark(t) && endLSN <= t.end
      ensures consumer.received == old(consumer.received) + Given(t.handed)
      ensures result == Gap ==> delivered || fromLSN > 0
      ensures result == Drained ==> Caught(consumer.received, disk.now.dir, fromLSN, highWater)
      ensures result == Drained ==> Caught(consumer.received, disk.now.dir, fromLSN, t.end)
      ensures result == Stopped ==> |t.handed| == old(consumer.patience) + 1
      ensures old(disk.pace) == [] ==>
        disk.pace == [] && |disk.future| == ToCome(t) && Punctual(t.handed, old(consumer.delays), t.at, disk.course)
    {
      hide World, Unfolds, OnCourse, Storable, Flows, Stream, Caught, Gone, Punctual, Handing, NothingLeft, Swept;
      hide Given, Timed, Placed;
      ghost var before := disk.now;
      disk.Advance();
      FlowsLast(before, disk.now);
      CaughtFlows(consumer.received, before, disk.now, fromLSN, highWater);
      var index := disk.now.w;
      var scanned := if follow then index.lastLSN else endLSN;
      if (delivered || fromLSN > 0) && highWater + 1 < index.firstLSN {
        t := Turning(disk.now, |disk.future|, highWater, true, scanned, disk.pace == [], [], None);
        NowAt(disk.now, disk.future, disk.course);
        NothingHanded(t, consumer.delays, disk.course, disk.h);
        EmptyUnit(consumer.received);
        BelowIndex(disk.now, disk.future, highWater + 1, disk.h);
        return Gap, t;
      }
      ghost var received, mark, now := consumer.received, highWater, disk.now;
      result, t := ScanBatch(scanned);
      ToComeFalls(t, disk.course);
      if result == Drained {
        SweptHands(result, t, disk.now, disk.h);
        GivenHigh(t, disk.h);
        BatchCaught(received, consumer.received, now, disk.now, fromLSN, mark, highWater, scanned);
      }
    }

    /** Streams the records to the consumer, turn after turn in follow mode. `waits` says what each wait for
        the next commit comes to. The stream is unbroken, and made of the turns `earlier`, which were all
        drained, and `t`, each taking up where the one before left off. Unless the consumer stopped it, it ends
        as truncated exactly when, in its last turn, the index said that the record due next was gone or a
        record above it was met; and otherwise with nothing left on disk of what is above the high-water mark,
        up to what the turn went for, and with the error that the end of its last wait calls for. */
    method StreamRecords(waits: seq<Wakeup>) returns (stopped: bool, ghost t: Turning, ghost earlier: seq<Turning>)
      requires Valid() && consumer.received == [] && err == None
      modifies this`highWater, this`delivered, this`err, disk, consumer
      ensures Valid() && Stream(consumer.received, fromLSN, highWater, disk.h) && highWater == Mark(t)
      ensures Series(earlier + [t], old(disk.pace) == [], disk.course, disk.h) && Ended(t, |disk.future|)
      ensures consumer.received == GivenAll(earlier + [t])
      ensures StartsAt((earlier + [t])[0], old(disk.Look()), old(highWater), fromLSN > 0)
      ensures exists result: BatchResult ::
        && TurnsOut(result, t, disk.now, disk.h)
        && (stopped <==> result == Stopped) && (err == Some(Truncated) <==> result == Gap)
      ensures t.end == (if follow then t.snap.w.lastLSN else endLSN) && endLSN <= t.end
      ensures err == Some(Truncated) ==> delivered || fromLSN > 0
      ensures !stopped && err != Some(Truncated) ==> Caught(consumer.received, disk.now.dir, fromLSN, t.end)
      ensures !stopped && err != Some(Truncated) && follow ==>
        var n := |earlier|;
        && n <= |waits| && (forall i | 0 <= i < n :: waits[i] == Woken) && (n < |waits| ==> waits[n] != Woken)
        && (n == |waits| || waits[n] == ContextCanceled ==> err == Some(Canceled))
        && (n < |waits| && waits[n] == WalClosed ==> err == Some(Closed))
        && (n < |waits| && waits[n] == ClosedByUser ==> err == None)
      ensures !follow ==> earlier == [] && (err == None || err == Some(Truncated))
      ensures !follow && stopped ==> |t.handed| == old(consumer.patience) + 1
      ensures !follow && old(disk.pace) == [] ==>
        && t.calm && t.snap == old(disk.now)
        && Punctual(t.handed, old(consumer.delays), t.at, disk.course)
        && disk.pace == [] && |disk.future| == ToCome(t)
    {
      hide World, Unfolds, Storable, OnCourse, Stream, Caught, Gone, Flows, TurnsOut, Punctual, Given, Timed, ToCome;
      hide Ended, Series, Awaits, GivenAll;
      StreamStart(fromLSN, highWater, disk.h);
      NothingMissed(disk.now, disk.future, fromLSN, highWater, disk.h);
      ghost var calm := disk.pace == [];
      stopped, earlier := false, [];
      NoTurnsYet(disk.Look(), highWater, fromLSN > 0, calm, disk.course, disk.h);
      var wakeups := 0;
      while true
        invariant Valid() && err == None && |earlier| == wakeups <= |waits| && !stopped
        invariant forall i | 0 <= i < wakeups :: waits[i] == Woken
        invariant (wakeups > 0 ==> follow) && (calm ==> disk.pace == [])
        invariant Series(earlier, calm, disk.course, disk.h) && consumer.received == GivenAll(earlier)
        invariant Awaits(earlier, disk.Look(), highWater, delivered || fromLSN > 0, calm, disk.course, disk.h)
        invariant earlier != [] ==> StartsAt(earlier[0], old(disk.Look()), old(highWater), fromLSN > 0)
        invariant wakeups == 0 ==> highWater == old(highWater) && !delivered && consumer.received == []
        invariant wakeups == 0 ==>
          consumer.patience == old(consumer.patience) && consumer.delays == old(consumer.delays)
        invariant wakeups == 0 ==> disk.Look() == old(disk.Look())
        invariant Caught(consumer.received, disk.now.dir, fromLSN, highWater)
        decreases |waits| - wakeups
      {
        ghost var o := disk.Look();
        var result;
        result, t := Turn();
        SeriesOn(earlier, t, o, calm, disk.course, disk.h);
        match result
        case Stopped =>
          stopped := true;
          return;
        case Gap =>
          err := Some(Truncated);
          return;
        case Drained =>
        if !follow {
          return;
        }
        var again := WaitForCommit(WaitAt(waits, wakeups));
        if !again {
          return;
        }
        DrainsOn(earlier, t, disk.Look(), calm, disk.course, disk.h);
        wakeups, earlier := wakeups + 1, earlier + [t];
      }
    }
  }

  lemma StreamStart(from: nat, highWater: nat, h: seq<Payload>)
    requires Stream([], from, highWater, h)
    ensures highWater == if from > 0 then from - 1 else 0
  {
  }

  /** Before the first record nothing is missed: there is no LSN 0. */
  lemma NothingMissed(m: Moment, future: seq<Moment>, from: nat, highWater: nat, h: seq<Payload>)
    requires Unfolds(m, future, h) && highWater == if from > 0 then from - 1 else 0
    ensures Caught([], m.dir, from, highWater)
  {
    hide World, Gone, Yielded;
    if from == 0 {
      DiskWorld(m, future, h);
      ZeroGone(m, h);
      hide Unfolds;
    }
  }

  lemma ZeroGone(m: Moment, h: seq<Payload>)
    requires World(m, h)
    ensures Gone(m.dir, 0)
  {
    GoneBelow(m, 0, h);
  }

  lemma BelowIndex(m: Moment, future: seq<Moment>, n: nat, h: seq<Payload>)
    requires Unfolds(m, future, h) && n < m.w.firstLSN
    ensures Gone(m.dir, n)
  {
    GoneBelow(m, n, h);
  }

  /** A drained batch extends what is caught up to. */
  lemma BatchCaught(before: seq<Record>, after: seq<Record>, m: Moment, k: Moment, from: nat, mark: nat,
                    highWater: nat, tail: nat)
    requires Caught(before, m.dir, from, mark) && Flows(m, k) && before <= after
    requires Caught(after, k.dir, mark + 1, tail) && (highWater == mark || highWater <= tail)
    ensures Caught(after, k.dir, from, tail) && Caught(after, k.dir, from, highWater)
  {
    CaughtFlows(before, m, k, from, mark);
    hide Flows, Gone;
    forall n: nat | from <= n && (n <= tail || n <= mark)
      ensures Yielded(after, n) || Gone(k.dir, n)
    {
      if n <= mark && Yielded(before, n) {
        var i :| 0 <= i < |before| && before[i].lsn == n;
        assert after[i].lsn == n;
      }
    }
  }
}
