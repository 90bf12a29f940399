/** The reader as it runs, beside a writer that may change the directory between any two of its steps. */
module Readers {
  import opened Wrappers
  import opened Records
  import opened History
  import opened Directory
  import opened Steps
  import opened Reading
  import opened Tracking
  import Names

  /** From `now` on the world goes through `future`, moment by moment. */
  ghost predicate Unfolds(now: Moment, future: seq<Moment>, h: seq<Payload>)
    decreases |future|
  {
    World(now, h) && (future != [] ==> Flows(now, future[0]) && Unfolds(future[0], future[1..], h))
  }

  ghost function BasesAbove(keys: set<nat>, missing: nat): set<nat> {
    set b | b in keys && b > missing
  }

  /** The segment files based above `missing`, smallest base first. */
  method ListAbove(keys: set<nat>, missing: nat) returns (remaining: seq<nat>)
    ensures Listing(remaining, BasesAbove(keys, missing))
  {
    var bases := Names.ListBases(keys);
    remaining := [];
    for i := 0 to |bases|
      invariant Ascending(remaining) && forall b :: b in remaining <==> b in bases[..i] && b > missing
    {
      assert bases[..i + 1] == bases[..i] + [bases[i]];
      if bases[i] > missing {
        assert forall j | 0 <= j < |remaining| :: remaining[j] in bases[..i];
        remaining := remaining + [bases[i]];
      }
    }
    assert bases[..|bases|] == bases;
  }

  lemma FlowsLast(m: Moment, k: Moment)
    requires Flows(m, k)
    ensures m.w.lastLSN <= k.w.lastLSN
  {
  }

  lemma FlowsChain(m: Moment, k: Moment, n: Moment)
    requires Flows(m, k) && Flows(k, n)
    ensures Flows(m, n)
  {
    hide Evolves;
    EvolvesChain(m.dir, k.dir, n.dir);
  }

  /** `now` is a moment of the course and the future is what follows it there. */
  ghost predicate OnCourse(now: Moment, future: seq<Moment>, course: seq<Moment>) {
    |future| < |course| && course[|course| - |future| - 1..] == [now] + future
  }

  lemma CourseGoesOn(now: Moment, future: seq<Moment>, course: seq<Moment>)
    requires OnCourse(now, future, course) && future != []
    ensures OnCourse(future[0], future[1..], course)
  {
    var i := |course| - |future| - 1;
    assert course[i + 1..] == course[i..][1..];
  }

  lemma CourseHolds(now: Moment, future: seq<Moment>, course: seq<Moment>)
    requires OnCourse(now, future, course)
    ensures now in course
  {
    assert course[|course| - |future| - 1] == course[|course| - |future| - 1..][0];
  }

  /** `m` is the moment of the course after which so many are left. */
  predicate Placed(m: Moment, left: nat, course: seq<Moment>) {
    left < |course| && course[|course| - 1 - left] == m
  }

  lemma NowAt(now: Moment, future: seq<Moment>, course: seq<Moment>)
    requires OnCourse(now, future, course)
    ensures Placed(now, |future|, course)
  {
    assert course[|course| - 1 - |future|..][0] == course[|course| - 1 - |future|];
  }

  /** The present moment, those to come, and how many of them pass between looks. */
  datatype Outlook = Outlook(now: Moment, future: seq<Moment>, pace: seq<nat>)

  /** How many of `left` moments are left after so many steps. */
  function Left(left: nat, steps: nat): nat {
    if steps < left then left - steps else 0
  }

  function Delay(delays: seq<nat>, i: nat): nat {
    if i < |delays| then delays[i] else 0
  }

  function Later(delays: seq<nat>, i: nat): seq<nat> {
    if i < |delays| then delays[i..] else []
  }

  /** After the outlook `o` the file was opened, at the moment `since`, when it was on disk. If it starts above
      the LSN `due`, that record was gone then. */
  ghost predicate OpenedSince(o: Outlook, due: nat, end: nat, file: Option<nat>, since: Moment, opening: nat,
                              course: seq<Moment>) {
    && file.Some? && file.value in since.dir.files && Flows(o.now, since)
    && opening <= |o.future| && Placed(since, opening, course)
    && (due < file.value && due <= end ==> Gone(since.dir, due))
    && (o.pace == [] ==> since == o.now)
  }

  lemma OpenedNow(o: Outlook, due: nat, end: nat, file: Option<nat>, since: Moment, opening: nat, course: seq<Moment>)
    requires file.Some? && file.value in since.dir.files && Flows(o.now, since)
    requires opening <= |o.future| && Placed(since, opening, course)
    requires due < file.value && due <= end ==> Gone(since.dir, due)
    requires o.pace == [] ==> since == o.now
    ensures OpenedSince(o, due, end, file, since, opening, course)
  {
  }

  /** The directory the reader shares with the writer. The writer takes it through the moments of
      `future`; `pace` says how many of them pass between one look of the reader and the next. */
  class Disk {
    var now: Moment
    var future: seq<Moment>
    var pace: seq<nat>
    const maxRec: nat
    ghost const h: seq<Payload>
    /** All the moments, those that have passed first. */
    ghost const course: seq<Moment>

    constructor (now: Moment, future: seq<Moment>, pace: seq<nat>, maxRec: nat, ghost h: seq<Payload>)
      requires Storable(h, maxRec) && Unfolds(now, future, h)
      ensures Valid() && this.now == now && this.future == future && this.maxRec == maxRec && this.h == h
      ensures course == [now] + future && this.pace == pace
    {
      this.now, this.future, this.pace, this.maxRec, this.h := now, future, pace, maxRec, h;
      course := [now] + future;
    }

    ghost predicate Valid()
      reads this
    {
      Storable(h, maxRec) && Unfolds(now, future, h) && OnCourse(now, future, course)
    }

    ghost function Look(): Outlook
      reads this
    {
      Outlook(now, future, pace)
    }

    /** The writer only goes forward, and with nothing left of `pace` it stands still. */
    twostate predicate Onward()
      reads this
    {
      && |future| <= old(|future|)
      && (old(pace) == [] ==> pace == [] && now == old(now) && future == old(future))
    }

    /** The writer takes so many of its steps. */
    method Pass(steps: nat)
      requires Valid()
      modifies this`now, this`future
      ensures Valid() && Flows(old(now), now) && |future| == Left(old(|future|), steps)
      ensures |future| < old(|future|) || (future == old(future) && now == old(now))
    {
      hide World, Flows, Storable;
      FlowsRefl(now);
      for i := 0 to steps
        invariant Valid() && Flows(old(now), now) && |future| == Left(old(|future|), i)
        invariant |future| < old(|future|) || (future == old(future) && now == old(now))
      {
        if future != [] {
          FlowsChain(old(now), now, future[0]);
          CourseGoesOn(now, future, course);
          now, future := future[0], future[1..];
        }
      }
    }

    /** The writer may have moved on, by any number of its steps. */
    method Advance()
      requires Valid()
      modifies this
      ensures Valid() && Flows(old(now), now) && Onward()
      ensures |future| < old(|future|) || (future == old(future) && now == old(now))
      ensures |future| == Left(old(|future|), Delay(old(pace), 0)) && pace == Later(old(pace), 1)
    {
      hide World, Flows, Storable, Unfolds, OnCourse;
      FlowsRefl(now);
      if pace != [] {
        Pass(pace[0]);
        pace := pace[1..];
      }
    }
  }

  datatype ReadError = CorruptLog

  class Reader {
    const disk: Disk
    var segmentNames: seq<nat>
    var index: nat
    var fromLSN: nat
    const endLSN: nat
    /** The open file and how far it has been read. */
    var file: Option<nat>
    var pos: nat
    var current: Record
    var done: bool
    var err: Option<ReadError>

    ghost const start: nat
    /** The LSN of the record at `pos`. */
    ghost var ahead: nat
    ghost var yielded: seq<Record>
    /** The moment at which the open file was opened, and how many were still to come. */
    ghost var since: Moment
    ghost var opening: nat

    /** A reader over the index as it is published now. */
    constructor (disk: Disk, fromLSN: nat, endLSN: nat)
      requires disk.Valid() && endLSN <= disk.now.w.lastLSN
      ensures Valid() && this.disk == disk && start == fromLSN && this.endLSN == endLSN && yielded == []
      ensures file == None && Steady()
      ensures this.fromLSN == fromLSN && done == (endLSN == 0 || fromLSN > endLSN)
    {
      hide World, Unfolds, OnCourse, Storable, Tracked, Reads, Chain, Gone, Truthful, GoneFirst;
      this.disk := disk;
      segmentNames := disk.now.w.bases;
      index := 0;
      this.fromLSN, this.endLSN := fromLSN, endLSN;
      file, pos, current, err := None, 0, Record(0, []), None;
      done := endLSN == 0 || fromLSN > endLSN;
      start, ahead, yielded, since, opening := fromLSN, 0, [], disk.now, 0;
      new;
      DiskWorld(disk.now, disk.future, disk.h);
      TrackedStart(disk.now, fromLSN, endLSN, disk.h);
      WholeRest(disk.now.w.bases);
    }

    lemma InBounds()
      requires Valid()
      ensures index <= |segmentNames| && (file.Some? ==> |disk.future| <= opening)
    {
    }

    lemma Stands()
      requires Valid()
      ensures index <= |segmentNames| && Tracked(disk.now, Position(), disk.h)
      ensures var t := Position();
        t.from == fromLSN && t.start == start && t.end == endLSN && t.yielded == yielded && t.done == done
    {
      hide Tracked;
    }

    /** The files still to be read, the open one first. */
    function Remaining(): seq<nat>
      reads this
      requires index <= |segmentNames|
    {
      (if file.Some? then [file.value] else []) + segmentNames[index..]
    }

    ghost function Position(): Track
      reads this
      requires index <= |segmentNames|
    {
      Track(Remaining(), fromLSN, start, endLSN, yielded, done)
    }

    ghost predicate Valid()
      reads this, disk
    {
      && disk.Valid() && index <= |segmentNames|
      && Tracked(disk.now, Position(), disk.h)
      && err == None && (done ==> file == None)
      && (file.Some? ==> Reads(disk.now.dir, Position(), ahead, pos, disk.h) && |disk.future| <= opening)
    }

    /** Between two calls of Next the reader has not read beyond what it yielded. */
    ghost predicate Steady()
      reads this
    {
      file.Some? ==> ahead <= fromLSN
    }

    /** The open file was opened meanwhile, when it was on disk. */
    twostate predicate Reopened()
      reads this, disk
    {
      OpenedSince(old(disk.Look()), old(fromLSN), endLSN, file, since, opening, disk.course)
    }

    method CloseCurrent()
      modifies this`file
      ensures file == None
    {
      file := None;
    }

    method Finish()
      modifies this`file, this`done
      ensures file == None && done
    {
      CloseCurrent();
      done := true;
    }

    /** The writer takes so many steps before the reader goes on. */
    method Wait(steps: nat)
      requires Valid()
      modifies disk`now, disk`future
      ensures Valid() && Flows(old(disk.now), disk.now) && |disk.future| == Left(old(|disk.future|), steps)
    {
      ghost var before := disk.now;
      hide World, Unfolds, OnCourse, Storable, Flows, Tracked, Reads;
      disk.Pass(steps);
      TrackedFlows(before, disk.now, Position(), disk.h);
      if file.Some? {
        ReadsFlows(before, disk.now, Position(), ahead, pos, disk.h);
      }
    }

    /** Time passes before the next look at the disk. */
    method Pause()
      requires Valid()
      modifies disk
      ensures Valid() && Flows(old(disk.now), disk.now) && disk.Onward()
      ensures |disk.future| < old(|disk.future|)
        || (disk.future == old(disk.future) && disk.now == old(disk.now) && Stale() == old(Stale()))
    {
      ghost var before := disk.now;
      hide World, Flows, Tracked, Reads, StaleIn;
      disk.Advance();
      TrackedFlows(before, disk.now, Position(), disk.h);
      if file.Some? {
        ReadsFlows(before, disk.now, Position(), ahead, pos, disk.h);
      }
    }

    /** 1 if some file still to be opened is no longer there. */
    ghost function Stale(): nat
      reads this, disk
      requires index <= |segmentNames|
    {
      StaleIn(disk.now.dir.files, segmentNames, index)
    }

    /** Takes over a new list of files to read. */
    method Adopt(remaining: seq<nat>)
      requires Valid() && !done && file == None
      requires Tracked(disk.now, Position().(names := remaining), disk.h)
      requires forall i | 0 <= i < |remaining| :: remaining[i] in disk.now.dir.files
      modifies this`segmentNames, this`index
      ensures Valid() && Stale() == 0
    {
      hide World, Tracked, Flows, Unfolds, Reads, Storable;
      WholeRest(remaining);
      segmentNames, index := remaining, 0;
    }

    /** The file `missing` is gone: go on with what is on disk now. */
    method RelistAfter(missing: nat)
      requires Valid() && !done && file == None && index < |segmentNames| && segmentNames[index] == missing
      requires missing !in disk.now.dir.files
      modifies this`segmentNames, this`index, disk
      ensures Valid() && Flows(old(disk.now), disk.now) && disk.Onward()
      ensures |disk.future| < old(|disk.future|)
        || (disk.future == old(disk.future) && disk.now == old(disk.now) && Stale() == 0)
    {
      hide World, Tracked, Flows, Unfolds, Reads, Storable, Known, StaleIn;
      ghost var before, t := disk.now, Position();
      assert t.names[0] == missing;
      KnownName(before, t, disk.h);
      Pause();
      StaysGone(before, disk.now, missing);
      var remaining := ListAbove(disk.now.dir.files.Keys, missing);
      hide Listing, BasesAbove;
      RelistHere(disk.now, disk.future, t, missing, remaining, disk.h);
      Adopt(remaining);
    }

    /** Starts reading the next file. */
    method OpenFile(name: nat)
      requires Valid() && !done && file == None && index < |segmentNames| && segmentNames[index] == name
      modifies this`index, this`file, this`pos, this`ahead, this`since, this`opening
      ensures Valid() && file == Some(name) && index == old(index) + 1 && since == disk.now
      ensures ahead == name && opening == |disk.future| && Placed(since, opening, disk.course)
      ensures fromLSN < name && fromLSN <= endLSN ==> Gone(since.dir, fromLSN)
      ensures Stale() <= old(Stale())
    {
      hide World, Tracked, Unfolds, Storable, Known, OnCourse, Gone, Reads;
      ghost var t := Position();
      NamesHeadTail(segmentNames, index);
      OpensAt(disk.now, disk.future, t, disk.h);
      NowAt(disk.now, disk.future, disk.course);
      OpensBeyond(disk.now, t, disk.h);
      index := index + 1;
      file, pos, ahead, since, opening := Some(name), 0, name, disk.now, |disk.future|;
      assert Position() == t;
    }

    /** Opens the next file that is still there, re-listing the directory when one is not. */
    method OpenNext() returns (more: bool)
      requires Valid() && !done && file == None
      modifies this`segmentNames, this`index, this`file, this`pos, this`ahead, this`done, this`since, this`opening, disk
      ensures Valid() && (if more then file.Some? && !done else done)
      ensures Flows(old(disk.now), disk.now) && disk.Onward()
      ensures more ==> file.value in since.dir.files && since == disk.now && ahead == file.value
      ensures more ==> opening == |disk.future| && Placed(since, opening, disk.course)
      ensures more ==> (fromLSN < file.value && fromLSN <= endLSN ==> Gone(since.dir, fromLSN))
      ensures more ==> Less(|disk.future|, Stale(), |segmentNames| - index, old(|disk.future|), old(Stale()),
                            old(|segmentNames| - index))
    {
      hide World, Tracked, Unfolds, OnCourse, Storable, Known, StaleIn, Reads, Flows, Gone;
      FlowsRefl(disk.now);
      while index < |segmentNames|
        invariant Valid() && !done && file == None && Flows(old(disk.now), disk.now) && disk.Onward()
        invariant NoMore(|disk.future|, Stale(), |segmentNames| - index, old(|disk.future|), old(Stale()),
                         old(|segmentNames| - index))
        decreases |disk.future|, Stale(), |segmentNames| - index
      {
        ghost var before := disk.now;
        Pause();
        FlowsChain(old(disk.now), before, disk.now);
        var name := segmentNames[index];
        if name !in disk.now.dir.files {
          StaleName(disk.now.dir.files, segmentNames, index);
          before := disk.now;
          RelistAfter(name);
          FlowsChain(old(disk.now), before, disk.now);
        } else {
          OpenFile(name);
          return true;
        }
      }
      EndTracking(disk.now, Position(), disk.h);
      Finish();
      return false;
    }

    /** Bytes of the open file still to be read, and one. */
    ghost function Unread(): nat
      reads this, disk
    {
      UnreadIn(disk.now.dir, file, pos)
    }

    /** Lets the scanner look at what follows in the open file. */
    method Scan() returns (d: Decoded)
      requires Valid() && !done && file.Some?
      modifies disk
      ensures Valid() && Flows(old(disk.now), disk.now) && disk.Onward()
      ensures ScansAs(disk.now.dir, Position(), ahead, d, disk.h)
      ensures Calm(|disk.future|, Stale(), Unread(), old(|disk.future|), old(Stale()), old(Unread()))
    {
      hide World, Tracked, Unfolds, Storable, StaleIn, Flows, UnreadIn;
      label before:
      Pause();
      ghost var t := Position();
      OpenIsKnown(disk.now.dir, t, ahead, pos, disk.h);
      ScanIs(disk.now, disk.future, t, ahead, pos, disk.h, disk.maxRec);
      hide Known, Body, Reads, ScansAs;
      d := Decode(Body(disk.now.dir, file.value)[pos..], disk.maxRec);
    }

    /** Moves past a scanned record and decides whether it falls within the window. A record above
        the window ends the cursor; the lower bound advances past every accepted record. */
    method Accept(scanned: Record) returns (ok: bool)
      requires Valid() && !done && file.Some? && ScansAs(disk.now.dir, Position(), ahead, Rec(scanned), disk.h)
      modifies this`pos, this`ahead, this`fromLSN, this`yielded, this`file, this`done
      ensures Valid()
      ensures if ok
              then yielded == old(yielded) + [scanned] && scanned.lsn >= old(fromLSN) && fromLSN == scanned.lsn + 1
              else yielded == old(yielded) && fromLSN == old(fromLSN)
      ensures file == None || file == old(file)
      ensures ok ==> file == old(file) && Supplies(disk.now.dir, file, scanned.lsn, disk.h)
      ensures ok ==> scanned.lsn == old(ahead) && ahead == fromLSN
      ensures !ok && file.Some? ==> ahead <= fromLSN
      ensures !done ==> file == old(file) && Unread() < old(Unread())
    {
      hide World, Tracked, Unfolds, OnCourse, Storable, StaleIn, Flows, Known, Body, UnreadIn, Reads, ScansAs, Supplies;
      ghost var t, q := Position(), ahead;
      ScannedSupplies(disk.now.dir, t, q, scanned, disk.h);
      assert Some(t.names[0]) == file;
      PastRecord(disk.now.dir, t, q, pos, scanned, disk.h);
      hide At;
      if scanned.lsn < fromLSN {
        pos, ahead := pos + HEADER_SIZE + |scanned.payload|, q + 1;
        return false;
      } else if scanned.lsn > endLSN {
        EndBeyond(disk.now, t, q, disk.h);
        DoneTail(disk.now, t.(done := true), disk.h);
        WithoutOpen(file.value, segmentNames[index..]);
        Finish();
        return false;
      } else {
        ghost var u := YieldRecord(disk.now, t, q, disk.h);
        pos, ahead := pos + HEADER_SIZE + |scanned.payload|, q + 1;
        fromLSN, yielded := scanned.lsn + 1, yielded + [scanned];
        return true;
      }
    }

    /** Leaves a file that has nothing more to read. */
    method LeaveCurrent(ghost r: Decoded)
      requires Valid() && !done && file.Some? && !r.Rec? && ScansAs(disk.now.dir, Position(), ahead, r, disk.h)
      modifies this`file
      ensures Valid() && file == None && Unread() < old(Unread())
    {
      hide World, Unfolds, Tracked, Storable, Known, Body, Reads;
      ghost var t, q := Position(), ahead;
      OpenIsKnown(disk.now.dir, t, q, pos, disk.h);
      ReadsAt(disk.now.dir, t, q, pos, disk.h);
      LeaveFile(disk.now, t, q, disk.h);
      WithoutOpen(file.value, segmentNames[index..]);
      CloseCurrent();
    }

    /** Scans the open file once: takes the record there, passes it over, or leaves the file. */
    method Take() returns (ok: bool)
      requires Valid() && !done && file.Some?
      modifies this`fromLSN, this`file, this`pos, this`current, this`done, this`err, this`ahead, this`yielded, disk
      ensures Valid() && Flows(old(disk.now), disk.now) && disk.Onward()
      ensures file == None || file == old(file)
      ensures ok ==> file == old(file) && Supplies(disk.now.dir, file, current.lsn, disk.h)
      ensures ok ==> current.lsn == old(ahead) && ahead == fromLSN
      ensures !ok && file.Some? ==> ahead <= fromLSN
      ensures if ok
              then yielded == old(yielded) + [current] && fromLSN == current.lsn + 1 && old(fromLSN) <= current.lsn
              else yielded == old(yielded) && fromLSN == old(fromLSN)
      ensures !ok ==> Calm(|disk.future|, Stale(), 0, old(|disk.future|), old(Stale()), 0)
      ensures !ok && !done && |disk.future| == old(|disk.future|) ==> Unread() < old(Unread())
    {
      hide World, Unfolds, OnCourse, Tracked, Storable, Known, Body, Reads, ScansAs, StaleIn, UnreadIn, Flows, Supplies;
      var r := Scan();
      match r
      case Rec(scanned) =>
        ok := Accept(scanned);
        if ok {
          current := scanned;
        }
      case Bad(e) =>
        ghost var t := Position();
        if e != Torn {
          err := Some(CorruptLog);
          Finish();
          OnlyTorn(disk.now.dir, t, ahead, e, disk.h);
          assert false;
        }
        LeaveCurrent(r);
        ok := false;
      case Eof =>
        LeaveCurrent(r);
        ok := false;
    }

    /** Advances to the next entry: the record with the smallest LSN of the window not yet passed. False
        at the end; nothing the writer does in between makes it fail, skip, repeat or misread. The entry
        comes from the file that was open already, and is then the very next one, or from a file that was
        still on disk. If it is then not the very next one, it is the first of the file, and the very next
        one was gone when the file was opened. */
    method Next() returns (more: bool)
      requires Valid() && Steady()
      modifies this`segmentNames, this`index, this`fromLSN, this`file, this`pos, this`current, this`done
      modifies this`err, this`ahead, this`yielded, this`since, this`opening, disk
      ensures Valid() && Flows(old(disk.now), disk.now) && disk.Onward()
      ensures more ==> Supplies(disk.now.dir, file, current.lsn, disk.h)
      ensures more ==> Steady() && file.Some?
      ensures more ==>
        || (file == old(file) && since == old(since) && opening == old(opening) && current.lsn == old(fromLSN))
        || (Reopened() && (current.lsn == old(fromLSN) || current.lsn == file.value))
      ensures if more
              then yielded == old(yielded) + [current] && fromLSN == current.lsn + 1 && old(fromLSN) <= current.lsn
              else done && yielded == old(yielded) && fromLSN == old(fromLSN)
    {
      hide World, Unfolds, OnCourse, Tracked, Storable, Known, Body, Reads, StaleIn, UnreadIn, Flows, Supplies, ScansAs;
      hide Valid, Disk.Valid, Gone, Placed, OpenedSince, Position, Remaining, Less, Calm;
      FlowsRefl(disk.now);
      InBounds();
      while !done
        invariant index <= |segmentNames|
        invariant Flows(old(disk.now), disk.now) && disk.Onward()
        invariant || file == None || (Reopened() && (ahead <= fromLSN || ahead == file.value))
                  || (file == old(file) && since == old(since) && opening == old(opening) && ahead <= fromLSN)
        invariant Valid() && yielded == old(yielded) && fromLSN == old(fromLSN)
        decreases |disk.future|, Stale(), |segmentNames| - index, if done then 0 else 1, Unread()
      {
        ghost var before, a, b, c := disk.now, |disk.future|, Stale(), |segmentNames| - index;
        if file == None {
          var found := OpenNext();
          FlowsChain(old(disk.now), before, disk.now);
          if !found {
            return false;
          }
          InBounds();
          LessIs(|disk.future|, Stale(), |segmentNames| - index, a, b, c);
          OpenedNow(old(disk.Look()), fromLSN, endLSN, file, since, opening, disk.course);
          before := disk.now;
        }
        a, b := |disk.future|, Stale();
        var ok := Take();
        FlowsChain(old(disk.now), before, disk.now);
        if ok {
          return true;
        }
        CalmIs(|disk.future|, Stale(), 0, a, b, 0);
        InBounds();
      }
      return false;
    }
  }

  /** The file is known and holds the record, unlinked or not. */
  ghost predicate Supplies(d: Dir, file: Option<nat>, n: nat, h: seq<Payload>) {
    file.Some? && file.value <= n && Reaches(d, file.value, n, h)
  }

  lemma ScannedSupplies(d: Dir, t: Track, q: nat, r: Record, h: seq<Payload>)
    requires ScansAs(d, t, q, Rec(r), h)
    ensures r.lsn == q && Supplies(d, Some(t.names[0]), q, h)
  {
    hide Span, Frame, Body, Known;
  }

  lemma SuppliesFlows(m: Moment, k: Moment, file: Option<nat>, n: nat, h: seq<Payload>)
    requires Supplies(m.dir, file, n, h) && Flows(m, k)
    ensures Supplies(k.dir, file, n, h)
  {
    hide Span;
    assert Body(m.dir, file.value) <= Body(k.dir, file.value);
  }

  /** What is on disk later was on disk, or above what was. */
  lemma OnceThere(m: Moment, k: Moment, b: nat)
    requires Flows(m, k) && b in k.dir.files
    ensures !Gone(m.dir, b)
  {
    if Gone(m.dir, b) {
      GoneEvolves(m.dir, k.dir, b);
    }
  }

  lemma OnceHere(m: Moment, k: Moment, b: nat)
    requires Flows(m, k) && !Gone(k.dir, b)
    ensures !Gone(m.dir, b)
  {
    hide Gone;
    if Gone(m.dir, b) {
      GoneEvolves(m.dir, k.dir, b);
    }
  }

  lemma OnlyTorn(d: Dir, t: Track, q: nat, e: ScanError, h: seq<Payload>)
    requires ScansAs(d, t, q, Bad(e), h)
    ensures e == Torn
  {
  }

  lemma ReadsAt(d: Dir, t: Track, q: nat, pos: nat, h: seq<Payload>)
    requires Reads(d, t, q, pos, h)
    ensures At(t, q)
  {
  }

  lemma DoneTail(m: Moment, t: Track, h: seq<Payload>)
    requires Tracked(m, t, h) && t.done && t.names != []
    ensures Tracked(m, t.(names := t.names[1..]), h)
  {
    ChainTail(m.dir, t.names, t.end, h);
    hide Chain, Gone, Yielded;
    var u := t.(names := t.names[1..]);
    assert forall i | 0 <= i < |t.yielded| :: SoundAt(t, i, h) ==> SoundAt(u, i, h);
  }

  /** Past a scanned record the reader stands at the next one. */
  lemma PastRecord(d: Dir, t: Track, q: nat, pos: nat, r: Record, h: seq<Payload>)
    requires Reads(d, t, q, pos, h) && ScansAs(d, t, q, Rec(r), h)
    ensures q < Next(h) && r == Record(q, h[q - 1]) && 1 <= q && At(t, q) && t.names[0] in Known(d)
    ensures q < t.from ==> Reads(d, t, q + 1, pos + HEADER_SIZE + |r.payload|, h)
    ensures forall u: Track | u.names == t.names && u.from == q + 1 ::
      Reads(d, u, q + 1, pos + HEADER_SIZE + |r.payload|, h)
    ensures UnreadIn(d, Some(t.names[0]), pos + HEADER_SIZE + |r.payload|) < UnreadIn(d, Some(t.names[0]), pos)
  {
    hide Span, Frame;
    SpanSnoc(h, t.names[0], q);
  }

  ghost predicate Calm(a: int, b: int, c: int, x: int, y: int, z: int) {
    a < x || (a == x && b == y && c == z)
  }

  ghost function UnreadIn(d: Dir, file: Option<nat>, pos: nat): nat {
    if file.Some? && file.value in Known(d) && pos <= |Body(d, file.value)| then |Body(d, file.value)| - pos + 1 else 0
  }

  /** What the scanner finds at record `q`: that record if it is there in full, a clean end or a torn
      one if not, and nothing else ever. */
  ghost predicate ScansAs(d: Dir, t: Track, q: nat, r: Decoded, h: seq<Payload>) {
    && t.names != [] && t.names[0] in Known(d) && Interval(h, t.names[0], q)
    && if q < Next(h) && |Span(h, t.names[0], q + 1)| <= |Body(d, t.names[0])|
       then r == Rec(Record(q, h[q - 1]))
       else r == Eof || r == Bad(Torn)
  }

  lemma OpenIsKnown(d: Dir, t: Track, q: nat, pos: nat, h: seq<Payload>)
    requires Reads(d, t, q, pos, h)
    ensures t.names != [] && t.names[0] in Known(d) && pos <= |Body(d, t.names[0])|
  {
  }

  lemma ScanIs(m: Moment, future: seq<Moment>, t: Track, q: nat, pos: nat, h: seq<Payload>, maxRec: nat)
    requires Unfolds(m, future, h) && Storable(h, maxRec) && Reads(m.dir, t, q, pos, h)
    ensures ScansAs(m.dir, t, q, Decode(Body(m.dir, t.names[0])[pos..], maxRec), h)
  {
    hide Chain, Storable, Decode, Span;
    assert TruthfulAt(m.dir, t.names[0], h);
    DecodeAhead(m.dir, t.names[0], q, h, maxRec);
  }

  function StaleIn(files: Files, names: seq<nat>, index: nat): nat
    requires index <= |names|
  {
    if forall i | index <= i < |names| :: names[i] in files then 0 else 1
  }

  lemma StaleName(files: Files, names: seq<nat>, index: nat)
    requires index < |names| && names[index] !in files
    ensures StaleIn(files, names, index) == 1
  {
  }

  /** Lexicographic order. */
  predicate Less(a: int, b: int, c: int, x: int, y: int, z: int) {
    a < x || (a == x && (b < y || (b == y && c < z)))
  }

  predicate NoMore(a: int, b: int, c: int, x: int, y: int, z: int) {
    Less(a, b, c, x, y, z) || (a == x && b == y && c == z)
  }

  lemma LessIs(a: int, b: int, c: int, x: int, y: int, z: int)
    requires Less(a, b, c, x, y, z)
    ensures a < x || (a == x && (b < y || (b == y && c < z)))
  {
  }

  lemma CalmIs(a: int, b: int, c: int, x: int, y: int, z: int)
    requires Calm(a, b, c, x, y, z)
    ensures a < x || (a == x && b == y && c == z)
  {
  }

  lemma WithoutOpen(b: nat, rest: seq<nat>)
    ensures ([b] + rest)[1..] == [] + rest
  {
  }

  lemma NamesHeadTail(names: seq<nat>, index: nat)
    requires index < |names|
    ensures [] + names[index..] == [names[index]] + names[index + 1..]
  {
  }

  /** At the start of a file nothing is read yet. */
  lemma OpensAt(m: Moment, future: seq<Moment>, t: Track, h: seq<Payload>)
    requires Unfolds(m, future, h) && Tracked(m, t, h) && t.names != []
    ensures Reads(m.dir, t, t.names[0], 0, h)
  {
    hide Chain, Complete, Sound, Flows, Known, Span;
    KnownName(m, t, h);
    assert TruthfulAt(m.dir, t.names[0], h);
    EmptySpan(h, t.names[0]);
  }

  /** A file based above the LSN due: that record is gone. */
  lemma OpensBeyond(m: Moment, t: Track, h: seq<Payload>)
    requires Tracked(m, t, h) && !t.done && t.names != []
    ensures t.from < t.names[0] && t.from <= t.end ==> Gone(m.dir, t.from)
  {
    hide Chain, Gone;
    forall i | 0 <= i < |t.yielded|
      ensures t.yielded[i].lsn != t.from
    {
      assert SoundAt(t, i, h);
    }
    assert !Yielded(t.yielded, t.from);
  }

  lemma ReadsFlows(m: Moment, k: Moment, t: Track, q: nat, pos: nat, h: seq<Payload>)
    requires Reads(m.dir, t, q, pos, h) && Flows(m, k)
    ensures Reads(k.dir, t, q, pos, h)
  {
    hide Span;
    assert Body(m.dir, t.names[0]) <= Body(k.dir, t.names[0]);
  }

  lemma WholeRest(s: seq<nat>)
    ensures [] + s[0..] == s
  {
  }

  lemma StaysGone(m: Moment, k: Moment, b: nat)
    requires Flows(m, k) && b in Known(m.dir) && b !in m.dir.files
    ensures b !in k.dir.files
  {
  }

  lemma RelistHere(m: Moment, future: seq<Moment>, t: Track, missing: nat, bs: seq<nat>, h: seq<Payload>)
    requires Unfolds(m, future, h) && Tracked(m, t, h) && t.names != [] && t.names[0] == missing
    requires missing !in m.dir.files && Listing(bs, BasesAbove(m.dir.files.Keys, missing))
    ensures forall i | 0 <= i < |bs| :: bs[i] in m.dir.files
    ensures Tracked(m, t.(names := bs), h)
  {
    KnownName(m, t, h);
    assert forall i | 0 <= i < |bs| :: bs[i] in bs;
    AllAbove(m, missing, h);
    hide World, Tracked;
    Relist(m, t, missing, bs, h);
  }

  /** Files vanish from the low end, so what is left lies above the one that vanished. */
  lemma AllAbove(m: Moment, missing: nat, h: seq<Payload>)
    requires World(m, h) && missing in Known(m.dir) && missing !in m.dir.files
    ensures BasesAbove(m.dir.files.Keys, missing) == m.dir.files.Keys
  {
    hide Chain, Truthful;
  }

  lemma KnownName(m: Moment, t: Track, h: seq<Payload>)
    requires Tracked(m, t, h) && t.names != []
    ensures t.names[0] in Known(m.dir)
  {
    assert LinkAt(m.dir, t.names, 0, t.end, h);
  }

  /** The open file is read up to the record `q`, at offset `pos`. */
  ghost predicate Reads(d: Dir, t: Track, q: nat, pos: nat, h: seq<Payload>) {
    && At(t, q) && t.names[0] in Known(d) && Interval(h, t.names[0], q)
    && pos == |Span(h, t.names[0], q)| <= |Body(d, t.names[0])|
  }

  /** The entries are what was written, in order, each LSN once, within the window. */
  predicate Entries(es: seq<Record>, from: nat, end: nat, h: seq<Payload>) {
    && (forall i, j | 0 <= i < j < |es| :: es[i].lsn < es[j].lsn)
    && forall i | 0 <= i < |es| :: EntryAt(es[i], from, end, h)
  }

  predicate EntryAt(e: Record, from: nat, end: nat, h: seq<Payload>) {
    1 <= e.lsn <= |h| && from <= e.lsn <= end && e.payload == h[e.lsn - 1]
  }

  lemma SoundEntries(t: Track, h: seq<Payload>)
    requires Sound(t, h)
    ensures Entries(t.yielded, t.start, t.end, h)
  {
    forall i | 0 <= i < |t.yielded|
      ensures EntryAt(t.yielded[i], t.start, t.end, h)
    {
      assert SoundAt(t, i, h);
    }
  }

  /** Every record of the window that is on disk is among the entries. */
  ghost predicate Covers(es: seq<Record>, d: Dir, from: nat, end: nat, h: seq<Payload>) {
    forall n: nat | from <= n <= end && OnDisk(d, n, h) :: 1 <= n <= |h| && Record(n, h[n - 1]) in es
  }

  lemma TrackedCovers(m: Moment, t: Track, h: seq<Payload>)
    requires Tracked(m, t, h) && t.done
    ensures Covers(t.yielded, m.dir, t.start, t.end, h)
  {
    forall n: nat | t.start <= n <= t.end && OnDisk(m.dir, n, h)
      ensures 1 <= n <= |h| && Record(n, h[n - 1]) in t.yielded
    {
      hide Tracked, OnDisk;
      FinishedComplete(m, t, n, h);
    }
  }

  /** Reads the log from `fromLSN` to the last LSN committed when it starts. Whatever the writer does
      meanwhile, the entries ascend without repeats, are what was written, include every record of the
      window that is on disk at the end, and none that was gone at the start; and the reading ends. */
  method Replay(disk: Disk, fromLSN: nat) returns (entries: seq<Record>, endLSN: nat)
    requires disk.Valid()
    modifies disk
    ensures disk.Valid() && endLSN == old(disk.now.w.lastLSN)
    ensures Entries(entries, fromLSN, endLSN, disk.h)
    ensures Covers(entries, disk.now.dir, fromLSN, endLSN, disk.h)
    ensures NoneGone(entries, old(disk.now).dir)
  {
    hide World, Unfolds, OnCourse, Tracked, Storable, StaleIn, Flows, Reads, Gone, Supplies, NoneGone;
    DiskWorld(disk.now, disk.future, disk.h);
    FlowsRefl(disk.now);
    ghost var start, before := disk.now, disk.now;
    NoEntries(start.dir);
    endLSN := disk.now.w.lastLSN;
    var reader := new Reader(disk, fromLSN, endLSN);
    entries := [];
    var more := reader.Next();
    if more {
      OnceThere(start, reader.since, reader.file.value);
    }
    while more
      invariant fresh(reader) && reader.disk == disk && reader.Valid() && Flows(start, disk.now)
      invariant NoneGone(entries, start.dir)
      invariant more ==> Supplies(disk.now.dir, reader.file, reader.current.lsn, disk.h)
      invariant more ==> reader.Steady() && reader.file.Some? && !Gone(start.dir, reader.file.value)
      invariant reader.start == fromLSN && reader.endLSN == endLSN
      invariant reader.yielded == if more then entries + [reader.current] else entries
      invariant if more then reader.fromLSN == reader.current.lsn + 1 else reader.done
      decreases if more then endLSN + 2 - reader.fromLSN else 0
    {
      EntryIsSound(disk.now, reader.Position(), disk.h);
      SuppliedThere(start.dir, disk.now.dir, entries, reader.file, reader.current, disk.h);
      entries := entries + [reader.current];
      before := disk.now;
      label before:
      more := reader.Next();
      FlowsChain(start, before, disk.now);
      if more {
        EntryIsSound(disk.now, reader.Position(), disk.h);
        if reader.Reopened@before() {
          OnceThere(before, reader.since, reader.file.value);
          OnceHere(start, before, reader.file.value);
        }
      }
    }
    TrackedSound(disk.now, reader.Position(), disk.h);
    SoundEntries(reader.Position(), disk.h);
    TrackedCovers(disk.now, reader.Position(), disk.h);
  }

  /** Each entry lay at or above the start of the log. */
  ghost predicate NoneGone(es: seq<Record>, d: Dir) {
    forall i | 0 <= i < |es| :: !Gone(d, es[i].lsn)
  }

  lemma NoEntries(d: Dir)
    ensures NoneGone([], d)
  {
  }

  lemma SuppliedThere(start: Dir, d: Dir, es: seq<Record>, file: Option<nat>, e: Record, h: seq<Payload>)
    requires Supplies(d, file, e.lsn, h) && !Gone(start, file.value) && NoneGone(es, start)
    ensures NoneGone(es + [e], start)
  {
    hide Reaches;
  }

  lemma DiskWorld(m: Moment, future: seq<Moment>, h: seq<Payload>)
    requires Unfolds(m, future, h)
    ensures World(m, h)
  {
  }

  lemma TrackedSound(m: Moment, t: Track, h: seq<Payload>)
    requires Tracked(m, t, h)
    ensures Sound(t, h)
  {
  }
}
