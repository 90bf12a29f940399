/** Appenders, Close, followers that wait, and the writer goroutine: every interleaving of their steps. */
module Protocol {
  import opened Seqs

  /** An AppendBatch call. `Sending` holds the read lock and has seen the log open. */
  datatype Caller = Idle | Sending | Waiting | Refused | GaveUp

  /** Close takes the write lock, marks the log closed, releases the lock, then signals. */
  datatype Closer = NotClosed | Locked | Marked | Released | Signalled

  /** The writer goroutine. `drain` tells whether it came from the loop or is draining; `k` counts the
      waiters already woken. */
  datatype WriterPhase =
    | Looping
    | Draining
    | Gathering(batch: seq<nat>, drain: bool)
    | Waking(batch: seq<nat>, drain: bool, k: nat)
    | Delivering(batch: seq<nat>, drain: bool)
    | Leaving(k: nat)
    | Exited

  /** A parked follower: its channel and the highest LSN it has consumed. */
  datatype Waiter = Waiter(channel: nat, from: nat)

  datatype Shared = Shared(
    callers: map<nat, Caller>, closer: Closer, writer: WriterPhase,
    queue: seq<nat>, accepted: seq<nat>, answered: seq<nat>,
    lastLSN: nat, parked: seq<Waiter>, subscribed: seq<nat>, notified: seq<nat>)

  datatype Limits = Limits(batchSize: nat, capacity: nat)

  predicate IsClosed(s: Shared) {
    s.closer.Marked? || s.closer.Released? || s.closer.Signalled?
  }

  // Steps of a caller.

  /** Takes the read lock, looks whether the log is closed. */
  predicate Begins(s: Shared, t: Shared, c: nat) {
    && c in s.callers && s.callers[c] == Idle && !s.closer.Locked? && !s.closer.Marked?
    && t == s.(callers := s.callers[c := if IsClosed(s) then Refused else Sending])
  }

  predicate Sends(s: Shared, t: Shared, c: nat, limits: Limits) {
    && c in s.callers && s.callers[c] == Sending && |s.queue| < limits.capacity
    && t == s.(callers := s.callers[c := Waiting], queue := s.queue + [c], accepted := s.accepted + [c])
  }

  predicate GivesUp(s: Shared, t: Shared, c: nat) {
    c in s.callers && s.callers[c] == Sending && t == s.(callers := s.callers[c := GaveUp])
  }

  // Steps of Close.

  predicate Locks(s: Shared, t: Shared) {
    s.closer == NotClosed && (forall c | c in s.callers :: s.callers[c] != Sending) && t == s.(closer := Locked)
  }

  predicate Closes(s: Shared, t: Shared) {
    || (s.closer == Locked && t == s.(closer := Marked))
    || (s.closer == Marked && t == s.(closer := Released))
    || (s.closer == Released && t == s.(closer := Signalled))
  }

  // Steps of the writer.

  predicate Takes(s: Shared, t: Shared) {
    && (s.writer.Looping? || s.writer.Draining?) && s.queue != []
    && t == s.(writer := Gathering([s.queue[0]], s.writer.Draining?), queue := s.queue[1..])
  }

  predicate Gathers(s: Shared, t: Shared, limits: Limits) {
    && s.writer.Gathering? && s.queue != [] && |s.writer.batch| < limits.batchSize
    && t == s.(writer := Gathering(s.writer.batch + [s.queue[0]], s.writer.drain), queue := s.queue[1..])
  }

  /** The commit wrote something: it publishes the new last LSN and goes on to wake the waiters. */
  predicate Publishes(s: Shared, t: Shared, lastLSN: nat) {
    && s.writer.Gathering? && lastLSN >= s.lastLSN
    && t == s.(writer := Waking(s.writer.batch, s.writer.drain, 0), lastLSN := lastLSN)
  }

  /** The commit wrote nothing. */
  predicate Passes(s: Shared, t: Shared) {
    s.writer.Gathering? && t == s.(writer := Delivering(s.writer.batch, s.writer.drain))
  }

  predicate Wakes(s: Shared, t: Shared) {
    && s.writer.Waking? && s.writer.k < |s.parked|
    && t == s.(writer := Waking(s.writer.batch, s.writer.drain, s.writer.k + 1),
            notified := s.notified + [s.parked[s.writer.k].channel])
  }

  predicate HasWoken(s: Shared, t: Shared) {
    && s.writer.Waking? && s.writer.k >= |s.parked|
    && t == s.(writer := Delivering(s.writer.batch, s.writer.drain), parked := [])
  }

  predicate Delivers(s: Shared, t: Shared) {
    && s.writer.Delivering? && s.writer.batch != []
    && t == s.(writer := Delivering(s.writer.batch[1..], s.writer.drain), answered := s.answered + [s.writer.batch[0]])
  }

  predicate Returns(s: Shared, t: Shared) {
    && s.writer.Delivering? && s.writer.batch == []
    && t == s.(writer := if s.writer.drain then Draining else Looping)
  }

  /** A follower that is behind is signalled at once, any other is parked. */
  function Subscribed(s: Shared, channel: nat, from: nat): Shared {
    if s.lastLSN > from
    then s.(subscribed := s.subscribed + [channel], notified := s.notified + [channel])
    else s.(subscribed := s.subscribed + [channel], parked := s.parked + [Waiter(channel, from)])
  }

  predicate Subscribes(s: Shared, t: Shared, channel: nat, from: nat) {
    s.writer.Looping? && channel !in s.subscribed && t == Subscribed(s, channel, from)
  }

  predicate SeesClose(s: Shared, t: Shared) {
    s.writer.Looping? && s.closer == Signalled && t == s.(writer := Draining)
  }

  predicate DrainsOut(s: Shared, t: Shared) {
    s.writer.Draining? && s.queue == [] && t == s.(writer := Leaving(0))
  }

  predicate WakesLast(s: Shared, t: Shared) {
    && s.writer.Leaving? && s.writer.k < |s.parked|
    && t == s.(writer := Leaving(s.writer.k + 1), notified := s.notified + [s.parked[s.writer.k].channel])
  }

  predicate Exits(s: Shared, t: Shared) {
    s.writer.Leaving? && s.writer.k >= |s.parked| && t == s.(writer := Exited, parked := [])
  }

  ghost predicate WriterMoves(s: Shared, t: Shared, limits: Limits) {
    || Takes(s, t) || Gathers(s, t, limits) || (exists last :: Publishes(s, t, last)) || Passes(s, t)
    || Wakes(s, t) || HasWoken(s, t) || Delivers(s, t) || Returns(s, t)
    || (exists channel, from :: Subscribes(s, t, channel, from))
    || SeesClose(s, t) || DrainsOut(s, t) || WakesLast(s, t) || Exits(s, t)
  }

  ghost predicate CallerMoves(s: Shared, t: Shared, limits: Limits) {
    exists c :: Begins(s, t, c) || Sends(s, t, c, limits) || GivesUp(s, t, c)
  }

  ghost predicate Acts(s: Shared, t: Shared, limits: Limits) {
    CallerMoves(s, t, limits) || Locks(s, t) || Closes(s, t) || WriterMoves(s, t, limits)
  }

  predicate AtStart(s: Shared) {
    && (forall c | c in s.callers :: s.callers[c] == Idle)
    && s.closer == NotClosed && s.writer == Looping && s.queue == [] && s.accepted == [] && s.answered == []
    && s.parked == [] && s.subscribed == [] && s.notified == []
  }

  ghost predicate ActsAt(ss: seq<Shared>, i: nat, limits: Limits) {
    i < |ss| - 1 && Acts(ss[i], ss[i + 1], limits)
  }

  /** An interleaving, from the moment Open returns. */
  ghost predicate Interleaving(ss: seq<Shared>, limits: Limits) {
    ss != [] && AtStart(ss[0]) && forall i: nat | i < |ss| - 1 :: ActsAt(ss, i, limits)
  }

  // What holds throughout.

  /** The requests the writer has taken but not answered yet. */
  function InHand(s: Shared): seq<nat> {
    if s.writer.Gathering? || s.writer.Waking? || s.writer.Delivering? then s.writer.batch else []
  }

  predicate NoneTwice(xs: seq<nat>) {
    forall i, j | 0 <= i < j < |xs| :: xs[i] != xs[j]
  }

  /** Requests go through queue and writer in order; exactly the callers that sent one wait for one. */
  ghost predicate Requests(s: Shared) {
    && s.accepted == s.answered + InHand(s) + s.queue
    && NoneTwice(s.accepted)
    && forall c :: c in s.accepted <==> c in s.callers && s.callers[c] == Waiting
  }

  predicate IsDraining(s: Shared) {
    match s.writer
    case Looping => false
    case Gathering(_, drain) => drain
    case Waking(_, drain, _) => drain
    case Delivering(_, drain) => drain
    case _ => true
  }

  /** Once Close holds its lock no caller is sending; the writer drains only after the signal; when it
      leaves, the queue is empty. */
  predicate Shutdown(s: Shared) {
    && (!s.closer.NotClosed? ==> forall c | c in s.callers :: s.callers[c] != Sending)
    && (IsDraining(s) ==> s.closer == Signalled)
    && (s.writer.Leaving? || s.writer.Exited? ==> s.queue == [])
  }

  /** How many of the parked waiters have been woken. */
  function WokenSoFar(s: Shared): nat {
    if s.writer.Waking? || s.writer.Leaving? then s.writer.k else 0
  }

  function Channels(ws: seq<Waiter>): (cs: seq<nat>)
    ensures |cs| == |ws|
  {
    seq(|ws|, i requires 0 <= i < |ws| => ws[i].channel)
  }

  /** Each subscription is notified or still parked; only a commit that is just waking the waiters, or
      the last wake-up, finds a waiter behind. */
  predicate Wakeups(s: Shared) {
    && WokenSoFar(s) <= |s.parked|
    && NoneTwice(s.subscribed) && NoneTwice(s.notified)
    && multiset(s.subscribed) == multiset(s.notified) + multiset(Channels(s.parked[WokenSoFar(s)..]))
    && (!s.writer.Waking? ==> forall i | 0 <= i < |s.parked| :: s.parked[i].from >= s.lastLSN)
    && (s.writer.Exited? ==> s.parked == [])
  }

  ghost predicate Invariant(s: Shared) {
    Requests(s) && Shutdown(s) && Wakeups(s)
  }

  lemma InitialInvariant(s: Shared)
    requires AtStart(s)
    ensures Invariant(s)
  {
    assert s.parked[WokenSoFar(s)..] == [];
  }

  lemma NoneTwiceSnoc(xs: seq<nat>, x: nat)
    requires NoneTwice(xs) && x !in xs
    ensures NoneTwice(xs + [x])
  {
  }

  // Callers and Close touch neither the writer nor the waiters.

  lemma BeginsKeeps(s: Shared, t: Shared, c: nat)
    requires Invariant(s) && Begins(s, t, c)
    ensures Invariant(t)
  {
    hide NoneTwice, Channels;
    assert InHand(t) == InHand(s);
  }

  lemma SendsKeeps(s: Shared, t: Shared, c: nat, limits: Limits)
    requires Invariant(s) && Sends(s, t, c, limits)
    ensures Invariant(t)
  {
    assert c !in s.accepted;
    NoneTwiceSnoc(s.accepted, c);
    hide NoneTwice, Channels;
    assert InHand(t) == InHand(s);
    ConcatAssociates(s.answered + InHand(s), s.queue, [c]);
  }

  lemma GivesUpKeeps(s: Shared, t: Shared, c: nat)
    requires Invariant(s) && GivesUp(s, t, c)
    ensures Invariant(t)
  {
    hide NoneTwice, Channels;
    assert InHand(t) == InHand(s);
  }

  lemma CloseKeeps(s: Shared, t: Shared)
    requires Invariant(s) && (Locks(s, t) || Closes(s, t))
    ensures Invariant(t)
  {
    hide NoneTwice, Channels;
    assert InHand(t) == InHand(s);
  }

  // The writer moves requests along ...

  lemma Regroup(a: seq<nat>, b: seq<nat>, q: seq<nat>)
    requires q != []
    ensures a + b + q == a + (b + [q[0]]) + q[1..]
  {
  }

  lemma TakesKeeps(s: Shared, t: Shared)
    requires Invariant(s) && Takes(s, t)
    ensures Invariant(t)
  {
    hide NoneTwice, Channels;
    Regroup(s.answered, [], s.queue);
    assert [] + [s.queue[0]] == [s.queue[0]];
  }

  lemma GathersKeeps(s: Shared, t: Shared, limits: Limits)
    requires Invariant(s) && Gathers(s, t, limits)
    ensures Invariant(t)
  {
    hide NoneTwice, Channels;
    Regroup(s.answered, s.writer.batch, s.queue);
  }

  lemma PassesOnKeeps(s: Shared, t: Shared, last: nat)
    requires Invariant(s) && (Publishes(s, t, last) || Passes(s, t))
    ensures Invariant(t)
  {
    hide NoneTwice, Channels;
    assert InHand(t) == InHand(s);
  }

  lemma DeliversKeeps(s: Shared, t: Shared)
    requires Invariant(s) && Delivers(s, t)
    ensures Invariant(t)
  {
    hide NoneTwice, Channels;
    var b := s.writer.batch;
    assert s.answered + b + s.queue == s.answered + [b[0]] + b[1..] + s.queue;
  }

  lemma ReturnsKeeps(s: Shared, t: Shared)
    requires Invariant(s) && (Returns(s, t) || SeesClose(s, t) || DrainsOut(s, t))
    ensures Invariant(t)
  {
    hide NoneTwice, Channels;
    assert InHand(t) == InHand(s) == [];
  }

  // ... and wakes the waiters one by one.

  lemma WokenOne(s: Shared, k: nat)
    requires k < |s.parked| && NoneTwice(s.subscribed) && NoneTwice(s.notified)
    requires multiset(s.subscribed) == multiset(s.notified) + multiset(Channels(s.parked[k..]))
    ensures var n := s.notified + [s.parked[k].channel];
      NoneTwice(n) && multiset(s.subscribed) == multiset(n) + multiset(Channels(s.parked[k + 1..]))
  {
    var ch := s.parked[k].channel;
    assert Channels(s.parked[k..]) == [ch] + Channels(s.parked[k + 1..]);
    OnceInMultiset(s.subscribed, ch);
    assert multiset(s.subscribed)[ch] >= multiset(s.notified)[ch] + 1;
    NoneTwiceSnoc(s.notified, ch);
  }

  lemma {:induction false} OnceInMultiset(xs: seq<nat>, x: nat)
    requires NoneTwice(xs)
    ensures multiset(xs)[x] <= 1
    decreases |xs|
  {
    if xs != [] {
      OnceInMultiset(xs[1..], x);
      HeadTail(xs);
      assert forall i | 0 <= i < |xs[1..]| :: xs[1..][i] == xs[i + 1];
      assert multiset(xs) == multiset([xs[0]]) + multiset(xs[1..]);
    }
  }

  lemma WakesKeeps(s: Shared, t: Shared)
    requires Invariant(s) && (Wakes(s, t) || WakesLast(s, t))
    ensures Invariant(t)
  {
    WokenOne(s, s.writer.k);
    hide NoneTwice, Channels;
    assert InHand(t) == InHand(s);
  }

  lemma HasWokenKeeps(s: Shared, t: Shared)
    requires Invariant(s) && (HasWoken(s, t) || Exits(s, t))
    ensures Invariant(t)
  {
    hide NoneTwice;
    assert s.parked[WokenSoFar(s)..] == [] && t.parked[WokenSoFar(t)..] == [];
    assert InHand(t) == InHand(s);
  }

  /** A new subscription, notified at once or parked. */
  lemma SubscribedOne(subscribed: seq<nat>, notified: seq<nat>, parked: seq<Waiter>, w: Waiter)
    requires NoneTwice(subscribed) && NoneTwice(notified) && w.channel !in subscribed
    requires multiset(subscribed) == multiset(notified) + multiset(Channels(parked))
    ensures NoneTwice(subscribed + [w.channel]) && NoneTwice(notified + [w.channel])
    ensures multiset(subscribed + [w.channel]) == multiset(notified + [w.channel]) + multiset(Channels(parked))
    ensures multiset(subscribed + [w.channel]) == multiset(notified) + multiset(Channels(parked + [w]))
  {
    assert w.channel !in multiset(subscribed);
    NoneTwiceSnoc(subscribed, w.channel);
    NoneTwiceSnoc(notified, w.channel);
    assert Channels(parked + [w]) == Channels(parked) + [w.channel];
  }

  lemma SubscribesKeeps(s: Shared, t: Shared, channel: nat, from: nat)
    requires Invariant(s) && Subscribes(s, t, channel, from)
    ensures Invariant(t)
  {
    AllOf(s.parked);
    AllOf(t.parked);
    SubscribedOne(s.subscribed, s.notified, s.parked, Waiter(channel, from));
    hide NoneTwice, Channels;
    assert InHand(t) == InHand(s);
  }

  lemma AllOf(ws: seq<Waiter>)
    ensures ws[0..] == ws
  {
  }

  /** Every step of every actor keeps the invariant. */
  lemma ActsKeep(s: Shared, t: Shared, limits: Limits)
    requires Invariant(s) && Acts(s, t, limits)
    ensures Invariant(t)
  {
    hide Invariant;
    if CallerMoves(s, t, limits) {
      var c :| Begins(s, t, c) || Sends(s, t, c, limits) || GivesUp(s, t, c);
      hide Begins, Sends, GivesUp;
      if Begins(s, t, c) {
        BeginsKeeps(s, t, c);
      } else if Sends(s, t, c, limits) {
        SendsKeeps(s, t, c, limits);
      } else {
        GivesUpKeeps(s, t, c);
      }
    } else if Locks(s, t) || Closes(s, t) {
      CloseKeeps(s, t);
    } else {
      hide CallerMoves, Locks, Closes;
      WriterKeeps(s, t, limits);
    }
  }

  lemma WriterKeeps(s: Shared, t: Shared, limits: Limits)
    requires Invariant(s) && WriterMoves(s, t, limits)
    ensures Invariant(t)
  {
    hide Invariant, Takes, Gathers, Publishes, Passes, Wakes, HasWoken, Delivers, Returns, Subscribes, SeesClose,
      DrainsOut, WakesLast, Exits;
    if Takes(s, t) {
      TakesKeeps(s, t);
    } else if Gathers(s, t, limits) {
      GathersKeeps(s, t, limits);
    } else if last :| Publishes(s, t, last) {
      PassesOnKeeps(s, t, last);
    } else if Passes(s, t) {
      PassesOnKeeps(s, t, 0);
    } else if Wakes(s, t) || WakesLast(s, t) {
      WakesKeeps(s, t);
    } else if HasWoken(s, t) || Exits(s, t) {
      HasWokenKeeps(s, t);
    } else if Delivers(s, t) {
      DeliversKeeps(s, t);
    } else if channel, from :| Subscribes(s, t, channel, from) {
      SubscribesKeeps(s, t, channel, from);
    } else {
      ReturnsKeeps(s, t);
    }
  }

  // What follows for every interleaving.

  lemma {:induction false} InvariantHolds(ss: seq<Shared>, i: nat, limits: Limits)
    requires Interleaving(ss, limits) && i < |ss|
    ensures Invariant(ss[i])
    decreases i
  {
    hide Invariant, Acts, AtStart;
    if i == 0 {
      InitialInvariant(ss[0]);
    } else {
      InvariantHolds(ss, i - 1, limits);
      assert ActsAt(ss, i - 1, limits);
      ActsKeep(ss[i - 1], ss[i], limits);
    }
  }

  /** Each accepted request is answered at most once, in the order of acceptance, and all of them are
      once the writer has left; by then nobody is still trying to send. */
  lemma EachRequestAnsweredOnce(ss: seq<Shared>, i: nat, limits: Limits)
    requires Interleaving(ss, limits) && i < |ss|
    ensures var s := ss[i];
      && s.answered <= s.accepted && NoneTwice(s.accepted)
      && (s.writer.Exited? ==> s.answered == s.accepted && forall c | c in s.callers :: s.callers[c] != Sending)
  {
    hide Acts, AtStart, ActsAt;
    InvariantHolds(ss, i, limits);
    var s := ss[i];
    hide Interleaving, NoneTwice, Wakeups;
    ConcatAssociates(s.answered, InHand(s), s.queue);
    EmptyUnit(s.answered);
  }

  /** Once Close has its lock nothing enters the queue any more. */
  lemma NothingEntersAfterClose(ss: seq<Shared>, i: nat, limits: Limits)
    requires Interleaving(ss, limits) && i < |ss| - 1 && !ss[i].closer.NotClosed?
    ensures ss[i + 1].accepted == ss[i].accepted && |ss[i + 1].queue| <= |ss[i].queue|
  {
    InvariantHolds(ss, i, limits);
    assert ActsAt(ss, i, limits);
    hide Interleaving, Requests, Wakeups;
  }

  /** No wakeup is lost: whenever the writer is back in its loop, every parked follower has consumed
      everything committed; no channel is closed twice; when the writer has left, every
      subscription has been notified. */
  lemma NoLostWakeup(ss: seq<Shared>, i: nat, limits: Limits)
    requires Interleaving(ss, limits) && i < |ss|
    ensures var s := ss[i];
      && (s.writer.Looping? ==> forall k | 0 <= k < |s.parked| :: s.parked[k].from >= s.lastLSN)
      && NoneTwice(s.notified)
      && (s.writer.Exited? ==> s.parked == [] && multiset(s.notified) == multiset(s.subscribed))
  {
    hide Acts, AtStart, ActsAt;
    InvariantHolds(ss, i, limits);
    hide Interleaving, NoneTwice, Requests, Shutdown;
    assert ss[i].writer.Exited? ==> Channels(ss[i].parked[0..]) == [];
  }

  /** The writer is never stuck while there is something to answer or a Close to serve. */
  lemma WriterNeverStuck(s: Shared, limits: Limits)
    requires !s.writer.Exited? && (s.queue != [] || !s.writer.Looping? || s.closer == Signalled)
    ensures exists t :: WriterMoves(s, t, limits)
  {
    var t: Shared;
    match s.writer {
      case Looping =>
        if s.queue != [] {
          t := s.(writer := Gathering([s.queue[0]], false), queue := s.queue[1..]);
          assert Takes(s, t);
        } else {
          t := s.(writer := Draining);
          assert SeesClose(s, t);
        }
      case Draining =>
        if s.queue != [] {
          t := s.(writer := Gathering([s.queue[0]], true), queue := s.queue[1..]);
          assert Takes(s, t);
        } else {
          t := s.(writer := Leaving(0));
          assert DrainsOut(s, t);
        }
      case Gathering(batch, drain) =>
        t := s.(writer := Delivering(batch, drain));
        assert Passes(s, t);
      case Waking(batch, drain, k) =>
        if k < |s.parked| {
          t := s.(writer := Waking(batch, drain, k + 1), notified := s.notified + [s.parked[k].channel]);
          assert Wakes(s, t);
        } else {
          t := s.(writer := Delivering(batch, drain), parked := []);
          assert HasWoken(s, t);
        }
      case Delivering(batch, drain) =>
        if batch != [] {
          t := s.(writer := Delivering(batch[1..], drain), answered := s.answered + [batch[0]]);
          assert Delivers(s, t);
        } else {
          t := s.(writer := if drain then Draining else Looping);
          assert Returns(s, t);
        }
      case Leaving(k) =>
        if k < |s.parked| {
          t := s.(writer := Leaving(k + 1), notified := s.notified + [s.parked[k].channel]);
          assert WakesLast(s, t);
        } else {
          t := s.(writer := Exited, parked := []);
          assert Exits(s, t);
        }
    }
    assert WriterMoves(s, t, limits);
  }

  // Shutting down ends.

  function Past(n: nat, k: nat): nat {
    if k < n then n - k else 0
  }

  /** A bound on the steps the writer still takes once it drains: five for each request in the queue, one for each
      answer it owes and each waiter it has not woken, and what its phase takes. */
  function Remaining(s: Shared): nat {
    var rest := 5 * |s.queue| + 2;
    match s.writer
    case Exited => 0
    case Leaving(k) => 1 + Past(|s.parked|, k)
    case Gathering(batch, _) => rest + |s.parked| + |batch| + 3
    case Waking(batch, _, k) => rest + Past(|s.parked|, k) + |batch| + 2
    case Delivering(batch, _) => rest + |s.parked| + |batch| + 1
    case _ => rest + |s.parked|
  }

  lemma WriterDescends(s: Shared, t: Shared, limits: Limits)
    requires IsDraining(s) && WriterMoves(s, t, limits)
    ensures IsDraining(t) && Remaining(t) < Remaining(s)
  {
  }

  lemma OthersDoNotDelay(s: Shared, t: Shared, limits: Limits)
    requires Invariant(s) && IsDraining(s) && (CallerMoves(s, t, limits) || Locks(s, t) || Closes(s, t))
    ensures IsDraining(t) && Remaining(t) == Remaining(s)
  {
    hide Requests, Wakeups;
  }

  /** The steps of the writer among those from `i` to `j`. */
  ghost function WriterSteps(ss: seq<Shared>, i: nat, j: nat, limits: Limits): nat
    requires i <= j < |ss|
    decreases j - i
  {
    if i == j then 0
    else WriterSteps(ss, i, j - 1, limits) + if WriterMoves(ss[j - 1], ss[j], limits) then 1 else 0
  }

  /** Once the writer drains it takes no more steps than `Remaining` says, whatever everybody else does, and it
      has left when they are used up. */
  lemma {:induction false} ShutdownEnds(ss: seq<Shared>, i: nat, j: nat, limits: Limits)
    requires Interleaving(ss, limits) && i <= j < |ss| && IsDraining(ss[i])
    ensures IsDraining(ss[j]) && WriterSteps(ss, i, j, limits) + Remaining(ss[j]) <= Remaining(ss[i])
    ensures ss[j].writer.Exited? <==> Remaining(ss[j]) == 0
    decreases j - i
  {
    hide Invariant, WriterMoves, CallerMoves, Locks, Closes, AtStart;
    if i < j {
      ShutdownEnds(ss, i, j - 1, limits);
      InvariantHolds(ss, j - 1, limits);
      assert ActsAt(ss, j - 1, limits);
      if WriterMoves(ss[j - 1], ss[j], limits) {
        WriterDescends(ss[j - 1], ss[j], limits);
      } else {
        OthersDoNotDelay(ss[j - 1], ss[j], limits);
      }
    }
  }
}
