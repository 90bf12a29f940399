/** Followers that wait: who is parked, who is woken, and why; and what the limits keep. Over every interleaving. */
module Parking {
  import opened Protocol

  /** A follower that has consumed everything committed is parked and not signalled; one that is behind is signalled
      at once. */
  lemma SubscribeOutcome(s: Shared, t: Shared, channel: nat, from: nat)
    requires Invariant(s) && Subscribes(s, t, channel, from)
    ensures from >= s.lastLSN ==>
      t.parked == s.parked + [Waiter(channel, from)] && t.notified == s.notified && channel !in t.notified
    ensures from < s.lastLSN ==> t.parked == s.parked && t.notified == s.notified + [channel]
    ensures t.writer.Looping? && t.subscribed == s.subscribed + [channel] && t.lastLSN == s.lastLSN
  {
    hide Requests, Shutdown, NoneTwice, Channels;
    assert channel !in multiset(s.subscribed);
  }

  /** Step `j` is this subscription. */
  predicate Joined(ss: seq<Shared>, j: nat, channel: nat, from: nat) {
    j < |ss| - 1 && Subscribes(ss[j], ss[j + 1], channel, from)
  }

  /** In step `m` a commit publishes what it wrote. */
  predicate Commits(ss: seq<Shared>, m: nat) {
    m < |ss| - 1 && ss[m].writer.Gathering? && ss[m + 1].writer.Waking?
  }

  /** Between the subscription `j` and the state `i` a commit was published or the writer was leaving. */
  ghost predicate Since(ss: seq<Shared>, j: nat, i: nat) {
    exists m: nat :: j < m < i <= |ss| && (Commits(ss, m) || ss[m].writer.Leaving?)
  }

  ghost predicate CommitSince(ss: seq<Shared>, j: nat, i: nat) {
    exists m: nat :: j < m < i && Commits(ss, m)
  }

  /** Why the channel was notified before the state `i`. */
  ghost predicate Reason(ss: seq<Shared>, i: nat, channel: nat) {
    i < |ss| && exists j: nat, from: nat ::
      && j < i && Joined(ss, j, channel, from)
      && (from < ss[j].lastLSN || Since(ss, j, i))
  }

  /** Since when the waiter has been parked; the writer wakes it because of a later commit. */
  ghost predicate ParkedSince(ss: seq<Shared>, i: nat, w: Waiter) {
    i < |ss| && exists j: nat ::
      && j < i && Joined(ss, j, w.channel, w.from) && w.from >= ss[j].lastLSN
      && (ss[i].writer.Waking? ==> CommitSince(ss, j, i))
  }

  lemma ReasonStays(ss: seq<Shared>, i: nat, channel: nat)
    requires Reason(ss, i, channel) && i + 1 < |ss|
    ensures Reason(ss, i + 1, channel)
  {
    hide Subscribes;
    var j: nat, from: nat :| j < i && Joined(ss, j, channel, from) && (from < ss[j].lastLSN || Since(ss, j, i));
    if Since(ss, j, i) {
      var m: nat :| j < m < i <= |ss| && (Commits(ss, m) || ss[m].writer.Leaving?);
      assert Since(ss, j, i + 1);
    }
  }

  /** The waiter stays parked through a step. */
  lemma ParkedStays(ss: seq<Shared>, i: nat, w: Waiter)
    requires ParkedSince(ss, i, w) && i + 1 < |ss|
    requires ss[i + 1].writer.Waking? ==> ss[i].writer.Waking? || ss[i].writer.Gathering?
    ensures ParkedSince(ss, i + 1, w)
  {
    hide Subscribes;
    var j: nat :| j < i && Joined(ss, j, w.channel, w.from) && w.from >= ss[j].lastLSN
      && (ss[i].writer.Waking? ==> CommitSince(ss, j, i));
    if ss[i + 1].writer.Waking? {
      if ss[i].writer.Waking? {
        var m: nat :| j < m < i && Commits(ss, m);
        assert CommitSince(ss, j, i + 1);
      } else {
        assert Commits(ss, i);
      }
    }
  }

  /** Woken by the writer. */
  lemma WokenHasReason(ss: seq<Shared>, i: nat, w: Waiter)
    requires ParkedSince(ss, i, w) && i + 1 < |ss| && (ss[i].writer.Waking? || ss[i].writer.Leaving?)
    ensures Reason(ss, i + 1, w.channel)
  {
    hide Subscribes;
    var j: nat :| j < i && Joined(ss, j, w.channel, w.from) && w.from >= ss[j].lastLSN
      && (ss[i].writer.Waking? ==> CommitSince(ss, j, i));
    if ss[i].writer.Waking? {
      var m: nat :| j < m < i && Commits(ss, m);
      assert Since(ss, j, i + 1);
    } else {
      assert Since(ss, j, i + 1);
    }
  }

  ghost predicate Explained(ss: seq<Shared>, i: nat) {
    && i < |ss|
    && (forall k | 0 <= k < |ss[i].notified| :: Reason(ss, i, ss[i].notified[k]))
    && (forall k | 0 <= k < |ss[i].parked| :: ParkedSince(ss, i, ss[i].parked[k]))
  }

  /** What a step does to the waiters. */
  lemma StepParks(s: Shared, t: Shared, limits: Limits)
    requires Acts(s, t, limits)
    ensures t.writer.Waking? ==> s.writer.Waking? || s.writer.Gathering?
    ensures
      || (t.notified == s.notified && (t.parked == s.parked || t.parked == []))
      || (t.parked == s.parked && WokeNext(s, t))
      || exists channel, from :: Subscribes(s, t, channel, from)
  {
  }

  predicate WokeNext(s: Shared, t: Shared) {
    && (s.writer.Waking? || s.writer.Leaving?) && s.writer.k < |s.parked|
    && t.notified == s.notified + [s.parked[s.writer.k].channel]
  }

  lemma {:induction false} AllExplained(ss: seq<Shared>, i: nat, limits: Limits)
    requires Interleaving(ss, limits) && i < |ss|
    ensures Explained(ss, i)
    decreases i
  {
    hide Acts, Reason, ParkedSince, Subscribes;
    if i > 0 {
      AllExplained(ss, i - 1, limits);
      assert ActsAt(ss, i - 1, limits);
      var s, t := ss[i - 1], ss[i];
      StepParks(s, t, limits);
      forall k | 0 <= k < |s.notified|
        ensures Reason(ss, i, s.notified[k])
      {
        ReasonStays(ss, i - 1, s.notified[k]);
      }
      forall k | 0 <= k < |s.parked|
        ensures ParkedSince(ss, i, s.parked[k])
      {
        ParkedStays(ss, i - 1, s.parked[k]);
      }
      if channel, from :| Subscribes(s, t, channel, from) {
        JoinsExplained(ss, i - 1, channel, from);
        SubscribedParts(s, t, channel, from);
      } else if WokeNext(s, t) && t.notified != s.notified {
        WokenHasReason(ss, i - 1, s.parked[s.writer.k]);
      }
    }
  }

  lemma SubscribedParts(s: Shared, t: Shared, channel: nat, from: nat)
    requires Subscribes(s, t, channel, from)
    ensures if from < s.lastLSN then t.parked == s.parked && t.notified == s.notified + [channel]
            else t.parked == s.parked + [Waiter(channel, from)] && t.notified == s.notified
  {
  }

  lemma JoinsExplained(ss: seq<Shared>, i: nat, channel: nat, from: nat)
    requires i + 1 < |ss| && Subscribes(ss[i], ss[i + 1], channel, from)
    ensures if from < ss[i].lastLSN then Reason(ss, i + 1, channel) else ParkedSince(ss, i + 1, Waiter(channel, from))
  {
    assert Joined(ss, i, channel, from);
  }

  /** No follower is signalled without a reason: it was behind when it subscribed, or afterwards a commit was
      published or the writer was leaving. */
  lemma NotifiedForReason(ss: seq<Shared>, i: nat, limits: Limits, channel: nat)
    requires Interleaving(ss, limits) && i < |ss| && channel in ss[i].notified
    ensures exists j: nat, from: nat ::
      && j < i && Joined(ss, j, channel, from)
      && (from < ss[j].lastLSN || Since(ss, j, i))
  {
    hide Interleaving, Subscribes, Since;
    AllExplained(ss, i, limits);
    var k :| 0 <= k < |ss[i].notified| && ss[i].notified[k] == channel;
    assert Reason(ss, i, ss[i].notified[k]);
  }

  predicate StillToWake(s: Shared, channel: nat) {
    s.writer.Waking? && exists k :: s.writer.k <= k < |s.parked| && s.parked[k].channel == channel
  }

  /** A follower that is parked when a commit is published is signalled before the writer does anything else. */
  lemma {:induction false} EveryWaiterWoken(ss: seq<Shared>, m: nat, n: nat, limits: Limits, channel: nat)
    requires Interleaving(ss, limits) && m < n < |ss| && Commits(ss, m)
    requires exists k :: 0 <= k < |ss[m].parked| && ss[m].parked[k].channel == channel
    ensures channel in ss[n].notified || StillToWake(ss[n], channel)
    ensures !ss[n].writer.Waking? ==> channel in ss[n].notified
    decreases n
  {
    hide Interleaving, Acts, StillToWake;
    ActsOf(ss, n - 1, limits);
    if n == m + 1 {
      PublishedWakes(ss[m], ss[n], limits, channel);
    } else {
      EveryWaiterWoken(ss, m, n - 1, limits, channel);
      WakingGoesOn(ss[n - 1], ss[n], limits, channel);
    }
    assert StillToWake(ss[n], channel) ==> ss[n].writer.Waking? by {
      OnlyWaking(ss[n], channel);
    }
  }

  lemma OnlyWaking(s: Shared, channel: nat)
    ensures StillToWake(s, channel) ==> s.writer.Waking?
  {
  }

  lemma ActsOf(ss: seq<Shared>, i: nat, limits: Limits)
    requires Interleaving(ss, limits) && i < |ss| - 1
    ensures Acts(ss[i], ss[i + 1], limits)
  {
    hide Acts;
    assert ActsAt(ss, i, limits);
  }

  lemma PublishedWakes(s: Shared, t: Shared, limits: Limits, channel: nat)
    requires Acts(s, t, limits) && s.writer.Gathering? && t.writer.Waking?
    requires exists k :: 0 <= k < |s.parked| && s.parked[k].channel == channel
    ensures StillToWake(t, channel)
  {
  }

  lemma WakingGoesOn(s: Shared, t: Shared, limits: Limits, channel: nat)
    requires Acts(s, t, limits) && (channel in s.notified || StillToWake(s, channel))
    ensures channel in t.notified || StillToWake(t, channel)
  {
    if WriterMoves(s, t, limits) {
      WriterGoesOn(s, t, limits, channel);
    } else {
      OthersMove(s, t, limits);
    }
  }

  lemma WriterGoesOn(s: Shared, t: Shared, limits: Limits, channel: nat)
    requires WriterMoves(s, t, limits) && (channel in s.notified || StillToWake(s, channel))
    ensures channel in t.notified || StillToWake(t, channel)
  {
  }

  /** Callers and Close leave the writer and its waiters alone. */
  lemma OthersMove(s: Shared, t: Shared, limits: Limits)
    requires CallerMoves(s, t, limits) || Locks(s, t) || Closes(s, t)
    ensures t.writer == s.writer && t.parked == s.parked && t.notified == s.notified && t.lastLSN == s.lastLSN
  {
  }

  /** The writer leaves Close and the callers alone. */
  lemma WriterMovesOnly(s: Shared, t: Shared, limits: Limits)
    requires WriterMoves(s, t, limits)
    ensures t.callers == s.callers && t.closer == s.closer
  {
  }

  /** What was published stays published. */
  lemma {:induction false} PublishedStays(ss: seq<Shared>, m: nat, n: nat, limits: Limits, last: nat)
    requires Interleaving(ss, limits) && m < n < |ss| && Publishes(ss[m], ss[m + 1], last)
    ensures ss[n].lastLSN >= last
    decreases n
  {
    hide Interleaving, Acts, ActsAt;
    if n > m + 1 {
      PublishedStays(ss, m, n - 1, limits, last);
      ActsOf(ss, n - 1, limits);
      LastGrows(ss[n - 1], ss[n], limits);
    }
  }

  lemma LastGrows(s: Shared, t: Shared, limits: Limits)
    requires Acts(s, t, limits)
    ensures t.lastLSN >= s.lastLSN
  {
  }

  /** So back in its loop the writer has nobody parked who has not consumed all that was ever published. */
  lemma ParkedAreUpToDate(ss: seq<Shared>, m: nat, n: nat, limits: Limits, last: nat)
    requires Interleaving(ss, limits) && m < n < |ss| && Publishes(ss[m], ss[m + 1], last) && ss[n].writer.Looping?
    ensures forall k | 0 <= k < |ss[n].parked| :: ss[n].parked[k].from >= last
  {
    hide Interleaving, Publishes;
    PublishedStays(ss, m, n, limits, last);
    NoLostWakeup(ss, n, limits);
  }

  // Limits and refusals.

  /** The queue never outgrows its capacity, nor a batch its limit; a single request is always taken. */
  lemma {:induction false} LimitsKept(ss: seq<Shared>, i: nat, limits: Limits)
    requires Interleaving(ss, limits) && i < |ss|
    ensures |ss[i].queue| <= limits.capacity && (|InHand(ss[i])| <= limits.batchSize || |InHand(ss[i])| <= 1)
    decreases i
  {
    hide Acts, ActsAt;
    if i > 0 {
      LimitsKept(ss, i - 1, limits);
      ActsOf(ss, i - 1, limits);
      hide Interleaving;
      LimitStep(ss[i - 1], ss[i], limits);
    }
  }

  lemma LimitStep(s: Shared, t: Shared, limits: Limits)
    requires Acts(s, t, limits)
    requires |s.queue| <= limits.capacity && (|InHand(s)| <= limits.batchSize || |InHand(s)| <= 1)
    ensures |t.queue| <= limits.capacity && (|InHand(t)| <= limits.batchSize || |InHand(t)| <= 1)
  {
  }

  /** A caller is refused only once the log is closed, and closed it stays. */
  lemma {:induction false} RefusedOnlyClosed(ss: seq<Shared>, i: nat, limits: Limits)
    requires Interleaving(ss, limits) && i < |ss|
    ensures (exists c :: c in ss[i].callers && ss[i].callers[c] == Refused) ==> IsClosed(ss[i])
    ensures i > 0 && IsClosed(ss[i - 1]) ==> IsClosed(ss[i])
    decreases i
  {
    hide Acts, ActsAt;
    if i > 0 {
      RefusedOnlyClosed(ss, i - 1, limits);
      ActsOf(ss, i - 1, limits);
      hide Interleaving;
      RefusedStep(ss[i - 1], ss[i], limits);
    }
  }

  lemma RefusedStep(s: Shared, t: Shared, limits: Limits)
    requires Acts(s, t, limits)
    requires (exists c :: c in s.callers && s.callers[c] == Refused) ==> IsClosed(s)
    ensures (exists c :: c in t.callers && t.callers[c] == Refused) ==> IsClosed(t)
    ensures IsClosed(s) ==> IsClosed(t)
  {
    if WriterMoves(s, t, limits) {
      WriterMovesOnly(s, t, limits);
    } else {
      hide WriterMoves;
      if c :| c in t.callers && t.callers[c] == Refused && !(c in s.callers && s.callers[c] == Refused) {
        assert IsClosed(t);
      }
    }
  }
}
