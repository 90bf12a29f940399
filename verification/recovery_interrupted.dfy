/** When interrupting a recovery changes where it ends: exactly when it collapses a log that still has records,
    other than harmlessly. The writer never leaves such a directory, but Open takes any. */
module RecoveryInterrupted {
  import opened Directory
  import opened State
  import opened Recovery
  import opened RecoveryTheorems
  import opened RecoveryIdempotence
  import opened RecoveryUnsynced

  lemma FinalListing(g: Files, kb: seq<nat>, scan: BodyScanner)
    requires Contiguous(g, kb, scan) && Listing(kb, g.Keys)
    ensures Listing(FinalBases(g, kb, scan), FinalFiles(g, kb, scan).Keys)
    ensures Listed(FinalFiles(g, kb, scan), FinalBases(g, kb, scan))
  {
    MendedKeys(g, kb, scan);
    ListingPrefix(kb, g.Keys);
  }

  /** Without the `m` bases after the first one. */
  lemma ListingWithout(bs: seq<nat>, keys: set<nat>, m: nat)
    requires Listing(bs, keys) && m < |bs|
    ensures Listing([bs[0]] + bs[m + 1..], keys - Elements(bs[1..][..m]))
  {
    var hb := [bs[0]] + bs[m + 1..];
    assert bs == [bs[0]] + bs[1..][..m] + bs[m + 1..];
    assert forall b | b in bs[1..][..m] :: b != bs[0] && b !in bs[m + 1..];
    forall b
      ensures b in hb <==> b in keys - Elements(bs[1..][..m])
    {
    }
  }

  /** With one segment of several gone, the next one starts above the end of the first. */
  lemma GapRefused(g: Files, h: Files, kb: seq<nat>, scan: BodyScanner)
    requires Contiguous(g, kb, scan) && Listing(kb, g.Keys) && Collapses(g, kb, scan)
    requires |FinalBases(g, kb, scan)| > 2 && DroppedAt(g, kb, 1, scan, h)
    ensures var hb := [kb[0]] + FinalBases(g, kb, scan)[2..];
      Listing(hb, h.Keys) && (Listed(h, hb) ==> !Accepts(h, hb, scan))
  {
    hide FinalFiles, Listing, Accepts, Collapses;
    GapListing(g, h, kb, scan);
    FirstUnchanged(g, h, kb, scan);
    var hb := [kb[0]] + FinalBases(g, kb, scan)[2..];
    if Listed(h, hb) {
      GapAtFirst(g, h, kb, hb, scan);
    }
  }

  lemma GapListing(g: Files, h: Files, kb: seq<nat>, scan: BodyScanner)
    requires Contiguous(g, kb, scan) && Listing(kb, g.Keys)
    requires |FinalBases(g, kb, scan)| > 2 && DroppedAt(g, kb, 1, scan, h)
    ensures Listing([kb[0]] + FinalBases(g, kb, scan)[2..], h.Keys) && FinalBases(g, kb, scan)[2] == kb[2]
  {
    hide FinalFiles, Listing, Joined;
    FinalListing(g, kb, scan);
    ListingWithout(FinalBases(g, kb, scan), FinalFiles(g, kb, scan).Keys, 1);
    hide Listed;
  }

  lemma FirstUnchanged(g: Files, h: Files, kb: seq<nat>, scan: BodyScanner)
    requires Contiguous(g, kb, scan) && |FinalBases(g, kb, scan)| > 1 && DroppedAt(g, kb, 1, scan, h)
    ensures kb[0] in h ==> h[kb[0]] == g[kb[0]]
  {
    FinalFirst(g, kb, scan);
    hide FinalFiles;
  }

  lemma GapAtFirst(g: Files, h: Files, kb: seq<nat>, hb: seq<nat>, scan: BodyScanner)
    requires Contiguous(g, kb, scan) && |kb| > 2 && Listed(h, hb) && |hb| > 1 && hb[0] == kb[0] && hb[1] == kb[2]
    requires kb[0] in h ==> h[kb[0]] == g[kb[0]]
    ensures !Accepts(h, hb, scan)
  {
    assert Joined(g, kb, 0, scan) && kb[1] < kb[2];
    assert !Follows(h, hb, 0, scan);
  }

  /** With all but the first gone, its last record counts again. */
  lemma AloneDiffers(g: Files, h: Files, kb: seq<nat>, scan: BodyScanner)
    requires Contiguous(g, kb, scan) && Listing(kb, g.Keys) && Collapses(g, kb, scan) && g[kb[0]].headerOk
    requires kb[0] == 0 || LastLSNOf(Res(g, kb[0], scan)) >= kb[0]
    requires DroppedAt(g, kb, |FinalBases(g, kb, scan)| - 1, scan, h)
    ensures Listing([kb[0]], h.Keys) && Contiguous(h, [kb[0]], scan)
    ensures Surviving(h, [kb[0]], scan) == [kb[0]] && Reconciled(h, [kb[0]], scan) == h
    ensures EndWriter(h, [kb[0]], scan) != EndWriter(g, kb, scan)
  {
    var bs := FinalBases(g, kb, scan);
    FinalListing(g, kb, scan);
    FinalFirst(g, kb, scan);
    ListingWithout(bs, FinalFiles(g, kb, scan).Keys, |bs| - 1);
    OnlyLastEmpty(g, kb, scan);
    assert [bs[0]] + bs[|bs|..] == [kb[0]];
    assert kb[0] in [kb[0]];
    hide FinalFiles;
    assert h[kb[0]] == g[kb[0]];
    FirstAlone(g, h, kb, scan);
    AloneWriter(g, kb, scan);
    hide EndWriter, Surviving, Reconciled, FinalBases, LastLSNOf, FirstIn;
  }

  lemma AloneWriter(g: Files, kb: seq<nat>, scan: BodyScanner)
    requires Contiguous(g, kb, scan) && Collapses(g, kb, scan)
    requires kb[0] == 0 || LastLSNOf(Res(g, kb[0], scan)) >= kb[0]
    ensures var l := LastLSNOf(Res(g, kb[0], scan));
      EndWriter(g, kb, scan) != Writer([kb[0]], Max(l + 1, kb[0]), kb[0], Max(l, Before(kb[0])))
  {
    OnlyLastEmpty(g, kb, scan);
    assert Joined(g, kb, 0, scan);
  }

  lemma Harmful(g: Files, kb: seq<nat>, scan: BodyScanner)
    requires Contiguous(g, kb, scan) && !Resumable(g, kb, scan)
    ensures Collapses(g, kb, scan) && |FinalBases(g, kb, scan)| > 1
    ensures kb[0] == 0 || LastLSNOf(Res(g, kb[0], scan)) >= kb[0] || |FinalBases(g, kb, scan)| > 2
  {
  }

  /** Some directory the recovery passes through does not lead to the same end. */
  lemma HarmDone(d: Dir, scan: BodyScanner) returns (im: Dir)
    requires Recover(d, scan).ok && !Interruptible(d, scan)
    ensures im in Recover(d, scan).st.trace
    ensures !Recover(im, scan).ok || Recover(im, scan).st.w != Recover(d, scan).st.w
  {
    hide Recover, RecoverListed, Accepts, Contiguous, Midway, EndFiles, EndWriter, Collapses, FinalFiles;
    hide Surviving, Reconciled;
    var s, names := RecoverWhole(d, scan);
    RecoverClosed(s, names, scan);
    var g, kb := Reconciled(d.files, names, scan), Surviving(d.files, names, scan);
    SurvivingHeaders(d.files, names, scan);
    SurvivingListing(d.files, names, scan);
    Harmful(g, kb, scan);
    var bs := FinalBases(g, kb, scan);
    var m := if kb[0] == 0 || LastLSNOf(Res(g, kb[0], scan)) >= kb[0] then |bs| - 1 else 1;
    assert DropsAt(g, kb, m, scan, Recover(d, scan).st.trace);
    im :| im in Recover(d, scan).st.trace && DroppedAt(g, kb, m, scan, im.files);
    if kb[0] == 0 || LastLSNOf(Res(g, kb[0], scan)) >= kb[0] {
      AloneOutcome(g, im, kb, scan);
    } else {
      GapOutcome(g, im, kb, scan);
    }
  }

  lemma AloneOutcome(g: Files, im: Dir, kb: seq<nat>, scan: BodyScanner)
    requires Contiguous(g, kb, scan) && Listing(kb, g.Keys) && Collapses(g, kb, scan) && g[kb[0]].headerOk
    requires kb[0] == 0 || LastLSNOf(Res(g, kb[0], scan)) >= kb[0]
    requires DroppedAt(g, kb, |FinalBases(g, kb, scan)| - 1, scan, im.files)
    ensures !Recover(im, scan).ok || Recover(im, scan).st.w != EndWriter(g, kb, scan)
  {
    hide Recover, RecoverListed, Accepts, Contiguous, Midway, EndFiles, EndWriter, Collapses, FinalFiles;
    hide Surviving, Reconciled;
    AloneDiffers(g, im.files, kb, scan);
    var t, tnames := RecoverWhole(im, scan);
    ListingUnique(tnames, [kb[0]], im.files.Keys);
    RecoverClosed(t, tnames, scan);
  }

  lemma GapOutcome(g: Files, im: Dir, kb: seq<nat>, scan: BodyScanner)
    requires Contiguous(g, kb, scan) && Listing(kb, g.Keys) && Collapses(g, kb, scan)
    requires |FinalBases(g, kb, scan)| > 2 && DroppedAt(g, kb, 1, scan, im.files)
    ensures !Recover(im, scan).ok
  {
    hide Recover, RecoverListed, Accepts, Contiguous, Collapses, FinalFiles;
    GapRefused(g, im.files, kb, scan);
    var t, tnames := RecoverWhole(im, scan);
    ListingUnique(tnames, [kb[0]] + FinalBases(g, kb, scan)[2..], im.files.Keys);
  }

  /** Recovering what is left of `d` ends as recovering `d` does. */
  ghost predicate SameEnding(d: Dir, c: Dir, scan: BodyScanner) {
    var o, p := Recover(d, scan), Recover(c, scan);
    p.ok && p.st.w == o.st.w && SameBodies(o.st.dir.files, p.st.dir.files)
  }

  /** Recovery can be killed anywhere without changing its end if and only if the directory is interruptible. */
  lemma RecoverIdempotentIff(d: Dir, scan: BodyScanner)
    requires Rescannable(scan) && Recover(d, scan).ok
    ensures Interruptible(d, scan) <==>
      forall im: Dir, c: Dir | im in Recover(d, scan).st.trace && SameBodies(im.files, c.files) ::
        SameEnding(d, c, scan)
  {
    hide Rescannable, Recover, Interruptible;
    if Interruptible(d, scan) {
      forall im: Dir, c: Dir | im in Recover(d, scan).st.trace && SameBodies(im.files, c.files)
        ensures SameEnding(d, c, scan)
      {
        hide SameBodies;
        RecoverIdempotent(d, im, c, scan);
      }
    } else {
      var im := HarmDone(d, scan);
      assert SameBodies(im.files, im.files);
      assert !SameEnding(d, im, scan);
    }
  }
}
