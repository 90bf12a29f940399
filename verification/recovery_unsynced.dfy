/** Recovery looks at headers and bodies only: how much of a file is on stable storage makes no difference
    to it. So a killed process, which loses nothing, may interrupt it anywhere. */
module RecoveryUnsynced {
  import opened Directory
  import opened State
  import opened Recovery
  import opened RecoveryTheorems
  import opened RecoveryIdempotence

  predicate SameContent(f: File, g: File) {
    f.headerOk == g.headerOk && f.body == g.body
  }

  /** The same names, headers and bodies. */
  ghost predicate SameBodies(f: Files, g: Files) {
    f.Keys == g.Keys && forall b | b in f :: SameContent(f[b], g[b])
  }

  lemma SameListed(f: Files, g: Files, names: seq<nat>, scan: BodyScanner)
    requires SameBodies(f, g) && Listed(f, names)
    ensures Listed(g, names)
    ensures Accepts(f, names, scan) <==> Accepts(g, names, scan)
  {
    assert forall i | 0 <= i < |names| :: names[i] in f && names[i] in g;
    forall i | 0 <= i < |names| - 1
      ensures Follows(f, names, i, scan) <==> Follows(g, names, i, scan)
    {
      assert SameContent(f[names[i]], g[names[i]]);
    }
    assert forall i | 0 <= i < |names| :: SameContent(f[names[i]], g[names[i]]);
  }

  lemma {:induction false} SameStart(f: Files, g: Files, names: seq<nat>, i: nat, scan: BodyScanner)
    requires SameBodies(f, g) && Listed(f, names) && Listed(g, names) && i < |names|
    ensures Start(f, names, i, scan) == Start(g, names, i, scan)
    decreases i
  {
    if i > 0 {
      assert SameContent(f[names[i - 1]], g[names[i - 1]]);
      SameStart(f, g, names, i - 1, scan);
    }
  }

  lemma SamePart(f: Files, g: Files, keys: set<nat>)
    requires SameBodies(f, g)
    ensures SameBodies(f - keys, g - keys)
  {
  }

  lemma SameReconciled(f: Files, g: Files, names: seq<nat>, scan: BodyScanner)
    requires SameBodies(f, g) && Listed(f, names) && Listed(g, names) && names != []
    ensures SameBodies(Reconciled(f, names, scan), Reconciled(g, names, scan))
    ensures Surviving(f, names, scan) == Surviving(g, names, scan)
  {
    hide SameBodies, Listed;
    SameStart(f, g, names, |names| - 1, scan);
    SamePart(f, g, Elements(names[..Start(f, names, |names| - 1, scan)]));
  }

  lemma SameMended(f: Files, g: Files, b: nat, scan: BodyScanner)
    requires SameBodies(f, g) && b in f && b in g
    ensures SameBodies(Mended(f, b, scan), Mended(g, b, scan))
  {
    assert SameContent(f[b], g[b]);
  }

  lemma SameScans(f: Files, g: Files, kb: seq<nat>, scan: BodyScanner)
    requires SameBodies(f, g) && Listed(f, kb) && Listed(g, kb)
    ensures forall i | 0 <= i < |kb| :: Res(g, kb[i], scan) == Res(f, kb[i], scan)
  {
    forall i | 0 <= i < |kb|
      ensures Res(g, kb[i], scan) == Res(f, kb[i], scan)
    {
      assert SameContent(f[kb[i]], g[kb[i]]);
    }
  }

  lemma SameEnd(f: Files, g: Files, kb: seq<nat>, scan: BodyScanner)
    requires SameBodies(f, g) && Contiguous(f, kb, scan) && Contiguous(g, kb, scan)
    ensures SameBodies(EndFiles(f, kb, scan), EndFiles(g, kb, scan))
    ensures EndWriter(f, kb, scan) == EndWriter(g, kb, scan)
  {
    hide SameBodies, Collapses, Mended, EndWriter, FinalWriter;
    SameScans(f, g, kb, scan);
    SameEnds(f, g, kb, scan);
    SameMended(f, g, LastBase(kb), scan);
    SamePart(Mended(f, LastBase(kb), scan), Mended(g, LastBase(kb), scan), {LastBase(kb)});
    SamePart(FinalFiles(f, kb, scan), FinalFiles(g, kb, scan), Elements(FinalBases(f, kb, scan)[1..]));
  }

  /** Two directories with the same names, headers and bodies recover alike. */
  lemma RecoverSame(d: Dir, e: Dir, scan: BodyScanner)
    requires SameBodies(d.files, e.files)
    ensures var o, p := Recover(d, scan), Recover(e, scan);
      && p.ok == o.ok
      && (o.ok ==> p.st.w == o.st.w && SameBodies(o.st.dir.files, p.st.dir.files))
  {
    var s, names := RecoverWhole(d, scan);
    var t, tnames := RecoverWhole(e, scan);
    ListingUnique(tnames, names, d.files.Keys);
    if names == [] {
      SameFresh(s, t, scan);
    } else {
      RecoverListedSame(s, t, names, scan);
    }
  }

  lemma SameFresh(s: St, t: St, scan: BodyScanner)
    requires SameBodies(s.dir.files, t.dir.files)
    ensures var o, p := RecoverListed(s, [], scan), RecoverListed(t, [], scan);
      o.ok && p.ok && p.st.w == o.st.w && SameBodies(o.st.dir.files, p.st.dir.files)
  {
  }

  lemma RecoverListedSame(s: St, t: St, names: seq<nat>, scan: BodyScanner)
    requires SameBodies(s.dir.files, t.dir.files) && names != []
    requires Listing(names, s.dir.files.Keys) && Listing(names, t.dir.files.Keys)
    ensures var o, p := RecoverListed(s, names, scan), RecoverListed(t, names, scan);
      && p.ok == o.ok
      && (o.ok ==> p.st.w == o.st.w && SameBodies(o.st.dir.files, p.st.dir.files))
  {
    hide SameBodies, Listing, RecoverListed, Accepts, Contiguous, Listed, Reconciled, Surviving;
    hide EndFiles, EndWriter;
    RecoverClosed(s, names, scan);
    RecoverClosed(t, names, scan);
    var f, g := s.dir.files, t.dir.files;
    SameListed(f, g, names, scan);
    SameReconciled(f, g, names, scan);
    if Accepts(f, names, scan) {
      SameEnd(Reconciled(f, names, scan), Reconciled(g, names, scan), Surviving(f, names, scan), scan);
    }
  }

  /** Recovery is crash-idempotent: kill it anywhere, on any directory it accepts, and recovering what is
      left ends with the same bases, the same LSN bounds and the same contents. */
  lemma RecoverIdempotent(d: Dir, im: Dir, c: Dir, scan: BodyScanner)
    requires Rescannable(scan) && Interruptible(d, scan)
    requires Recover(d, scan).ok && im in Recover(d, scan).st.trace && SameBodies(im.files, c.files)
    ensures Recover(c, scan).ok && Recover(c, scan).st.w == Recover(d, scan).st.w
    ensures SameBodies(Recover(d, scan).st.dir.files, Recover(c, scan).st.dir.files)
  {
    hide Rescannable, Recover, SameBodies, Interruptible;
    var e := c.(files := im.files);
    ImageResumes(d, im, e, scan);
    RecoverSame(e, c, scan);
  }

  /** After a power failure in the recovery of a directory on stable storage even the files are the same. */
  lemma RecoverIdempotentOnDisk(d: Dir, im: Dir, c: Dir, scan: BodyScanner)
    requires Rescannable(scan) && Interruptible(d, scan) && AllSynced(d.files)
    requires Recover(d, scan).ok && im in Recover(d, scan).st.trace && CrashImage(im, c)
    ensures Recover(c, scan).ok && Recover(c, scan).st.w == Recover(d, scan).st.w
    ensures Recover(c, scan).st.dir.files == Recover(d, scan).st.dir.files
  {
    hide Rescannable, Recover, CrashImage, AllSynced, Interruptible;
    ImageSynced(d, im, scan);
    SyncedImageIsIdentical(im, c);
    ImageResumes(d, im, c, scan);
  }
}
