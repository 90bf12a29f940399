/** What an opening that fails leaves behind: no file is lost but those an overlapping segment had superseded. */
module RecoveryRefused {
  import opened Directory
  import opened State
  import opened Recovery
  import opened RecoveryTheorems
  import opened RecoveryIdempotence

  /** The first listed segment that does not follow on, or is damaged. */
  ghost predicate FirstBad(f: Files, names: seq<nat>, i: nat, scan: BodyScanner)
    requires Listed(f, names)
  {
    && i < |names| && !Agreeable(f, names, i, scan)
    && forall k | 0 <= k < i :: Agreeable(f, names, k, scan)
  }

  /** How many of the listed files lie below the last overlap that the opening came to. A segment with a bad header
      is not compared with the one before. */
  function Superseded(f: Files, names: seq<nat>, i: nat, scan: BodyScanner): (j: nat)
    requires Listed(f, names) && i < |names|
    ensures j <= i
  {
    if f[names[i]].headerOk then Start(f, names, i, scan)
    else if i == 0 then 0
    else Start(f, names, i - 1, scan)
  }

  /** The collecting loop at the segment it refuses. */
  lemma RefusesHere(s: St, f: Files, names: seq<nat>, i: nat, segs: seq<Opened>, expected: nat, scan: BodyScanner)
    requires Listed(f, names) && i < |names| && AtStep(s, f, names, i, segs, expected, scan)
    requires !Agreeable(f, names, i, scan)
    ensures var c := Collect(s, names, i, segs, expected, scan);
      && !c.ok && c.st.dir.files == f - Elements(names[..Superseded(f, names, i, scan)])
      && c.st.dir.temps == s.dir.temps
      && Through(s, c.st, (d: Dir) => Without(f, names, Superseded(f, names, i, scan), d.files))
  {
    var j := if i == 0 then 0 else Start(f, names, i - 1, scan);
    ElementsMember(names, j, i);
    var b := names[i];
    assert s.dir.files[b] == f[b];
    hide Elements;
    if i > 0 && b < expected && f[b].headerOk {
      Supersede(s, f, names, j, i, scan);
    }
  }

  lemma BelowBad(f: Files, names: seq<nat>, i: nat, bad: nat, scan: BodyScanner)
    requires Listed(f, names) && i < bad < |names|
    ensures Start(f, names, i, scan) <= Superseded(f, names, bad, scan)
  {
    StartMonotone(f, names, i, bad - 1, scan);
    StartMonotone(f, names, bad - 1, bad, scan);
  }

  lemma {:induction false} CollectRefused(s: St, f: Files, names: seq<nat>, i: nat, segs: seq<Opened>, expected: nat,
                                          scan: BodyScanner)
      returns (bad: nat)
    requires Listed(f, names) && i <= |names| && AtStep(s, f, names, i, segs, expected, scan)
    requires (forall k | 0 <= k < i :: Agreeable(f, names, k, scan)) && !Accepts(f, names, scan)
    ensures FirstBad(f, names, bad, scan) && i <= bad
    ensures var c := Collect(s, names, i, segs, expected, scan);
      && !c.ok && c.st.dir.files == f - Elements(names[..Superseded(f, names, bad, scan)])
      && c.st.dir.temps == s.dir.temps
      && Through(s, c.st, (d: Dir) => Without(f, names, Superseded(f, names, bad, scan), d.files))
    decreases |names| - i
  {
    hide Collect, AtStep, Accepts, Agreeable, End, Elements, Superseded, Without, Through;
    AcceptsIffAgreeable(f, names, scan);
    bad := i;
    if Agreeable(f, names, i, scan) {
      var s1, segs1 := CollectStep(s, f, names, i, segs, expected, scan);
      bad := CollectRefused(s1, f, names, i + 1, segs1, End(f, names[i], scan), scan);
      BelowBad(f, names, i, bad, scan);
      var c := Collect(s, names, i, segs, expected, scan);
      WithoutMore(f, names, Start(f, names, i, scan), Superseded(f, names, bad, scan), s, s1);
      ThroughChain(s, s1, c.st, (d: Dir) => Without(f, names, Superseded(f, names, bad, scan), d.files));
    } else {
      RefusesHere(s, f, names, i, segs, expected, scan);
    }
  }

  /** A refused opening, on any directory: the files it leaves, and those on the way. */
  lemma RefusedLeaves(d: Dir, scan: BodyScanner) returns (i: nat)
    requires !Recover(d, scan).ok
    ensures var f, names, o := d.files, SortedKeys(d.files.Keys), Recover(d, scan);
      && Listed(f, names) && FirstBad(f, names, i, scan)
      && o.st.dir.files == f - Elements(names[..Superseded(f, names, i, scan)]) && o.st.dir.temps == map[]
      && forall im | im in o.st.trace :: Without(f, names, Superseded(f, names, i, scan), im.files)
  {
    hide Recover, Collect, Accepts, Agreeable, Superseded, Without;
    var s, names := RecoverWhole(d, scan);
    var f := d.files;
    AllListed(f, names);
    assert f - Elements(names[..0]) == f && OpenedAt(f, names[0..0], scan) == [];
    i := CollectRefused(s, f, names, 0, [], 0, scan);
    RefusedTrace(d, s, names, i, scan);
  }

  lemma AllListed(f: Files, names: seq<nat>)
    requires Listing(names, f.Keys)
    ensures Listed(f, names)
  {
    forall i | 0 <= i < |names|
      ensures names[i] in f
    {
      assert names[i] in names;
    }
  }

  lemma RefusedTrace(d: Dir, s: St, names: seq<nat>, i: nat, scan: BodyScanner)
    requires Listed(d.files, names) && i < |names|
    requires Through(St(d, s.w, [d]), s, (e: Dir) => e.files == d.files) && |s.trace| > 0 && s.trace[0] == d
    requires var c := Collect(s, names, 0, [], 0, scan);
      !c.ok && Through(s, c.st, (e: Dir) => Without(d.files, names, Superseded(d.files, names, i, scan), e.files))
    ensures RecoverListed(s, names, scan) == Outcome(false, Collect(s, names, 0, [], 0, scan).st)
    ensures forall im | im in RecoverListed(s, names, scan).st.trace ::
      Without(d.files, names, Superseded(d.files, names, i, scan), im.files)
  {
    hide Collect, Superseded;
    var c := Collect(s, names, 0, [], 0, scan);
    forall im | im in c.st.trace
      ensures Without(d.files, names, Superseded(d.files, names, i, scan), im.files)
    {
      var k :| 0 <= k < |c.st.trace| && c.st.trace[k] == im;
      if k < |s.trace| {
        assert im == s.trace[k] && im.files == d.files;
        assert d.files - Elements(names[..0]) == d.files;
      }
    }
  }

  /** A segment with a good header that starts below the end of the one before it in the listing. */
  predicate Overlaps(f: Files, names: seq<nat>, k: nat, scan: BodyScanner)
    requires Listed(f, names)
  {
    0 < k < |names| && f[names[k]].headerOk && names[k] < names[k - 1] + scan(f[names[k - 1]].body).records
  }

  /** So a refused opening removes a file only below a listed segment that overlaps the one before it, and changes
      none; without such a segment it removes nothing at any time. */
  lemma RefusedKeeps(d: Dir, im: Dir, scan: BodyScanner)
    requires !Recover(d, scan).ok && (im in Recover(d, scan).st.trace || im == Recover(d, scan).st.dir)
    ensures Listed(d.files, SortedKeys(d.files.Keys))
    ensures im.files.Keys <= d.files.Keys && forall b | b in im.files :: im.files[b] == d.files[b]
    ensures forall b | b in d.files && b !in im.files ::
      exists k: nat :: Overlaps(d.files, SortedKeys(d.files.Keys), k, scan) && b < SortedKeys(d.files.Keys)[k]
    ensures (forall k: nat :: !Overlaps(d.files, SortedKeys(d.files.Keys), k, scan)) ==> im.files == d.files
  {
    hide Recover, Agreeable;
    var i := RefusedLeaves(d, scan);
    var f, names := d.files, SortedKeys(d.files.Keys);
    var j := Superseded(f, names, i, scan);
    assert Without(f, names, j, im.files);
    var m: nat :| m <= j && im.files == f - Elements(names[..m]);
    LastOverlap(f, names, i, scan);
    hide Superseded, Start, Overlaps, Elements, Listed, FirstBad, Listing, Ascending;
    forall b | b in f && b !in im.files
      ensures j > 0 && b < names[j]
    {
      RemovedBelow(names, m, j, b);
    }
    if j == 0 {
      NoneRemoved(f, names);
    }
  }

  lemma NoneRemoved(f: Files, names: seq<nat>)
    ensures f - Elements(names[..0]) == f
  {
  }

  lemma RemovedBelow(names: seq<nat>, m: nat, j: nat, b: nat)
    requires Ascending(names) && m <= j < |names| && b in Elements(names[..m])
    ensures j > 0 && b < names[j]
  {
    var k :| 0 <= k < m && names[k] == b;
  }

  lemma LastOverlap(f: Files, names: seq<nat>, i: nat, scan: BodyScanner)
    requires Listed(f, names) && FirstBad(f, names, i, scan)
    ensures Superseded(f, names, i, scan) > 0 ==> Overlaps(f, names, Superseded(f, names, i, scan), scan)
  {
    StartIsLastOverlap(f, names, i, scan);
    var j := Superseded(f, names, i, scan);
    if i > 0 {
      StartIsLastOverlap(f, names, i - 1, scan);
    }
    if j < i {
      assert Agreeable(f, names, j, scan);
    }
  }

  /** What is left is refused again, at every moment: a refusal never turns into an acceptance by being interrupted
      or repeated. */
  lemma RefusedAgain(d: Dir, c: Dir, scan: BodyScanner)
    requires !Recover(d, scan).ok
    requires exists im :: (im in Recover(d, scan).st.trace || im == Recover(d, scan).st.dir) && c.files == im.files
    ensures !Recover(c, scan).ok
  {
    hide Recover, Agreeable;
    var i := RefusedLeaves(d, scan);
    var f, names := d.files, SortedKeys(d.files.Keys);
    var j := Superseded(f, names, i, scan);
    var m: nat :| m <= j && c.files == f - Elements(names[..m]);
    BadStays(f, names, i, m, scan);
    ListingSuffix(names, f.Keys, m);
    assert c.files.Keys == f.Keys - Elements(names[..m]);
    var t, tnames := RecoverWhole(c, scan);
    ListingUnique(tnames, names[m..], c.files.Keys);
  }

  lemma BadStays(f: Files, names: seq<nat>, i: nat, m: nat, scan: BodyScanner)
    requires Listed(f, names) && FirstBad(f, names, i, scan) && m <= Superseded(f, names, i, scan)
    ensures var h := f - Elements(names[..m]);
      names[m..] != [] && Listed(h, names[m..]) && !Accepts(h, names[m..], scan)
  {
    var h := f - Elements(names[..m]);
    SuffixListed(f, names, m);
    assert names[m..][i - m] == names[i];
    if i > m {
      assert names[m..][i - m - 1] == names[i - 1];
    }
    AcceptsIffAgreeable(h, names[m..], scan);
    hide Accepts, Elements, Listed;
    assert !Agreeable(h, names[m..], i - m, scan);
  }

  lemma SuffixListed(f: Files, names: seq<nat>, m: nat)
    requires Listed(f, names) && m <= |names|
    ensures var h := f - Elements(names[..m]);
      Listed(h, names[m..]) && forall k | m <= k < |names| :: names[k] in h && h[names[k]] == f[names[k]]
  {
    forall k | m <= k < |names|
      ensures names[k] !in Elements(names[..m])
    {
      ElementsMember(names, m, k);
    }
  }
}
