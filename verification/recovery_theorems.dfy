/** What recovery does to an arbitrary directory, in closed form, and that it survives crashes of its own. */
module RecoveryTheorems {
  import opened Directory
  import opened State
  import opened Recovery

  function Res(f: Files, b: nat, scan: BodyScanner): ScanResult
    requires b in f
  {
    scan(f[b].body)
  }

  predicate Listed(f: Files, names: seq<nat>) {
    Ascending(names) && forall i | 0 <= i < |names| :: names[i] in f
  }

  /** One past the last record of a segment. */
  function End(f: Files, b: nat, scan: BodyScanner): nat
    requires b in f
  {
    b + Res(f, b, scan).records
  }

  /** The directories recovery accepts: valid headers, clean scans except at the very end, no gaps. */
  predicate Accepts(f: Files, names: seq<nat>, scan: BodyScanner)
    requires Listed(f, names)
  {
    && (forall i | 0 <= i < |names| :: f[names[i]].headerOk)
    && (forall i | 0 <= i < |names| - 1 :: Follows(f, names, i, scan))
  }

  /** Segment `i` scans cleanly and the next one starts no later than it ends. */
  predicate Follows(f: Files, names: seq<nat>, i: nat, scan: BodyScanner)
    requires Listed(f, names) && i < |names| - 1
  {
    Res(f, names[i], scan).err.None? && names[i + 1] <= End(f, names[i], scan)
  }

  /** The last place at or before `i` where a base lies below the end of its predecessor. */
  function Start(f: Files, names: seq<nat>, i: nat, scan: BodyScanner): (j: nat)
    requires Listed(f, names) && i < |names|
    ensures j <= i
    decreases i
  {
    if i == 0 || names[i] < End(f, names[i - 1], scan) then i else Start(f, names, i - 1, scan)
  }

  function OpenedAt(f: Files, bs: seq<nat>, scan: BodyScanner): (segs: seq<Opened>)
    requires forall i | 0 <= i < |bs| :: bs[i] in f
    ensures |segs| == |bs|
  {
    seq(|bs|, i requires 0 <= i < |bs| => Opened(bs[i], Res(f, bs[i], scan)))
  }

  lemma {:induction false} RemoveAllEffect(s: St, bs: seq<nat>)
    ensures var r := RemoveAll(s, bs);
      && r.dir.files == s.dir.files - Elements(bs)
      && r.dir.temps == s.dir.temps && r.w == s.w
      && s.trace <= r.trace && |r.trace| == |s.trace| + |bs|
      && (forall k | |s.trace| <= k < |r.trace| :: r.trace[k].files == s.dir.files - Elements(bs[..k + 1 - |s.trace|]))
    decreases |bs|
  {
    if bs != [] {
      var t := Do(s, Remove(bs[0]));
      RemoveAllEffect(t, bs[1..]);
      var r := RemoveAll(s, bs);
      ElementsCons(bs);
      assert t.dir.files == s.dir.files - {bs[0]};
      forall k | |s.trace| <= k < |r.trace|
        ensures r.trace[k].files == s.dir.files - Elements(bs[..k + 1 - |s.trace|])
      {
        var m := k - |s.trace|;
        ElementsCons(bs[..m + 1]);
        if m == 0 {
          assert r.trace[k] == t.trace[k];
        } else {
          assert bs[..m + 1][1..] == bs[1..][..m];
        }
      }
    }
  }

  lemma ElementsCons(bs: seq<nat>)
    requires bs != []
    ensures Elements(bs) == {bs[0]} + Elements(bs[1..])
  {
  }

  /** `g` is `f` without some of its first `n` listed files. */
  ghost predicate Without(f: Files, names: seq<nat>, n: nat, g: Files)
    requires n <= |names|
  {
    exists m: nat :: m <= n && g == f - Elements(names[..m])
  }

  /** The images passed on the way from `s` to `r`. */
  ghost predicate Through(s: St, r: St, p: Dir -> bool) {
    && s.trace <= r.trace
    && forall k | |s.trace| <= k < |r.trace| :: p(r.trace[k])
  }

  lemma ThroughChain(s: St, t: St, r: St, p: Dir -> bool)
    requires Through(s, t, p) && Through(t, r, p)
    ensures Through(s, r, p)
  {
    forall k | |s.trace| <= k < |r.trace|
      ensures p(r.trace[k])
    {
      if k < |t.trace| {
        assert r.trace[k] == t.trace[k];
      }
    }
  }

  /** How the loop stands before looking at `names[i]`: the first `i` segments passed, the ones
      before `names[j]` are superseded and removed, the rest are collected. */
  ghost predicate AtStep(s: St, f: Files, names: seq<nat>, i: nat, segs: seq<Opened>, expected: nat, scan: BodyScanner)
    requires Listed(f, names) && i <= |names|
  {
    var j := if i == 0 then 0 else Start(f, names, i - 1, scan);
    && s.dir.files == f - Elements(names[..j])
    && segs == OpenedAt(f, names[j..i], scan)
    && (i > 0 ==> expected == End(f, names[i - 1], scan))
  }

  predicate Agreeable(f: Files, names: seq<nat>, i: nat, scan: BodyScanner)
    requires Listed(f, names) && i < |names|
  {
    && f[names[i]].headerOk
    && (i > 0 ==> names[i] <= End(f, names[i - 1], scan))
    && (i < |names| - 1 ==> Res(f, names[i], scan).err.None?)
  }

  lemma AcceptsIffAgreeable(f: Files, names: seq<nat>, scan: BodyScanner)
    requires Listed(f, names)
    ensures Accepts(f, names, scan) <==> forall i | 0 <= i < |names| :: Agreeable(f, names, i, scan)
  {
    if forall i | 0 <= i < |names| :: Agreeable(f, names, i, scan) {
      forall i | 0 <= i < |names|
        ensures f[names[i]].headerOk
      {
        assert Agreeable(f, names, i, scan);
      }
      forall i | 0 <= i < |names| - 1
        ensures Follows(f, names, i, scan)
      {
        assert Agreeable(f, names, i, scan) && Agreeable(f, names, i + 1, scan);
      }
    }
    if Accepts(f, names, scan) {
      forall i | 0 <= i < |names|
        ensures Agreeable(f, names, i, scan)
      {
        if i > 0 {
          assert Follows(f, names, i - 1, scan);
        }
        if i < |names| - 1 {
          assert Follows(f, names, i, scan);
        }
      }
    }
  }

  lemma ElementsMember(names: seq<nat>, j: nat, i: nat)
    requires Ascending(names) && j <= i < |names|
    ensures names[i] !in Elements(names[..j])
  {
  }

  lemma ElementsJoin(names: seq<nat>, j: nat, i: nat)
    requires j <= i <= |names|
    ensures Elements(names[..i]) == Elements(names[..j]) + Elements(names[j..i])
  {
    assert names[..i] == names[..j] + names[j..i];
  }

  lemma BasesOf(f: Files, bs: seq<nat>, scan: BodyScanner)
    requires forall i | 0 <= i < |bs| :: bs[i] in f
    ensures Bases(OpenedAt(f, bs, scan)) == bs
  {
  }

  /** Finishing an interrupted cut removes the superseded files one by one, lowest first. */
  lemma Supersede(s: St, f: Files, names: seq<nat>, j: nat, i: nat, scan: BodyScanner)
    requires Listed(f, names) && j <= i < |names|
    requires s.dir.files == f - Elements(names[..j])
    ensures var r := RemoveAll(s, Bases(OpenedAt(f, names[j..i], scan)));
      && r.dir.files == f - Elements(names[..i]) && r.w == s.w && r.dir.temps == s.dir.temps
      && Through(s, r, (d: Dir) => Without(f, names, i, d.files))
  {
    hide Elements, RemoveAll;
    BasesOf(f, names[j..i], scan);
    var bs := names[j..i];
    var r := RemoveAll(s, bs);
    RemoveAllEffect(s, bs);
    ElementsJoin(names, j, i);
    assert r.dir.files == f - Elements(names[..i]);
    forall k | |s.trace| <= k < |r.trace|
      ensures Without(f, names, i, r.trace[k].files)
    {
      var m := k + 1 - |s.trace|;
      ElementsJoin(names, j, j + m);
      assert bs[..m] == names[j..j + m];
      assert r.trace[k].files == f - Elements(names[..j + m]);
    }
  }

  lemma WithoutMore(f: Files, names: seq<nat>, m: nat, n: nat, s: St, r: St)
    requires m <= n <= |names| && Through(s, r, (d: Dir) => Without(f, names, m, d.files))
    ensures Through(s, r, (d: Dir) => Without(f, names, n, d.files))
  {
    forall k | |s.trace| <= k < |r.trace|
      ensures Without(f, names, n, r.trace[k].files)
    {
      assert Without(f, names, m, r.trace[k].files);
    }
  }

  lemma StartMonotone(f: Files, names: seq<nat>, i: nat, k: nat, scan: BodyScanner)
    requires Listed(f, names) && i <= k < |names|
    ensures Start(f, names, i, scan) <= Start(f, names, k, scan)
    decreases k
  {
    if i < k {
      StartMonotone(f, names, i, k - 1, scan);
    }
  }

  lemma OpenedSnoc(f: Files, names: seq<nat>, j: nat, i: nat, scan: BodyScanner)
    requires Listed(f, names) && j <= i < |names|
    ensures OpenedAt(f, names[j..i + 1], scan)
         == OpenedAt(f, names[j..i], scan) + [Opened(names[i], Res(f, names[i], scan))]
  {
    assert names[j..i + 1] == names[j..i] + [names[i]];
  }

  /** One accepted turn of the loop. */
  lemma CollectStep(s: St, f: Files, names: seq<nat>, i: nat, segs: seq<Opened>, expected: nat, scan: BodyScanner)
      returns (s1: St, segs1: seq<Opened>)
    requires Listed(f, names) && i < |names| && AtStep(s, f, names, i, segs, expected, scan)
    requires Agreeable(f, names, i, scan)
    ensures AtStep(s1, f, names, i + 1, segs1, End(f, names[i], scan), scan)
    ensures Collect(s, names, i, segs, expected, scan) == Collect(s1, names, i + 1, segs1, End(f, names[i], scan), scan)
    ensures s1.w == s.w && s1.dir.temps == s.dir.temps
    ensures Through(s, s1, (d: Dir) => Without(f, names, Start(f, names, i, scan), d.files))
  {
    var j := if i == 0 then 0 else Start(f, names, i - 1, scan);
    ElementsMember(names, j, i);
    var b := names[i];
    assert s.dir.files[b] == f[b];
    var seg := Opened(b, Res(f, b, scan));
    if i > 0 && b < expected {
      Supersede(s, f, names, j, i, scan);
      OpenedSnoc(f, names, i, i, scan);
      assert OpenedAt(f, names[i..i], scan) == [];
      s1, segs1 := RemoveAll(s, Bases(segs)), [] + [seg];
    } else {
      OpenedSnoc(f, names, j, i, scan);
      s1, segs1 := s, segs + [seg];
    }
  }

  lemma CollectRefuses(s: St, f: Files, names: seq<nat>, i: nat, segs: seq<Opened>, expected: nat, scan: BodyScanner)
    requires Listed(f, names) && i < |names| && AtStep(s, f, names, i, segs, expected, scan)
    requires !Agreeable(f, names, i, scan)
    ensures !Collect(s, names, i, segs, expected, scan).ok
  {
    ElementsMember(names, if i == 0 then 0 else Start(f, names, i - 1, scan), i);
  }

  /** The collecting loop in closed form: it succeeds exactly on the accepted directories, and
      then keeps the segments from the last overlap on. */
  lemma {:induction false} CollectClosed(s: St, f: Files, names: seq<nat>, i: nat, segs: seq<Opened>, expected: nat,
                                         scan: BodyScanner)
    requires Listed(f, names) && names != [] && i <= |names|
    requires AtStep(s, f, names, i, segs, expected, scan)
    requires forall k | 0 <= k < i :: Agreeable(f, names, k, scan)
    ensures var c := Collect(s, names, i, segs, expected, scan);
      && c.ok == Accepts(f, names, scan)
      && (c.ok ==> Kept(s, c, f, names, scan))
    decreases |names| - i
  {
    hide Collect, AtStep, Kept, Accepts, Agreeable, End;
    AcceptsIffAgreeable(f, names, scan);
    if i == |names| {
      CollectDone(s, f, names, segs, expected, scan);
    } else if Agreeable(f, names, i, scan) {
      var s1, segs1 := CollectStep(s, f, names, i, segs, expected, scan);
      CollectClosed(s1, f, names, i + 1, segs1, End(f, names[i], scan), scan);
      var c := Collect(s, names, i, segs, expected, scan);
      if c.ok {
        KeptEarlier(s, s1, c, f, names, i, scan);
      }
    } else {
      CollectRefuses(s, f, names, i, segs, expected, scan);
    }
  }

  lemma CollectDone(s: St, f: Files, names: seq<nat>, segs: seq<Opened>, expected: nat, scan: BodyScanner)
    requires Listed(f, names) && names != [] && AtStep(s, f, names, |names|, segs, expected, scan)
    ensures var c := Collect(s, names, |names|, segs, expected, scan);
      c.ok && Kept(s, c, f, names, scan)
  {
    var j := Start(f, names, |names| - 1, scan);
    assert names[j..] == names[j..|names|];
  }

  ghost predicate Kept(s: St, c: Collected, f: Files, names: seq<nat>, scan: BodyScanner)
    requires Listed(f, names) && names != []
  {
    var j := Start(f, names, |names| - 1, scan);
    && c.segs == OpenedAt(f, names[j..], scan)
    && c.st.dir.files == f - Elements(names[..j])
    && c.st.w == s.w && c.st.dir.temps == s.dir.temps
    && Through(s, c.st, (d: Dir) => Without(f, names, j, d.files))
  }

  lemma KeptEarlier(s: St, s1: St, c: Collected, f: Files, names: seq<nat>, i: nat, scan: BodyScanner)
    requires Listed(f, names) && i < |names| && Kept(s1, c, f, names, scan)
    requires s1.w == s.w && s1.dir.temps == s.dir.temps
    requires Through(s, s1, (d: Dir) => Without(f, names, Start(f, names, i, scan), d.files))
    ensures Kept(s, c, f, names, scan)
  {
    var j := Start(f, names, |names| - 1, scan);
    StartMonotone(f, names, i, |names| - 1, scan);
    WithoutMore(f, names, Start(f, names, i, scan), j, s, s1);
    ThroughChain(s, s1, c.st, (d: Dir) => Without(f, names, j, d.files));
  }
}
