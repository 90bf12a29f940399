/** When a cut fails, and that it then changes nothing. */
module CutRefusal {
  import opened Bytes
  import opened Records
  import opened Directory
  import opened State
  import opened WriterOps

  /** On the way from `s` to `r` the segment files and the index stayed as they were; the temp file `cut` at most came
      or went. */
  ghost predicate OnlyTemp(s: St, r: St, cut: nat) {
    && r.w == s.w && r.dir.files == s.dir.files && r.dir.unlinked == s.dir.unlinked
    && r.dir.temps - {cut} == s.dir.temps - {cut}
    && s.trace <= r.trace && forall k | |s.trace| <= k < |r.trace| :: r.trace[k].files == s.dir.files
  }

  lemma OnlyTempStep(s: St, r: St, cut: nat, step: Step)
    requires OnlyTemp(s, r, cut)
    requires step == RemoveTemp(cut) || step == CreateTemp(cut) || (step.WriteTemp? && step.base == cut)
    ensures OnlyTemp(s, Do(r, step), cut)
  {
    var t := Do(r, step);
    forall k | |s.trace| <= k < |t.trace|
      ensures t.trace[k].files == s.dir.files
    {
      if k < |r.trace| {
        assert t.trace[k] == r.trace[k];
      }
    }
  }

  lemma {:induction false} WritesOnlyTemp(s: St, r: St, cut: nat, rs: seq<Record>)
    requires OnlyTemp(s, r, cut)
    ensures OnlyTemp(s, WriteTemps(r, cut, rs), cut)
    decreases |rs|
  {
    hide OnlyTemp, Do, Frame;
    if rs != [] {
      if rs[0].lsn >= cut {
        OnlyTempStep(s, r, cut, WriteTemp(cut, Frame(rs[0])));
      }
      WritesOnlyTemp(s, if rs[0].lsn < cut then r else Do(r, WriteTemp(cut, Frame(rs[0]))), cut, rs[1..]);
    }
  }

  /** A rewrite fails exactly when the segment does not scan cleanly, and then leaves no temp file. */
  lemma RewriteRefused(s: St, body: seq<byte>, cut: nat, cfg: Config)
    ensures var a := RewriteFrom(s, body, cut, cfg);
      && a.ok == ScanAll(body, cfg.maxRecordSize).err.None?
      && (!a.ok ==> OnlyTemp(s, a.st, cut) && cut !in a.st.dir.temps)
  {
    hide OnlyTemp, ScanAll, WriteTemps;
    assert OnlyTemp(s, s, cut) by {
      StartsQuiet(s, cut);
    }
    OnlyTempStep(s, s, cut, RemoveTemp(cut));
    var s1 := Do(s, RemoveTemp(cut));
    OnlyTempStep(s, s1, cut, CreateTemp(cut));
    var s2, rs := Do(s1, CreateTemp(cut)), ScanAll(body, cfg.maxRecordSize).recs;
    WritesOnlyTemp(s, s2, cut, rs);
    OnlyTempStep(s, WriteTemps(s2, cut, rs), cut, RemoveTemp(cut));
  }

  lemma StartsQuiet(s: St, cut: nat)
    ensures OnlyTemp(s, s, cut)
  {
  }

  /** A cut fails exactly when it falls inside a segment, the `k`-th, whose file is missing, or sealed under a bad
      header, or does not scan cleanly. */
  lemma CutFails(s: St, upTo: nat, k: nat, cfg: Config)
    requires Ascending(s.w.bases) && k < |s.w.bases| && 0 < s.w.firstLSN < upTo < s.w.nextLSN
    requires s.w.bases[k] <= upTo && (k + 1 < |s.w.bases| ==> upTo < s.w.bases[k + 1])
    ensures Cut(s, upTo, cfg).ok <==>
      var b := s.w.bases[k];
      || b == upTo
      || (b in s.dir.files && (k + 1 < |s.w.bases| ==> s.dir.files[b].headerOk)
          && ScanAll(s.dir.files[b].body, cfg.maxRecordSize).err.None?)
  {
    hide RewriteFrom, ScanAll;
    BoundaryAt(s.w.bases, upTo, k);
    if s.w.bases[k] in s.dir.files {
      RewriteRefused(s, s.dir.files[s.w.bases[k]].body, upTo, cfg);
    }
  }

  lemma {:induction false} BoundaryAt(bs: seq<nat>, cut: nat, k: nat)
    requires Ascending(bs) && k < |bs| && bs[k] <= cut && (k + 1 < |bs| ==> cut < bs[k + 1])
    ensures BoundaryIndex(bs, cut) == k
    decreases k
  {
    if k > 0 {
      BoundaryAt(bs[1..], cut, k - 1);
    }
  }

  /** A cut that fails changes neither a segment file, at any of its steps, nor the index, and leaves no temp file of
      its own. */
  lemma FailedCutChangesNothing(s: St, upTo: nat, cfg: Config)
    requires s.w.bases != [] && !Cut(s, upTo, cfg).ok
    ensures var r := Cut(s, upTo, cfg).st;
      OnlyTemp(s, r, Min(upTo, s.w.nextLSN)) && (r == s || Min(upTo, s.w.nextLSN) !in r.dir.temps)
  {
    hide RewriteFrom, ScanAll, BoundaryIndex, OnlyTemp;
    var cut := Min(upTo, s.w.nextLSN);
    StartsQuiet(s, cut);
    var b := s.w.bases[BoundaryIndex(s.w.bases, cut)];
    if b in s.dir.files {
      RewriteRefused(s, s.dir.files[b].body, cut, cfg);
    }
  }
}
