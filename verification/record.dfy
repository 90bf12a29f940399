/** Framing of one record, and the scan that splits a byte string back into records. */
module Records {
  import opened Wrappers
  import opened Bytes
  import opened Seqs
  import Crc

  const HEADER_SIZE: nat := 16
  const MAX_PAYLOAD: nat := 0xFFFF_FFFF

  datatype Record = Record(lsn: nat, payload: seq<byte>)

  /** The record can be framed, and a scanner limited to `maxRec` accepts its length. */
  predicate Fits(r: Record, maxRec: nat) {
    r.lsn < Pow256(8) && |r.payload| <= MAX_PAYLOAD && |r.payload| <= maxRec
  }

  predicate AllFit(rs: seq<Record>, maxRec: nat) {
    forall i | 0 <= i < |rs| :: Fits(rs[i], maxRec)
  }

  /** CRC32C over the header tail, then the payload. */
  function Checksum(tail: seq<byte>, payload: seq<byte>): (c: nat)
    ensures c < Pow2(32)
  {
    Crc.Update(Crc.Update(0, tail), payload)
  }

  /** Length and LSN: the part of the header the checksum covers. */
  function Tail(r: Record): (t: seq<byte>)
    ensures |t| == 12
  {
    ToLE(|r.payload|, 4) + ToLE(r.lsn, 8)
  }

  /** The bytes of one record on disk: checksum, length, LSN, payload. */
  function Frame(r: Record): (s: seq<byte>)
    ensures |s| == HEADER_SIZE + |r.payload|
  {
    ToLE(Checksum(Tail(r), r.payload), 4) + Tail(r) + r.payload
  }

  datatype ScanError = Torn | Corrupt | TooLarge
  datatype Decoded = Eof | Bad(error: ScanError) | Rec(rec: Record)

  /** What one scanner step makes of the bytes ahead of it. */
  function Decode(s: seq<byte>, maxRec: nat): (d: Decoded)
    ensures d.Rec? ==> |s| >= HEADER_SIZE + |d.rec.payload|
  {
    if |s| == 0 then Eof
    else if |s| < HEADER_SIZE then Bad(Torn)
    else
      var n := FromLE(s[4..8]);
      if n > maxRec then Bad(TooLarge)
      else if |s| < HEADER_SIZE + n then Bad(Torn)
      else if Checksum(s[4..16], s[16..16 + n]) != FromLE(s[..4]) then Bad(Corrupt)
      else Rec(Record(FromLE(s[8..16]), s[16..16 + n]))
  }

  /** The records read, the bytes they take, and why the scan stopped early. */
  datatype Scan = Scan(recs: seq<Record>, offset: nat, err: Option<ScanError>)

  function ScanAll(s: seq<byte>, maxRec: nat): (r: Scan)
    ensures r.offset <= |s|
    decreases |s|
  {
    match Decode(s, maxRec)
    case Eof => Scan([], 0, None)
    case Bad(e) => Scan([], 0, Some(e))
    case Rec(rec) =>
      var size := HEADER_SIZE + |rec.payload|;
      var rest := ScanAll(s[size..], maxRec);
      Scan([rec] + rest.recs, size + rest.offset, rest.err)
  }

  /** The concatenation of the frames of `rs`. */
  function Frames(rs: seq<Record>): seq<byte> {
    if rs == [] then [] else Frame(rs[0]) + Frames(rs[1..])
  }

  /** An incomplete record, or nothing. */
  predicate TornTail(t: seq<byte>, maxRec: nat) {
    t == [] || Decode(t, maxRec) == Bad(Torn)
  }

  lemma {:induction false} FramesConcat(rs: seq<Record>, qs: seq<Record>)
    ensures Frames(rs + qs) == Frames(rs) + Frames(qs)
    decreases |rs|
  {
    if rs == [] {
      assert rs + qs == qs;
    } else {
      assert (rs + qs)[1..] == rs[1..] + qs;
      FramesConcat(rs[1..], qs);
    }
  }

  lemma FrameParts(r: Record, rest: seq<byte>)
    ensures var s := Frame(r) + rest;
      && s[..4] == ToLE(Checksum(Tail(r), r.payload), 4)
      && s[4..16] == Tail(r)
      && s[4..8] == ToLE(|r.payload|, 4)
      && s[8..16] == ToLE(r.lsn, 8)
      && s[16..16 + |r.payload|] == r.payload
  {
    FourParts(ToLE(Checksum(Tail(r), r.payload), 4), ToLE(|r.payload|, 4), ToLE(r.lsn, 8), r.payload, rest);
  }

  /** Decoding undoes framing, whatever follows. */
  lemma DecodeFrame(r: Record, rest: seq<byte>, maxRec: nat)
    requires Fits(r, maxRec)
    ensures Decode(Frame(r) + rest, maxRec) == Rec(r)
  {
    FrameParts(r, rest);
    Powers();
    LERoundTrip(|r.payload|, 4);
    LERoundTrip(r.lsn, 8);
    LERoundTrip(Checksum(Tail(r), r.payload), 4);
  }

  /** A frame cut short is torn; cut away entirely it is a clean end. */
  lemma DecodeCutFrame(r: Record, k: nat, maxRec: nat)
    requires Fits(r, maxRec) && k < |Frame(r)|
    ensures Decode(Frame(r)[..k], maxRec) == if k == 0 then Eof else Bad(Torn)
  {
    FrameParts(r, []);
    assert Frame(r) + [] == Frame(r);
    if k >= HEADER_SIZE {
      assert Frame(r)[..k][4..8] == Frame(r)[4..8];
      Powers();
      LERoundTrip(|r.payload|, 4);
    }
  }

  /** A decoded record does not depend on the bytes after it. */
  lemma DecodeLocal(s: seq<byte>, k: nat, maxRec: nat)
    requires Decode(s, maxRec).Rec? && HEADER_SIZE + |Decode(s, maxRec).rec.payload| <= k <= |s|
    ensures Decode(s[..k], maxRec) == Decode(s, maxRec)
  {
    var n := FromLE(s[4..8]);
    assert s[..k][..4] == s[..4] && s[..k][4..8] == s[4..8] && s[..k][8..16] == s[8..16];
    assert s[..k][4..16] == s[4..16] && s[..k][16..16 + n] == s[16..16 + n];
  }

  lemma TornTailPrefix(t: seq<byte>, k: nat, maxRec: nat)
    requires TornTail(t, maxRec) && k <= |t|
    ensures TornTail(t[..k], maxRec)
  {
    if k >= HEADER_SIZE {
      assert t[..k][4..8] == t[4..8];
    }
  }

  lemma ScanUnfold(s: seq<byte>, rest: seq<byte>, r: Record, maxRec: nat)
    requires Decode(s, maxRec) == Rec(r) && s[HEADER_SIZE + |r.payload|..] == rest
    ensures var q := ScanAll(rest, maxRec);
      ScanAll(s, maxRec) == Scan([r] + q.recs, HEADER_SIZE + |r.payload| + q.offset, q.err)
  {
    hide Decode;
  }

  lemma ScanFrame(r: Record, rest: seq<byte>, maxRec: nat)
    requires Fits(r, maxRec)
    ensures var q := ScanAll(rest, maxRec);
      ScanAll(Frame(r) + rest, maxRec) == Scan([r] + q.recs, |Frame(r)| + q.offset, q.err)
  {
    hide Decode, Frame, ScanAll;
    DecodeFrame(r, rest, maxRec);
    AfterPrefix(Frame(r), rest);
    ScanUnfold(Frame(r) + rest, rest, r, maxRec);
  }

  /** Scanning whole frames and then `t` is scanning `t` with those records in front. */
  lemma {:induction false} ScanFrames(rs: seq<Record>, t: seq<byte>, maxRec: nat)
    requires AllFit(rs, maxRec)
    ensures var r := ScanAll(t, maxRec);
      ScanAll(Frames(rs) + t, maxRec) == Scan(rs + r.recs, |Frames(rs)| + r.offset, r.err)
    decreases |rs|
  {
    var q := ScanAll(t, maxRec).recs;
    if rs == [] {
      EmptyUnit(t);
      EmptyUnit(q);
    } else {
      ScanFrames(rs[1..], t, maxRec);
      ScanFrame(rs[0], Frames(rs[1..]) + t, maxRec);
      ConcatAssociates(Frame(rs[0]), Frames(rs[1..]), t);
      ConcatAssociates([rs[0]], rs[1..], q);
      HeadTail(rs);
    }
  }

  /** ... in particular an incomplete record at the end costs no complete one. */
  lemma ScanTornTail(rs: seq<Record>, t: seq<byte>, maxRec: nat)
    requires AllFit(rs, maxRec) && TornTail(t, maxRec)
    ensures ScanAll(Frames(rs) + t, maxRec) == Scan(rs, |Frames(rs)|, if t == [] then None else Some(Torn))
  {
    ScanFrames(rs, t, maxRec);
    assert ScanAll(t, maxRec) == Scan([], 0, if t == [] then None else Some(Torn));
    assert rs + [] == rs;
  }

  /** How many of the leading records lie wholly within `k` bytes. */
  function WholeRecords(rs: seq<Record>, k: nat): (n: nat)
    ensures n <= |rs|
    decreases |rs|
  {
    if rs == [] || k < |Frame(rs[0])| then 0 else 1 + WholeRecords(rs[1..], k - |Frame(rs[0])|)
  }

  /** A byte prefix is some whole records and an incomplete one. */
  lemma {:induction false} SplitPrefix(rs: seq<Record>, k: nat, maxRec: nat) returns (n: nat, t: seq<byte>)
    requires AllFit(rs, maxRec) && k <= |Frames(rs)|
    ensures n == WholeRecords(rs, k) && Frames(rs)[..k] == Frames(rs[..n]) + t && TornTail(t, maxRec)
    ensures n == |rs| ==> t == []
    ensures n < |rs| ==> |t| < |Frame(rs[n])|
    decreases |rs|
  {
    hide Frame, Decode, Fits;
    if rs == [] {
      n, t := 0, [];
      EmptyUnit(t);
    } else if k < |Frame(rs[0])| {
      n, t := 0, Frame(rs[0])[..k];
      DecodeCutFrame(rs[0], k, maxRec);
      PrefixOfConcat(Frame(rs[0]), Frames(rs[1..]), k);
      EmptyUnit(t);
    } else {
      var j := k - |Frame(rs[0])|;
      var m, u := SplitPrefix(rs[1..], j, maxRec);
      n, t := m + 1, u;
      PrefixOfTail(rs, m);
      PrefixOfConcat(Frame(rs[0]), Frames(rs[1..]), k);
      ConcatAssociates(Frame(rs[0]), Frames(rs[1..][..m]), u);
    }
  }

  lemma FramesSnoc(rs: seq<Record>, r: Record)
    ensures Frames(rs + [r]) == Frames(rs) + Frame(r)
  {
    FramesConcat(rs, [r]);
    assert [r][1..] == [];
    EmptyUnit(Frame(r));
  }

  /** The torn-prefix theorem: scanning any byte prefix yields exactly the records wholly
      inside it, reports their size as the offset, and says torn exactly when the prefix
      ends inside a record. */
  lemma ScanPrefix(rs: seq<Record>, k: nat, maxRec: nat)
    requires AllFit(rs, maxRec) && k <= |Frames(rs)|
    ensures var n := WholeRecords(rs, k);
      && |Frames(rs[..n])| <= k
      && (n < |rs| ==> k < |Frames(rs[..n + 1])|)
      && ScanAll(Frames(rs)[..k], maxRec)
         == Scan(rs[..n], |Frames(rs[..n])|, if k == |Frames(rs[..n])| then None else Some(Torn))
  {
    hide Frames, Frame, ScanAll, TornTail, WholeRecords, Decode, Fits;
    var n, t := SplitPrefix(rs, k, maxRec);
    ScanTornTail(rs[..n], t, maxRec);
    if n < |rs| {
      TakeSnoc(rs, n);
      FramesSnoc(rs[..n], rs[n]);
    }
  }

  /** What a scan accepted is read again in full once everything after it is cut off. */
  lemma {:induction false} ScanValidPrefix(s: seq<byte>, maxRec: nat)
    ensures var r := ScanAll(s, maxRec);
      ScanAll(s[..r.offset], maxRec) == Scan(r.recs, r.offset, None)
    decreases |s|
  {
    hide Decode;
    var d := Decode(s, maxRec);
    if d.Rec? {
      hide ScanAll;
      var size := HEADER_SIZE + |d.rec.payload|;
      var rest := s[size..];
      var k := ScanAll(rest, maxRec).offset;
      ScanUnfold(s, rest, d.rec, maxRec);
      ScanValidPrefix(rest, maxRec);
      DecodeLocal(s, size + k, maxRec);
      SliceOfPrefix(s, size, k);
      ScanUnfold(s[..size + k], rest[..k], d.rec, maxRec);
    } else {
      assert s[..0] == [];
      ScanNothing(maxRec);
    }
  }

  lemma ScanNothing(maxRec: nat)
    ensures ScanAll([], maxRec) == Scan([], 0, None)
  {
  }

  /** A clean scan has consumed everything. */
  lemma {:induction false} CleanScanConsumesAll(s: seq<byte>, maxRec: nat)
    ensures ScanAll(s, maxRec).err == None <==> ScanAll(s, maxRec).offset == |s|
    decreases |s|
  {
    var d := Decode(s, maxRec);
    if d.Rec? {
      CleanScanConsumesAll(s[HEADER_SIZE + |d.rec.payload|..], maxRec);
    }
  }

  /** Where a changed byte shows up. */
  lemma FlippedParts(r: Record, rest: seq<byte>, i: nat, x: byte)
    requires i < |Frame(r)| && !(4 <= i < 8) && Frame(r)[i] != x
    ensures var n, bad, good := |r.payload|, Frame(r)[i := x] + rest, Frame(r) + rest;
      && bad[4..8] == good[4..8]
      && if i < 4 then bad[..4] != good[..4] && bad[4..16] == good[4..16] && bad[16..16 + n] == good[16..16 + n]
         else
           var covered := Tail(r) + r.payload;
           bad[..4] == good[..4] && bad[4..16] + bad[16..16 + n] == covered[i - 4 := x] && covered[i - 4] != x
  {
    hide Frame, Tail, Checksum, ToLE;
    var n, good := |r.payload|, Frame(r) + rest;
    FrameParts(r, rest);
    UpdateLeft(Frame(r), rest, i, x);
    UpdateBefore(good, i, x, 4, 8);
    if i < 4 {
      assert good[i := x][..4][i] != good[..4][i];
      UpdateBefore(good, i, x, 4, 16);
      UpdateBefore(good, i, x, 16, 16 + n);
    } else {
      UpdateBefore(good, i, x, 0, 4);
      UpdateInside(good, i, x, 4, 16, 16 + n);
    }
  }

  /** A change confined to one byte of the stored checksum, the LSN or the payload never goes unnoticed. */
  lemma FlipIsCorrupt(r: Record, rest: seq<byte>, i: nat, x: byte, maxRec: nat)
    requires Fits(r, maxRec)
    requires i < |Frame(r)| && !(4 <= i < 8) && Frame(r)[i] != x
    ensures Decode(Frame(r)[i := x] + rest, maxRec) == Bad(Corrupt)
  {
    hide Frame, Tail, Checksum, Crc.Update, Decode, FromLE, ToLE;
    var n, bad, good := |r.payload|, Frame(r)[i := x] + rest, Frame(r) + rest;
    FrameParts(r, rest);
    FlippedParts(r, rest, i, x);
    Powers();
    LERoundTrip(n, 4);
    LERoundTrip(Checksum(Tail(r), r.payload), 4);
    ChecksumChains(Tail(r), r.payload);
    ChecksumChains(bad[4..16], bad[16..16 + n]);
    if i < 4 {
      if FromLE(bad[..4]) == FromLE(good[..4]) {
        LEInjective(bad[..4], good[..4]);
      }
    } else {
      Crc.OneByteChangesCrc(0, Tail(r) + r.payload, i - 4, x);
    }
    DecodeCorrupt(bad, n, maxRec);
  }

  lemma DecodeCorrupt(s: seq<byte>, n: nat, maxRec: nat)
    requires |s| >= HEADER_SIZE + n && FromLE(s[4..8]) == n <= maxRec
    requires Checksum(s[4..16], s[16..16 + n]) != FromLE(s[..4])
    ensures Decode(s, maxRec) == Bad(Corrupt)
  {
  }

  lemma ChecksumChains(tail: seq<byte>, payload: seq<byte>)
    ensures Checksum(tail, payload) == Crc.Update(0, tail + payload)
  {
    Crc.UpdateChains(0, tail, payload);
  }

  /** So a scan over a damaged log keeps exactly the records before the damage and says why it stopped. */
  lemma ScanStopsAtFlip(before: seq<Record>, r: Record, rest: seq<byte>, i: nat, x: byte, maxRec: nat)
    requires AllFit(before, maxRec) && Fits(r, maxRec)
    requires i < |Frame(r)| && !(4 <= i < 8) && Frame(r)[i] != x
    ensures ScanAll(Frames(before) + (Frame(r)[i := x] + rest), maxRec) == Scan(before, |Frames(before)|, Some(Corrupt))
  {
    FlipIsCorrupt(r, rest, i, x, maxRec);
    ScanFrames(before, Frame(r)[i := x] + rest, maxRec);
    assert before + [] == before;
  }

  /** A record longer than the limit is refused, whatever its bytes: the scan keeps the records before it. */
  lemma ScanStopsAtOversized(before: seq<Record>, r: Record, rest: seq<byte>, maxRec: nat)
    requires AllFit(before, maxRec) && maxRec < |r.payload| <= MAX_PAYLOAD
    ensures ScanAll(Frames(before) + (Frame(r) + rest), maxRec) == Scan(before, |Frames(before)|, Some(TooLarge))
  {
    FrameParts(r, rest);
    Powers();
    LERoundTrip(|r.payload|, 4);
    assert Decode(Frame(r) + rest, maxRec) == Bad(TooLarge);
    hide Frame, Decode;
    ScanFrames(before, Frame(r) + rest, maxRec);
    EmptyUnit(before);
  }
}
