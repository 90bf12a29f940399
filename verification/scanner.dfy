/** The record layer as it runs: the encoder that fills a header in place, and the scanner that reads
    record after record into one reused buffer. */
module Scanning {
  import opened Wrappers
  import opened Bytes
  import opened Seqs
  import opened Records
  import opened Directory
  import opened State

  /** Writes the low `w` bytes of `n` at `at`, least significant first. */
  method PutLE(a: array<byte>, at: nat, n: nat, w: nat)
    requires at + w <= a.Length
    modifies a
    ensures a[..] == Put(old(a[..]), at, ToLE(n, w))
    decreases w
  {
    ghost var before := a[..];
    if w == 0 {
      assert before == Put(before, at, ToLE(n, w));
    } else {
      var low: byte := n % 256;
      a[at] := low;
      assert a[..] == before[at := low];
      PutOne(before, at, low, ToLE(n / 256, w - 1));
      PutLE(a, at + 1, n / 256, w - 1);
    }
  }

  /** `s` with `bytes` in place of what was at `at`. */
  function Put(s: seq<byte>, at: nat, bytes: seq<byte>): seq<byte>
    requires at + |bytes| <= |s|
  {
    s[..at] + bytes + s[at + |bytes|..]
  }

  lemma PutOne(s: seq<byte>, at: nat, x: byte, rest: seq<byte>)
    requires at + 1 + |rest| <= |s|
    ensures Put(s[at := x], at + 1, rest) == Put(s, at, [x] + rest)
  {
  }

  /** A header put together field by field, the checksum last. */
  lemma HeaderFields(blank: seq<byte>, len: seq<byte>, lsn: seq<byte>, crc: seq<byte>)
    requires |blank| == HEADER_SIZE && |len| == |crc| == 4 && |lsn| == 8
    ensures var s := Put(Put(blank, 4, len), 8, lsn);
      s[4..16] == len + lsn && Put(s, 0, crc) == crc + (len + lsn)
  {
    var t := Put(blank, 4, len);
    assert t[4..8] == len;
    var s := Put(t, 8, lsn);
    assert s[4..8] == t[4..8] && s[8..16] == lsn;
    assert s[4..16] == s[4..8] + s[8..16] && s[4..] == s[4..16];
  }

  /** Appends the framed record to `dst`; refuses a payload whose length does not fit the header. */
  method Encode(dst: seq<byte>, lsn: nat, payload: seq<byte>) returns (ok: bool, encoded: seq<byte>)
    ensures ok <==> |payload| <= MAX_PAYLOAD
    ensures ok ==> encoded == dst + Frame(Record(lsn, payload))
  {
    if |payload| > MAX_PAYLOAD {
      return false, [];
    }
    hide Put, Crc.Update;
    var hdr := new byte[HEADER_SIZE];
    ghost var blank := hdr[..];
    PutLE(hdr, 4, |payload|, 4);
    PutLE(hdr, 8, lsn, 8);
    var tail := hdr[..][4..16];
    var crc := Crc.Update(Crc.Update(0, tail), payload);
    HeaderFields(blank, ToLE(|payload|, 4), ToLE(lsn, 8), ToLE(crc, 4));
    PutLE(hdr, 0, crc, 4);
    encoded := dst + hdr[..] + payload;
    ConcatAssociates(dst, hdr[..], payload);
    ok := true;
  }

  /** The outcome of a scanner step that finds `d` ahead of it. */
  predicate Advances(s: seq<byte>, valid: nat, d: Decoded, more: bool, err: Option<ScanError>, current: Record,
                     rest: seq<byte>, validNow: nat) {
    match d
    case Eof => !more && err == None && validNow == valid
    case Bad(e) => !more && err == Some(e) && validNow == valid
    case Rec(r) =>
      && more && err == None && current == r && |s| >= HEADER_SIZE + |r.payload|
      && rest == s[HEADER_SIZE + |r.payload|..] && validNow == valid + HEADER_SIZE + |r.payload|
  }

  lemma AdvancesNot(s: seq<byte>, valid: nat, d: Decoded, err: Option<ScanError>, current: Record, rest: seq<byte>)
    requires (d == Eof && err == None) || (d.Bad? && err == Some(d.error))
    ensures Advances(s, valid, d, false, err, current, rest, valid)
  {
  }

  lemma AdvancesPast(s: seq<byte>, valid: nat, d: Decoded, r: Record, rest: seq<byte>, n: nat)
    requires d == Rec(r) && n == |r.payload| && |s| >= HEADER_SIZE + n && rest == s[HEADER_SIZE + n..]
    ensures Advances(s, valid, d, true, None, r, rest, valid + HEADER_SIZE + n)
  {
  }

  datatype ReadOutcome = ReadAll | ReadNone | ReadShort

  class Scanner {
    /** The bytes not read yet. */
    var source: seq<byte>
    var firstErr: Option<ScanError>
    /** Reused from record to record. */
    var payloadBuf: array<byte>
    var currentLSN: nat
    var currentLen: nat
    const maxRecBytes: nat
    var validBytes: nat

    constructor (source: seq<byte>, maxRecordBytes: nat)
      ensures Valid() && fresh(payloadBuf)
      ensures this.source == source && maxRecBytes == maxRecordBytes && validBytes == 0 && firstErr == None
    {
      this.source := source;
      firstErr := None;
      payloadBuf := new byte[0];
      currentLSN, currentLen := 0, 0;
      maxRecBytes := maxRecordBytes;
      validBytes := 0;
    }

    ghost predicate Valid()
      reads this
    {
      currentLen <= payloadBuf.Length
    }

    /** The record read last; its payload lives in the buffer and is gone with the next call of Next. */
    function Current(): Record
      reads this, payloadBuf
      requires Valid()
    {
      Record(currentLSN, payloadBuf[..currentLen])
    }

    /** Fills `buf[..n]` from the source, as far as that goes. */
    method ReadFull(buf: array<byte>, n: nat) returns (outcome: ReadOutcome)
      requires n <= buf.Length
      modifies this`source, buf
      ensures outcome == if n <= |old(source)| then ReadAll else if old(source) == [] then ReadNone else ReadShort
      ensures outcome == ReadAll ==> buf[..n] == old(source)[..n] && source == old(source)[n..]
    {
      var got := if n <= |source| then n else |source|;
      forall i | 0 <= i < got {
        buf[i] := source[i];
      }
      outcome := if got == n then ReadAll else if got == 0 then ReadNone else ReadShort;
      source := source[got..];
    }

    /** A clean end at a record boundary is no error; an incomplete header is torn. */
    method ReadHeader(header: array<byte>) returns (found: bool, err: Option<ScanError>)
      requires header.Length == HEADER_SIZE
      modifies this`source, header
      ensures var s := old(source);
        && (found <==> |s| >= HEADER_SIZE)
        && (found ==> err == None && header[..] == s[..HEADER_SIZE] && source == s[HEADER_SIZE..])
        && (!found ==> err == if s == [] then None else Some(Torn))
    {
      var outcome := ReadFull(header, HEADER_SIZE);
      found, err := outcome == ReadAll, if outcome == ReadShort then Some(Torn) else None;
    }

    /** Reads `n` bytes into the buffer, growing it if need be. */
    method ReadPayload(n: nat) returns (err: Option<ScanError>)
      modifies this`source, this`payloadBuf, payloadBuf
      ensures payloadBuf == old(payloadBuf) || fresh(payloadBuf)
      ensures n <= payloadBuf.Length && payloadBuf.Length >= old(payloadBuf.Length)
      ensures err == if n <= |old(source)| then None else Some(Torn)
      ensures err == None ==> payloadBuf[..n] == old(source)[..n] && source == old(source)[n..]
    {
      if n == 0 {
        return None;
      }
      if payloadBuf.Length < n {
        payloadBuf := new byte[n];
      }
      var outcome := ReadFull(payloadBuf, n);
      err := if outcome == ReadAll then None else Some(Torn);
    }

    /** Reads the payload and compares its checksum with the one in the header. */
    method ReadChecked(fields: seq<byte>, n: nat) returns (err: Option<ScanError>)
      requires |fields| == HEADER_SIZE
      modifies this`source, this`payloadBuf, payloadBuf
      ensures payloadBuf == old(payloadBuf) || fresh(payloadBuf)
      ensures n <= payloadBuf.Length && payloadBuf.Length >= old(payloadBuf.Length)
      ensures err == if n > |old(source)| then Some(Torn)
                     else if Checksum(fields[4..16], old(source)[..n]) != FromLE(fields[0..4]) then Some(Corrupt)
                     else None
      ensures err == None ==> payloadBuf[..n] == old(source)[..n] && source == old(source)[n..]
    {
      hide Checksum, FromLE;
      err := ReadPayload(n);
      if err == None && Checksum(fields[4..16], payloadBuf[..n]) != FromLE(fields[0..4]) {
        err := Some(Corrupt);
      }
    }

    /** Makes what is in the buffer the current record. */
    method Take(lsn: nat, n: nat)
      requires n <= payloadBuf.Length
      modifies this`currentLSN, this`currentLen, this`validBytes
      ensures Valid() && Current() == Record(lsn, payloadBuf[..n]) && validBytes == old(validBytes) + HEADER_SIZE + n
    {
      validBytes := validBytes + HEADER_SIZE + n;
      currentLSN, currentLen := lsn, n;
    }

    /** One record, a clean end, or the first error: exactly what decoding the rest of the source says.
        After an error nothing more is read. */
    method Next() returns (more: bool)
      requires Valid()
      modifies this`source, this`firstErr, this`payloadBuf, this`currentLSN, this`currentLen, this`validBytes,
        payloadBuf
      ensures Valid() && (payloadBuf == old(payloadBuf) || fresh(payloadBuf))
      ensures old(firstErr).Some? ==> !more && firstErr == old(firstErr) && validBytes == old(validBytes)
      ensures old(firstErr).None? ==>
        Advances(old(source), old(validBytes), Decode(old(source), maxRecBytes),
                 more, firstErr, Current(), source, validBytes)
    {
      hide Decode, Checksum, FromLE, Advances;
      if firstErr.Some? {
        return false;
      }
      ghost var s, valid, d := source, validBytes, Decode(source, maxRecBytes);
      var header := new byte[HEADER_SIZE];
      var found, err := ReadHeader(header);
      if !found {
        DecodeShort(s, maxRecBytes);
        firstErr := err;
        AdvancesNot(s, valid, d, firstErr, Current(), source);
        return false;
      }
      var fields := header[..];
      DecodeFields(s, fields, maxRecBytes);
      var payloadLen := FromLE(fields[4..8]);
      if payloadLen > maxRecBytes {
        firstErr := Some(TooLarge);
        AdvancesNot(s, valid, d, firstErr, Current(), source);
        return false;
      }
      var payloadErr := ReadChecked(fields, payloadLen);
      if payloadErr.Some? {
        firstErr := payloadErr;
        AdvancesNot(s, valid, d, firstErr, Current(), source);
        return false;
      }
      var lsn := FromLE(fields[8..16]);
      AdvancesPast(s, valid, d, Record(lsn, payloadBuf[..payloadLen]), source, payloadLen);
      Take(lsn, payloadLen);
      return true;
    }
  }

  /** What decoding says, header by header. */
  lemma DecodeShort(s: seq<byte>, maxRec: nat)
    requires |s| < HEADER_SIZE
    ensures Decode(s, maxRec) == if s == [] then Eof else Bad(Torn)
  {
  }

  lemma DecodeFields(s: seq<byte>, fields: seq<byte>, maxRec: nat)
    requires |s| >= HEADER_SIZE && fields == s[..HEADER_SIZE]
    ensures var n, rest := FromLE(fields[4..8]), s[HEADER_SIZE..];
      && (n > maxRec ==> Decode(s, maxRec) == Bad(TooLarge))
      && (|rest| < n <= maxRec ==> Decode(s, maxRec) == Bad(Torn))
      && (n <= maxRec && n <= |rest| ==>
            && rest[n..] == s[HEADER_SIZE + n..]
            && Decode(s, maxRec) == if Checksum(fields[4..16], rest[..n]) != FromLE(fields[0..4]) then Bad(Corrupt)
                                    else Rec(Record(FromLE(fields[8..16]), rest[..n])))
  {
    hide Checksum, FromLE;
    assert fields[0..4] == s[..4] && fields[4..8] == s[4..8] && fields[8..16] == s[8..16] && fields[4..16] == s[4..16];
    var n, rest := FromLE(fields[4..8]), s[HEADER_SIZE..];
    if n <= |rest| {
      assert rest[..n] == s[HEADER_SIZE..HEADER_SIZE + n];
    }
  }

  /** Of the scan `all`, the records `seen` are read, `offset` bytes of them, and `rest` is ahead. */
  predicate Ahead(all: Scan, seen: seq<Record>, offset: nat, rest: seq<byte>, maxRec: nat) {
    var r := ScanAll(rest, maxRec);
    all == Scan(seen + r.recs, offset + r.offset, r.err)
  }

  /** A scanner step over that. */
  lemma AheadStep(all: Scan, seen: seq<Record>, offset: nat, rest: seq<byte>, maxRec: nat,
                  more: bool, err: Option<ScanError>, current: Record, restNow: seq<byte>, offsetNow: nat)
    requires Ahead(all, seen, offset, rest, maxRec)
    requires Advances(rest, offset, Decode(rest, maxRec), more, err, current, restNow, offsetNow)
    ensures if more then err == None && |restNow| < |rest| && Ahead(all, seen + [current], offsetNow, restNow, maxRec)
            else all == Scan(seen, offsetNow, err)
  {
    hide Decode;
    EmptyUnit(seen);
    match Decode(rest, maxRec)
    case Rec(r) => ConcatAssociates(seen, [r], ScanAll(restNow, maxRec).recs);
    case _ =>
  }

  lemma AheadStart(s: seq<byte>, maxRec: nat)
    ensures Ahead(ScanAll(s, maxRec), [], 0, s, maxRec)
  {
    EmptyUnit(ScanAll(s, maxRec).recs);
  }

  /** Scans a segment body, counting records until the scanner stops. */
  method ScanBody(body: seq<byte>, maxRecordSize: nat) returns (result: ScanResult)
    ensures result == ScanSegment(body, maxRecordSize)
  {
    hide Decode, Ahead, Advances, ScanAll;
    var scanner := new Scanner(body, maxRecordSize);
    var records, lastLSN := 0, 0;
    ghost var all, seen: seq<Record> := ScanAll(body, maxRecordSize), [];
    AheadStart(body, maxRecordSize);
    ghost var rest, offset := scanner.source, scanner.validBytes;
    var more := scanner.Next();
    AheadStep(all, seen, offset, rest, maxRecordSize, more, scanner.firstErr, scanner.Current(),
              scanner.source, scanner.validBytes);
    while more
      invariant scanner.Valid() && fresh(scanner) && fresh(scanner.payloadBuf)
      invariant scanner.maxRecBytes == maxRecordSize
      invariant records == |seen| && lastLSN == if seen == [] then 0 else seen[|seen| - 1].lsn
      invariant if more
        then
          && scanner.firstErr == None
          && Ahead(all, seen + [scanner.Current()], scanner.validBytes, scanner.source, maxRecordSize)
        else all == Scan(seen, scanner.validBytes, scanner.firstErr)
      decreases if more then |scanner.source| + 1 else 0
    {
      seen := seen + [scanner.Current()];
      records := records + 1;
      lastLSN := scanner.Current().lsn;
      rest, offset := scanner.source, scanner.validBytes;
      more := scanner.Next();
      AheadStep(all, seen, offset, rest, maxRecordSize, more, scanner.firstErr, scanner.Current(),
                scanner.source, scanner.validBytes);
    }
    assert all == Scan(seen, scanner.validBytes, scanner.firstErr);
    result := ScanResult(scanner.firstErr, records, lastLSN, scanner.validBytes);
  }

  /** An open segment file. What it does to the file is what the directory steps Write, Fsync and Chop do. */
  class Segment {
    const baseLSN: nat
    /** The file after its header. */
    var file: File
    /** Bytes written, header included. */
    var size: nat
    /** The highest LSN written, one below the base when there is none. */
    var lastLSN: int

    /** An existing segment; `lastLSN` is not known before a scan. */
    constructor Open(baseLSN: nat, file: File)
      requires file.headerOk
      ensures Valid() && this.baseLSN == baseLSN && this.file == file && lastLSN == baseLSN - 1
    {
      this.baseLSN, this.file := baseLSN, file;
      size, lastLSN := SEGMENT_HEADER + |file.body|, baseLSN - 1;
    }

    predicate Valid()
      reads this
    {
      file.headerOk && size == SEGMENT_HEADER + |file.body|
    }

    /** Writes one framed record at the end; refuses a payload that cannot be framed. */
    method Append(lsn: nat, payload: seq<byte>) returns (n: nat, ok: bool)
      requires Valid()
      modifies this
      ensures Valid() && (ok <==> |payload| <= MAX_PAYLOAD)
      ensures if ok
              then
                && n == HEADER_SIZE + |payload| && lastLSN == lsn
                && file == Appended(old(file), Frame(Record(lsn, payload)))
              else n == 0 && lastLSN == old(lastLSN) && file == old(file)
    {
      var encoded;
      ok, encoded := Encode([], lsn, payload);
      if !ok {
        return 0, false;
      }
      EmptyUnit(Frame(Record(lsn, payload)));
      hide Frame, WriteAt;
      WriteAtEnd(file, encoded);
      file := WriteAt(file, encoded, size - SEGMENT_HEADER);
      size := size + |encoded|;
      lastLSN := lsn;
      n := |encoded|;
    }

    method Sync()
      requires Valid()
      modifies this`file
      ensures Valid() && file == Synced(old(file))
    {
      file := Synced(file);
    }

    /** Validates every record after the header; `lastLSN` becomes that of the last valid one. */
    method Scan(maxRecordSize: nat) returns (result: ScanResult)
      requires Valid()
      modifies this`lastLSN
      ensures Valid() && result == ScanSegment(file.body, maxRecordSize)
      ensures lastLSN == if result.records > 0 then result.lastLSN else old(lastLSN)
    {
      result := ScanBody(file.body, maxRecordSize);
      if result.records > 0 {
        lastLSN := result.lastLSN;
      }
    }

    /** Cuts the segment off after `offset` bytes and syncs it. */
    method TruncateTo(offset: nat)
      requires Valid() && SEGMENT_HEADER <= offset <= size
      modifies this`file, this`size
      ensures Valid() && size == offset && file == Chopped(old(file), offset - SEGMENT_HEADER)
    {
      file, size := file.(body := file.body[..offset - SEGMENT_HEADER]), offset;
      Sync();
    }
  }

  /** Overwrites the file from `at` on. */
  function WriteAt(f: File, bytes: seq<byte>, at: nat): File
    requires at <= |f.body|
  {
    f.(body := if at + |bytes| <= |f.body| then f.body[..at] + bytes + f.body[at + |bytes|..] else f.body[..at] + bytes)
  }

  /** At the end of the file that is appending. */
  lemma WriteAtEnd(f: File, bytes: seq<byte>)
    ensures WriteAt(f, bytes, |f.body|) == Appended(f, bytes)
  {
  }

  /** Chopping a segment where its scan ended keeps exactly the records the scan accepted, and cuts off
      something exactly when the scan ended badly. */
  method ChopTail(segment: Segment, maxRecordSize: nat) returns (result: ScanResult)
    requires segment.Valid()
    modifies segment
    ensures segment.Valid() && result == ScanSegment(old(segment.file).body, maxRecordSize)
    ensures ScanAll(segment.file.body, maxRecordSize) == ScanAll(old(segment.file).body, maxRecordSize).(err := None)
    ensures result.err.Some? ==> segment.file.synced == |segment.file.body| < |old(segment.file).body|
    ensures result.err.None? ==> segment.file == old(segment.file)
  {
    result := segment.Scan(maxRecordSize);
    CleanScanConsumesAll(segment.file.body, maxRecordSize);
    ScanValidPrefix(segment.file.body, maxRecordSize);
    if result.err.Some? {
      segment.TruncateTo(SEGMENT_HEADER + result.validEnd);
    }
  }
}
