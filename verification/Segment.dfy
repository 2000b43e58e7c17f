/** Messages and their stored form: core/message.go. `gob` and CRC-32 are library code, so the
    encoder, the decoder and the checksum are parameters, constrained only by `Storable`. */
module Messages {
  import opened Bytes

  datatype Option<+T> = None | Some(value: T)
  datatype Result<+T> = Ok(value: T) | Err(error: Error)
  datatype Error =
    | OffsetNotFound        // core.ErrOffsetNotFound
    | BelowBase             // Log.ReadAt of an offset below the segment
    | SeekFailed            // Seek to a negative position
    | UnexpectedEnd         // the file ends inside the value being read
    | WrongEntry(found: int) // LogIndex.Read found another offset at the entry's place
    | Undecodable           // gob rejected the payload
    | BadChecksum
    | NegativeLength        // make([]byte, n) with n < 0: a run-time panic in the source

  datatype Message = Message(key: Bytes, value: Bytes, createdAt: int, checksum: int)

  datatype Codec = Codec(encode: Message -> Bytes, decode: Bytes -> Option<Message>, crc: Bytes -> int)

  /** What the source needs of gob for the messages it appends: decoding inverts encoding, and the
      length of the payload is an int64. */
  predicate Storable(c: Codec, m: Message) {
    c.decode(c.encode(m)) == Some(m) && |c.encode(m)| < TWO_63
  }

  predicate ChecksumValid(c: Codec, m: Message) {
    m.checksum == c.crc(m.key + m.value)
  }

  function NewMessage(c: Codec, key: Bytes, value: Bytes, now: int): (m: Message)
    ensures ChecksumValid(c, m)
    ensures m.checksum == c.crc(key + value) && m.key == key && m.value == value && m.createdAt == now
  {
    Message(key, value, now, c.crc(key + value))
  }

  /** What reading back a stored message yields: the message, or the checksum error. */
  function Verdict(c: Codec, m: Message): Result<Message> {
    if ChecksumValid(c, m) then Ok(m) else Err(BadChecksum)
  }

  function DeserializeMessage(c: Codec, payload: Bytes): Result<Message> {
    match c.decode(payload)
    case None => Err(Undecodable)
    case Some(m) => Verdict(c, m)
  }
}

/** One log segment as bytes: the `[8-byte length][payload]` records of core/log.go and the 8-byte
    `(relative offset, byte position)` entries of core/log_index.go. */
module Segment {
  import opened Bytes
  import opened Messages

  const ENTRY_WIDTH := 8

  function Record(c: Codec, m: Message): (r: Bytes)
    ensures |r| == 8 + |c.encode(m)|
  {
    Put64(|c.encode(m)|) + c.encode(m)
  }

  /** The entry that `LogIndex.Append(int32(offset), int32(bytePos))` writes. */
  function Entry(offset: int, bytePos: int): (e: Bytes)
    ensures |e| == ENTRY_WIDTH
  {
    Put32(Wrap32(offset)) + Put32(Wrap32(bytePos))
  }

  /** `LogIndex.Read`. The multiplication is an int32 multiplication. */
  function IndexRead(index: Bytes, offset: int): Result<int> {
    var at := Wrap32(offset * ENTRY_WIDTH);
    if at < 0 then Err(SeekFailed)
    else if |index| < at + 4 then Err(UnexpectedEnd)
    else if GetInt32(index[at..at + 4]) != offset then Err(WrongEntry(GetInt32(index[at..at + 4])))
    else if |index| < at + 8 then Err(UnexpectedEnd)
    else Ok(GetInt32(index[at + 4..at + 8]))
  }

  /** `Log.readAtByte`. */
  function ReadAtByte(c: Codec, log: Bytes, bytePos: int): Result<Message> {
    if bytePos < 0 then Err(SeekFailed)
    else if |log| < bytePos + 8 then Err(UnexpectedEnd)
    else
      var length := GetInt64(log[bytePos..bytePos + 8]);
      if length < 0 then Err(NegativeLength)
      else if |log| < bytePos + 8 + length then Err(UnexpectedEnd)
      else DeserializeMessage(c, log[bytePos + 8..bytePos + 8 + length])
  }

  /** `Log.ReadAt` on a segment with the given base and files. */
  function LogReadAt(c: Codec, log: Bytes, index: Bytes, base: int, absolute: int): Result<Message> {
    var relative := absolute - base;
    if relative < 0 then Err(BelowBase)
    else match IndexRead(index, Wrap32(relative))
      case Err(e) => Err(e)
      case Ok(bytePos) => ReadAtByte(c, log, bytePos)
  }

  /** No other byte position of the log reads as this message does. */
  ghost predicate OnlyAt(c: Codec, log: Bytes, bytePos: nat, m: Message) {
    forall at: int :: ReadAtByte(c, log, at) == Verdict(c, m) ==> at == bytePos
  }

  /** Files only grow, and growing a file never changes what was readable in it. */
  lemma IndexReadStable(index: Bytes, more: Bytes, offset: int)
    requires IndexRead(index, offset).Ok?
    ensures IndexRead(index + more, offset) == IndexRead(index, offset)
  {
    var at := Wrap32(offset * ENTRY_WIDTH);
    assert (index + more)[at..at + 4] == index[at..at + 4];
    assert (index + more)[at + 4..at + 8] == index[at + 4..at + 8];
  }

  lemma ReadAtByteStable(c: Codec, log: Bytes, more: Bytes, bytePos: int)
    requires ReadAtByte(c, log, bytePos) != Err(UnexpectedEnd)
    ensures ReadAtByte(c, log + more, bytePos) == ReadAtByte(c, log, bytePos)
  {
    if bytePos >= 0 {
      assert (log + more)[bytePos..bytePos + 8] == log[bytePos..bytePos + 8];
      var length := GetInt64(log[bytePos..bytePos + 8]);
      if length >= 0 {
        assert (log + more)[bytePos + 8..bytePos + 8 + length] == log[bytePos + 8..bytePos + 8 + length];
      }
    }
  }

  lemma Slice(before: Bytes, middle: Bytes, after: Bytes)
    ensures (before + middle + after)[|before|..|before| + |middle|] == middle
  {
  }

  /** An entry written at its own place is found there, holding the narrowed position. */
  lemma EntryFound(index: Bytes, n: nat, bytePos: int, more: Bytes)
    requires |index| == n * ENTRY_WIDTH && n * ENTRY_WIDTH < TWO_31
    ensures IndexRead(index + Entry(n, bytePos) + more, n) == Ok(Wrap32(bytePos))
  {
    var all := index + Entry(n, bytePos) + more;
    var at := n * ENTRY_WIDTH;
    var offset, pos := Put32(Wrap32(n)), Put32(Wrap32(bytePos));
    assert all[at..at + 4] == offset by {
      Slice(index, offset, pos + more);
      assert all == index + offset + (pos + more);
    }
    assert all[at + 4..at + 8] == pos by {
      Slice(index + offset, pos, more);
      assert all == (index + offset) + pos + more;
    }
    Int32RoundTrip(Wrap32(n));
    Int32RoundTrip(Wrap32(bytePos));
  }

  /** Where a record stands, its length and its payload can be found as bytes: an eight-byte big-endian
      length, then the encoded message. */
  lemma RecordLayout(c: Codec, m: Message)
    requires |c.encode(m)| < TWO_63
    ensures FromBigEndian(Record(c, m)[..8]) == |c.encode(m)| && Record(c, m)[8..] == c.encode(m)
  {
    var payload := c.encode(m);
    Uint64RoundTrip(|payload|);
    assert (Put64(|payload|) + payload)[..8] == Put64(|payload|);
  }

  /** A position of a log reads as a message iff a length prefix stands there, its payload lies within
      the file and decodes to the message, and the message carries the checksum of its key and value. */
  lemma ReadAtByteIff(c: Codec, log: Bytes, bytePos: int, m: Message)
    ensures ReadAtByte(c, log, bytePos) == Ok(m) <==>
      && 0 <= bytePos && bytePos + 8 <= |log|
      && var length := FromBigEndian(log[bytePos..bytePos + 8]);
      && length < TWO_63 && bytePos + 8 + length <= |log|
      && c.decode(log[bytePos + 8..bytePos + 8 + length]) == Some(m)
      && m.checksum == c.crc(m.key + m.value)
  {
    WordSizes();
    if 0 <= bytePos && bytePos + 8 <= |log| {
      ToFromBigEndian(log[bytePos..bytePos + 8]);
    }
  }

  lemma FieldDecides(s: Bytes, x: int)
    requires |s| == 4 && -TWO_31 <= x < TWO_31
    ensures GetInt32(s) == x <==> s == Put32(x)
  {
    WordSizes();
    ToFromBigEndian(s);
    Int32RoundTrip(x);
  }

  /** A lookup finds a position iff the whole entry stands at its stride place. */
  lemma FoundIffEntry(index: Bytes, n: nat, bytePos: nat)
    requires (n + 1) * ENTRY_WIDTH <= |index| && n * ENTRY_WIDTH < TWO_31 && bytePos < TWO_31
    ensures IndexRead(index, n) == Ok(bytePos) <==> index[n * ENTRY_WIDTH..(n + 1) * ENTRY_WIDTH] == Entry(n, bytePos)
  {
    var at := n * ENTRY_WIDTH;
    var e := index[at..at + ENTRY_WIDTH];
    assert e[..4] == index[at..at + 4] && e[4..] == index[at + 4..at + 8];
    FieldDecides(e[..4], n);
    FieldDecides(e[4..], bytePos);
    assert e == e[..4] + e[4..];
    assert Entry(n, bytePos)[..4] == Put32(n) && Entry(n, bytePos)[4..] == Put32(bytePos);
  }

  lemma RecordFound(c: Codec, log: Bytes, m: Message, more: Bytes)
    requires Storable(c, m)
    ensures ReadAtByte(c, log + Record(c, m) + more, |log|) == Verdict(c, m)
  {
    var all := log + Record(c, m) + more;
    var n := |c.encode(m)|;
    var length, payload := Put64(n), c.encode(m);
    assert all[|log|..|log| + 8] == length by {
      Slice(log, length, payload + more);
      assert all == log + length + (payload + more);
    }
    assert all[|log| + 8..|log| + 8 + n] == payload by {
      Slice(log + length, payload, more);
      assert all == (log + length) + payload + more;
    }
    Int64RoundTrip(n);
  }

  /** The index can give back the position of a record iff the position fits an int32. */
  lemma PositionKept(index: Bytes, n: nat, bytePos: nat)
    requires |index| == n * ENTRY_WIDTH && n * ENTRY_WIDTH < TWO_31
    ensures IndexRead(index + Entry(n, bytePos), n) == Ok(bytePos) <==> bytePos < TWO_31
  {
    EntryFound(index, n, bytePos, []);
    assert index + Entry(n, bytePos) + [] == index + Entry(n, bytePos);
  }

  /** The j-th message of a segment can be read through the index. */
  ghost predicate Readable(c: Codec, log: Bytes, index: Bytes, j: nat, m: Message) {
    && (j + 1) * ENTRY_WIDTH <= |index|
    && var at := IndexRead(index, j);
    && at.Ok?
    && j * ENTRY_WIDTH <= at.value < TWO_31
    && ReadAtByte(c, log, at.value) == Verdict(c, m)
  }

  /** A segment's files hold the messages `ms`, in order, and possibly more bytes. */
  ghost predicate Holds(c: Codec, log: Bytes, index: Bytes, ms: seq<Message>) {
    forall j :: 0 <= j < |ms| ==> Readable(c, log, index, j, ms[j])
  }

  lemma HoldsStable(c: Codec, log: Bytes, index: Bytes, ms: seq<Message>, moreLog: Bytes, moreIndex: Bytes)
    requires Holds(c, log, index, ms)
    ensures Holds(c, log + moreLog, index + moreIndex, ms)
  {
    forall j | 0 <= j < |ms|
      ensures Readable(c, log + moreLog, index + moreIndex, j, ms[j])
    {
      assert Readable(c, log, index, j, ms[j]);
      IndexReadStable(index, moreIndex, j);
      ReadAtByteStable(c, log, moreLog, IndexRead(index, j).value);
    }
  }

  /** A new record makes its message readable as soon as the index finds it. */
  lemma HoldsFound(c: Codec, log: Bytes, index: Bytes, ms: seq<Message>, m: Message, moreIndex: Bytes)
    requires Storable(c, m) && Holds(c, log, index, ms)
    requires |ms| * ENTRY_WIDTH <= |log| < TWO_31 && (|ms| + 1) * ENTRY_WIDTH <= |index| + |moreIndex|
    requires IndexRead(index + moreIndex, |ms|) == Ok(|log|)
    ensures Holds(c, log + Record(c, m), index + moreIndex, ms + [m])
  {
    HoldsStable(c, log, index, ms, Record(c, m), moreIndex);
    RecordFound(c, log, m, []);
    var log', index' := log + Record(c, m), index + moreIndex;
    assert log' + [] == log';
    assert Readable(c, log', index', |ms|, m);
  }

  lemma HoldsExtended(c: Codec, log: Bytes, index: Bytes, ms: seq<Message>, m: Message)
    requires Storable(c, m)
    requires Holds(c, log, index, ms)
    requires |index| == |ms| * ENTRY_WIDTH <= |log| < TWO_31
    ensures Holds(c, log + Record(c, m), index + Entry(|ms|, |log|), ms + [m])
  {
    EntryFound(index, |ms|, |log|, []);
    assert index + Entry(|ms|, |log|) + [] == index + Entry(|ms|, |log|);
    HoldsFound(c, log, index, ms, m, Entry(|ms|, |log|));
  }

  lemma HoldsReads(c: Codec, log: Bytes, index: Bytes, ms: seq<Message>, base: int, j: nat)
    requires Holds(c, log, index, ms) && j < |ms|
    ensures LogReadAt(c, log, index, base, base + j) == Verdict(c, ms[j])
  {
    assert Readable(c, log, index, j, ms[j]);
  }
}
