/** The wire format: the 14-byte record `push_node` appends, and the record
    view a decoder takes of a byte buffer.

    A record is: kind (1 byte), flags (1 byte), child count (4 bytes,
    little-endian), span start and end (4 bytes each). The writer stores a
    count below 127 in the first count byte and writes 0 for larger ones; it
    never writes a span. */
module Wire {
  import opened Tags

  /** Size in bytes of one record. */
  const RecordSize: nat := 14

  /** Counts at or above this value are written as 0. */
  const CountLimit: nat := 127

  /** One `push_node` call: the node kind and the count handed to it. The
      flags argument is `Flags::None` at every call site. */
  datatype Header = Header(kind: AstNode, count: nat)

  /** A record as a decoder reads it: kind, flags and child count (the span
      is not part of the view). */
  datatype Record = Record(kind: u8, flags: u8, count: nat)

  /** The little-endian 32-bit value of four bytes. */
  function U32(b0: u8, b1: u8, b2: u8, b3: u8): nat
  {
    b0 as nat + 0x100 * b1 as nat + 0x1_0000 * b2 as nat + 0x100_0000 * b3 as nat
  }

  /** Reads one 14-byte chunk as a record. */
  function ReadRecord(c: seq<u8>): Record
    requires |c| == RecordSize
  {
    Record(c[0], c[1], U32(c[2], c[3], c[4], c[5]))
  }

  /** The record view of a buffer: consecutive 14-byte chunks. */
  function Records(bs: seq<u8>): (rs: seq<Record>)
    requires |bs| % RecordSize == 0
    ensures |rs| * RecordSize == |bs|
    decreases |bs|
  {
    if bs == [] then [] else [ReadRecord(bs[..RecordSize])] + Records(bs[RecordSize..])
  }

  /** The count a decoder reads back for a count handed to `push_node`. */
  function StoredCount(count: nat): nat
  {
    if count < CountLimit then count else 0
  }

  /** The bytes `push_node(result, kind, flags, count, span)` appends: kind,
      flags, the count if below 127 and 0 otherwise, and zeros for the rest of
      the count field and for the whole span. */
  function HeaderBytes(kind: u8, flags: u8, count: nat): (r: seq<u8>)
    ensures |r| == RecordSize
  {
    [kind, flags, if count < CountLimit then count as u8 else 0, 0, 0, 0, 0, 0, 0, 0, 0, 0, 0, 0]
  }

  /** A header reads back with its kind and flags and with the count if it
      is below 127 and 0 otherwise; its eight span bytes are all zero. */
  lemma HeaderRecord(kind: u8, flags: u8, count: nat)
    ensures ReadRecord(HeaderBytes(kind, flags, count)) == Record(kind, flags, StoredCount(count))
    ensures HeaderBytes(kind, flags, count)[6..] == [0, 0, 0, 0, 0, 0, 0, 0]
  {
  }

  /** The record a header reads back as. */
  function RecordOf(h: Header): Record
  {
    Record(Tag(h.kind), FlagsByte(NoFlags), StoredCount(h.count))
  }

  /** The bytes of one `push_node` call. */
  function CallBytes(h: Header): seq<u8>
  {
    HeaderBytes(Tag(h.kind), FlagsByte(NoFlags), h.count)
  }

  /** The bytes a sequence of `push_node` calls appends, in call order. */
  function Bytes(hs: seq<Header>): (bs: seq<u8>)
    ensures |bs| == RecordSize * |hs|
  {
    if hs == [] then [] else CallBytes(hs[0]) + Bytes(hs[1..])
  }

  lemma BytesOne(h: Header)
    ensures Bytes([h]) == CallBytes(h)
  {
    assert [h][1..] == [];
  }

  /** The records of a sequence of headers, one per header. */
  function View(hs: seq<Header>): (rs: seq<Record>)
    ensures |rs| == |hs|
    ensures forall i | 0 <= i < |hs| :: rs[i] == RecordOf(hs[i])
  {
    seq(|hs|, i requires 0 <= i < |hs| => RecordOf(hs[i]))
  }

  /** Appending two runs of calls appends their bytes. */
  lemma {:induction false} BytesAppend(a: seq<Header>, b: seq<Header>)
    ensures Bytes(a + b) == Bytes(a) + Bytes(b)
  {
    if a == [] {
      assert a + b == b;
    } else {
      assert (a + b)[0] == a[0];
      assert (a + b)[1..] == a[1..] + b;
      BytesAppend(a[1..], b);
    }
  }

  /** Reading back the bytes of a run of calls gives one record per call, in
      order, each with the call's kind tag, flags 0, the stored count and a
      zero span. */
  lemma {:induction false} RecordsOfBytes(hs: seq<Header>)
    ensures Records(Bytes(hs)) == View(hs)
  {
    if hs != [] {
      var bs := Bytes(hs);
      assert bs[..RecordSize] == CallBytes(hs[0]);
      assert bs[RecordSize..] == Bytes(hs[1..]);
      HeaderRecord(Tag(hs[0].kind), FlagsByte(NoFlags), hs[0].count);
      RecordsOfBytes(hs[1..]);
    }
  }

  /** Appending the bytes of two runs of calls to a buffer, one after the
      other, appends the bytes of the combined run. */
  lemma BytesExtend(o: seq<u8>, a: seq<Header>, b: seq<Header>)
    ensures o + Bytes(a) + Bytes(b) == o + Bytes(a + b)
  {
    BytesAppend(a, b);
  }
}
