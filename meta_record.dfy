/** The fixed-width metadata record written to the meta log for every
    key-value pair (src/kv.rs:29-37): one byte of file index, then the
    payload's offset, its length and the dividing point, each a big-endian
    `u64`: 1 + 8 + 8 + 8 = 25 bytes. */
module MetaRecord {
  import opened Results
  import opened Bytes

  const RECORD_SIZE: nat := 25

  /** Where a payload lives in the value log and where its value begins. */
  datatype Meta = Meta(fileIndex: U8, offset: U64, length: U64, dividingPoint: U64)

  /** The 25 bytes written to the meta log for `m`. */
  function Encode(m: Meta): (r: seq<U8>)
    ensures |r| == RECORD_SIZE
  {
    [m.fileIndex] + U64ToBytes(m.offset) + U64ToBytes(m.length) + U64ToBytes(m.dividingPoint)
  }

  /** The record a 25-byte string holds; None for any other length. */
  function Decode(s: seq<U8>): Option<Meta>
  {
    if |s| != RECORD_SIZE then None
    else Some(Meta(s[0], U64FromBytes(s[1..9]), U64FromBytes(s[9..17]), U64FromBytes(s[17..25])))
  }

  /** The byte layout: byte 0 is the file index, bytes 1..9, 9..17 and 17..25
      are the offset, the length and the dividing point, each big-endian. */
  lemma EncodeLayout(m: Meta)
    ensures Encode(m)[0] == m.fileIndex
    ensures FromBigEndian(Encode(m)[1..9]) == m.offset
    ensures FromBigEndian(Encode(m)[9..17]) == m.length
    ensures FromBigEndian(Encode(m)[17..25]) == m.dividingPoint
  {
    var r := Encode(m);
    assert r[1..9] == U64ToBytes(m.offset);
    assert r[9..17] == U64ToBytes(m.length);
    assert r[17..] == U64ToBytes(m.dividingPoint);
    assert r[17..25] == r[17..];
  }

  /** Decoding an encoded record gives back its four fields. */
  lemma DecodeEncode(m: Meta)
    ensures Decode(Encode(m)) == Some(m)
  {
    var r := Encode(m);
    EncodeLayout(m);
    Pow256Eight();
    FromToBigEndian(m.offset, 8);
    assert U64FromBytes(r[1..9]) == m.offset;
    assert U64FromBytes(r[9..17]) == m.length;
    assert U64FromBytes(r[17..25]) == m.dividingPoint;
  }

  /** Every 25-byte string is the encoding of the record it decodes to, so the
      encoding is a bijection between records and 25-byte strings. */
  lemma EncodeDecode(s: seq<U8>)
    requires |s| == RECORD_SIZE
    ensures Decode(s).Some? && Encode(Decode(s).value) == s
  {
  }

  /** The meta log's contents after the records `ms` were appended in order. */
  function MetaStream(ms: seq<Meta>): (r: seq<U8>)
    ensures |r| == RECORD_SIZE * |ms|
  {
    if ms == [] then [] else Encode(ms[0]) + MetaStream(ms[1..])
  }

  /** Walks a meta log 25 bytes at a time; None when a partial record is left. */
  function ParseRecords(s: seq<U8>): (r: Option<seq<Meta>>)
    ensures r.Some? <==> |s| % RECORD_SIZE == 0
    ensures r.Some? ==> |s| == RECORD_SIZE * |r.value|
    decreases |s|
  {
    if s == [] then Some([])
    else if |s| < RECORD_SIZE then None
    else
      match ParseRecords(s[RECORD_SIZE..])
      case None => None
      case Some(rest) => Some([Decode(s[..RECORD_SIZE]).value] + rest)
  }

  /** Appending one record extends the stream by exactly its encoding. */
  lemma {:induction false} MetaStreamAppend(ms: seq<Meta>, m: Meta)
    ensures MetaStream(ms + [m]) == MetaStream(ms) + Encode(m)
  {
    if ms != [] {
      assert (ms + [m])[1..] == ms[1..] + [m];
      MetaStreamAppend(ms[1..], m);
    }
  }

  /** Replaying a meta log record by record gives back the records written. */
  lemma {:induction false} ParseMetaStream(ms: seq<Meta>)
    ensures ParseRecords(MetaStream(ms)) == Some(ms)
  {
    if ms != [] {
      var s := MetaStream(ms);
      assert s[..RECORD_SIZE] == Encode(ms[0]);
      assert s[RECORD_SIZE..] == MetaStream(ms[1..]);
      DecodeEncode(ms[0]);
      ParseMetaStream(ms[1..]);
      assert [ms[0]] + ms[1..] == ms;
    }
  }
}
