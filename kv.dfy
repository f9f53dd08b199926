/** The key-value separation layer (src/kv.rs): each pair is stored as one
    payload, key bytes then value bytes, in the value log, and a 25-byte
    record saying where that payload lives and where its value begins is
    appended to the meta log. */
module KVStore {
  import opened Results
  import opened Bytes
  import opened GroupLogs
  import opened MetaRecord

  /** A pair that a successful write stored. */
  datatype Entry = Entry(key: seq<U8>, value: seq<U8>)

  /** The payload appended to the value log: the key immediately followed by
      the value, with no length prefix. */
  function Payload(key: seq<U8>, value: seq<U8>): (r: seq<U8>)
    ensures |r| == |key| + |value|
    ensures r[..|key|] == key && r[|key|..] == value
  {
    key + value
  }

  /** The dividing point: the absolute offset of the first value byte of the
      payload at `p` whose key is `keyLen` bytes long. It never leaves the
      payload, and so never overflows a `u64`. */
  function DividingPoint(p: Location, keyLen: nat): (d: U64)
    requires keyLen <= p.length && p.offset + p.length < U64_LIMIT
    ensures p.offset <= d <= p.offset + p.length
  {
    p.offset + keyLen
  }

  /** The record written to the meta log for the payload at `p`: it names
      that payload, and its dividing point lies in it, `keyLen` bytes in. */
  function MetaFor(p: Location, keyLen: nat): (m: Meta)
    requires keyLen <= p.length && p.offset + p.length < U64_LIMIT
    ensures PayloadLocation(m) == p
    ensures m.offset <= m.dividingPoint <= m.offset + m.length
    ensures m.dividingPoint - m.offset == keyLen
  {
    Meta(p.fileIndex, p.offset, p.length, DividingPoint(p, keyLen))
  }

  /** The whole payload a record describes. */
  function PayloadLocation(m: Meta): Location
  {
    Location(m.fileIndex, m.offset, m.length)
  }

  /** The key bytes of the payload at `p`: from its start to the dividing point. */
  function KeyLocation(p: Location, keyLen: nat): Location
    requires keyLen <= p.length
  {
    Location(p.fileIndex, p.offset, keyLen)
  }

  /** The value bytes of the payload at `p`: from the dividing point to its
      end. This is the triple `write` is documented to return. */
  function ValueLocation(p: Location, keyLen: nat): (v: Location)
    requires keyLen <= p.length && p.offset + p.length < U64_LIMIT
    ensures v.fileIndex == p.fileIndex
    ensures v.offset == DividingPoint(p, keyLen)
    ensures v.offset + v.length == p.offset + p.length
  {
    Location(p.fileIndex, p.offset + keyLen, p.length - keyLen)
  }

  /** Where a payload is `key ++ value`, the key range reads back exactly the
      key and the value range exactly the value, for empty keys and values too. */
  lemma SplitReadsBack(files: seq<seq<U8>>, p: Location, key: seq<U8>, value: seq<U8>)
    requires WellFormed(files)
    requires ReadRange(files, p) == Some(Payload(key, value))
    ensures |key| <= p.length && p.offset + p.length < U64_LIMIT
    ensures ReadRange(files, KeyLocation(p, |key|)) == Some(key)
    ensures ReadRange(files, ValueLocation(p, |key|)) == Some(value)
  {
    var file := files[p.fileIndex];
    var payload := file[p.offset..p.offset + p.length];
    assert payload == key + value;
    assert file[p.offset..p.offset + |key|] == payload[..|key|];
    assert file[p.offset + |key|..p.offset + p.length] == payload[|key|..];
  }

  /** The triple src/kv.rs:38-42 returns as written: the dividing point, an
      absolute offset, is added to the offset once more and subtracted from
      the length. With `overflowChecks` (Cargo's debug profile) an overflowing
      `u64` addition or subtraction panics, and None stands for that panic;
      without them (the release profile) both wrap modulo 2^64. */
  function LiteralReturn(p: Location, keyLen: nat, overflowChecks: bool): (r: Option<Location>)
    requires p.offset + keyLen < U64_LIMIT
    ensures r.None? ==> overflowChecks
    ensures r.Some? ==> r.value.fileIndex == p.fileIndex
    ensures r.Some? ==> r.value.offset == (2 * p.offset + keyLen) % U64_LIMIT
    ensures r.Some? ==> r.value.length == (p.length - keyLen - p.offset) % U64_LIMIT
  {
    var dividingPoint := p.offset + keyLen;
    if !overflowChecks then
      Some(Location(p.fileIndex, (p.offset + dividingPoint) % U64_LIMIT,
                    (p.length - dividingPoint) % U64_LIMIT))
    else if p.offset + dividingPoint >= U64_LIMIT || dividingPoint > p.length then None
    else Some(Location(p.fileIndex, p.offset + dividingPoint, p.length - dividingPoint))
  }

  /** As written, in either build profile, the returned triple never locates
      the value of a payload that does not start a file. With overflow checks
      it panics or is shorter than the value by the payload's offset; without
      them its length is that, or wraps past 2^64 minus the offset. */
  lemma LiteralReturnMissesValue(files: seq<seq<U8>>, p: Location, key: seq<U8>, value: seq<U8>,
                                 overflowChecks: bool)
    requires WellFormed(files)
    requires ReadRange(files, p) == Some(Payload(key, value))
    requires p.offset > 0
    ensures LiteralReturn(p, |key|, overflowChecks) != Some(ValueLocation(p, |key|))
    ensures LiteralReturn(p, |key|, overflowChecks).Some? ==>
      LiteralReturn(p, |key|, overflowChecks).value.length != |value| &&
      ReadRange(files, LiteralReturn(p, |key|, overflowChecks).value) != Some(value)
  {
  }

  /** As written, the returned triple is right only for a payload at offset 0. */
  lemma LiteralReturnAtFileStart(p: Location, keyLen: nat, overflowChecks: bool)
    requires keyLen <= p.length && p.offset + p.length < U64_LIMIT
    ensures LiteralReturn(p, keyLen, overflowChecks) == Some(ValueLocation(p, keyLen)) <==> p.offset == 0
  {
  }

  /** A concrete case: a value file already holding one byte, then key [1]
      and value [2]. The payload lands at offset 1, the dividing point is 2,
      and the triple as written is (0, 3, 0) in both profiles, which reads
      back nothing. */
  lemma LiteralReturnExample()
    ensures var files: seq<seq<U8>> := [[7, 1, 2]];
            var p := Location(0, 1, 2);
            ReadRange(files, p) == Some(Payload([1], [2])) &&
            LiteralReturn(p, 1, true) == Some(Location(0, 3, 0)) &&
            LiteralReturn(p, 1, false) == Some(Location(0, 3, 0)) &&
            ReadRange(files, Location(0, 3, 0)) == Some([]) &&
            ReadRange(files, ValueLocation(p, 1)) == Some([2])
  {
    var files: seq<seq<U8>> := [[7, 1, 2]];
    var key: seq<U8>, value: seq<U8> := [1], [2];
    assert files[0][1..3] == Payload(key, value);
    assert files[0][3..3] == [];
    assert files[0][2..3] == value;
  }

  /** Record i of the meta log describes entry i: its payload range in the
      value log holds `key ++ value` and its dividing point ends the key. */
  ghost predicate Indexed(files: seq<seq<U8>>, records: seq<Meta>, entries: seq<Entry>)
  {
    |records| == |entries| &&
    forall i :: 0 <= i < |records| ==>
      ReadRange(files, PayloadLocation(records[i])) == Some(Payload(entries[i].key, entries[i].value)) &&
      records[i].dividingPoint == records[i].offset + |entries[i].key|
  }

  /** Appending to the value log never disturbs a payload already indexed:
      an orphan payload left by a failed meta append is harmless. */
  lemma IndexedAfterAppend(before: seq<seq<U8>>, after: seq<seq<U8>>, data: seq<U8>, loc: Location,
                           records: seq<Meta>, entries: seq<Entry>)
    requires Appended(before, after, data, loc)
    requires Indexed(before, records, entries)
    ensures Indexed(after, records, entries)
  {
    forall i | 0 <= i < |records|
      ensures ReadRange(after, PayloadLocation(records[i])) == ReadRange(before, PayloadLocation(records[i]))
    {
      AppendedKeepsReads(before, after, data, loc, PayloadLocation(records[i]));
    }
  }

  /** The value range of a record: from its dividing point to its payload's end. */
  function RecordValueLocation(m: Meta): Location
    requires m.offset <= m.dividingPoint <= m.offset + m.length
  {
    Location(m.fileIndex, m.dividingPoint, m.offset + m.length - m.dividingPoint)
  }

  /** The key range of a record: from its offset to its dividing point. */
  function RecordKeyLocation(m: Meta): Location
    requires m.offset <= m.dividingPoint
  {
    Location(m.fileIndex, m.offset, m.dividingPoint - m.offset)
  }

  /** From the meta log alone a reader finds, for every record, the key and
      the value that were written: the key between offset and dividing point,
      the value from the dividing point to the payload's end. */
  lemma RecordLocatesEntry(files: seq<seq<U8>>, records: seq<Meta>, entries: seq<Entry>, i: nat)
    requires WellFormed(files) && Indexed(files, records, entries) && i < |records|
    ensures records[i].offset <= records[i].dividingPoint <= records[i].offset + records[i].length
    ensures ReadRange(files, RecordKeyLocation(records[i])) == Some(entries[i].key)
    ensures ReadRange(files, RecordValueLocation(records[i])) == Some(entries[i].value)
  {
    var m := records[i];
    var p := PayloadLocation(m);
    SplitReadsBack(files, p, entries[i].key, entries[i].value);
    assert RecordKeyLocation(m) == KeyLocation(p, |entries[i].key|);
    assert RecordValueLocation(m) == ValueLocation(p, |entries[i].key|);
  }

  /** One successful write: the payload appended to the value log and its
      record appended to the meta log extend the index by the new pair, and
      the value-only location reads back exactly the value. */
  lemma IndexedAfterWrite(kvBefore: seq<seq<U8>>, kvAfter: seq<seq<U8>>, p: Location,
                          metaBefore: seq<seq<U8>>, metaAfter: seq<seq<U8>>, metaLoc: Location,
                          key: seq<U8>, value: seq<U8>, records: seq<Meta>, entries: seq<Entry>)
    requires WellFormed(kvBefore) && Appended(kvBefore, kvAfter, Payload(key, value), p)
    requires Indexed(kvBefore, records, entries) && Concat(metaBefore) == MetaStream(records)
    requires |key| <= p.length && p.offset + p.length < U64_LIMIT
    requires Appended(metaBefore, metaAfter, Encode(MetaFor(p, |key|)), metaLoc)
    ensures WellFormed(kvAfter)
    ensures Indexed(kvAfter, records + [MetaFor(p, |key|)], entries + [Entry(key, value)])
    ensures Concat(metaAfter) == Concat(metaBefore) + Encode(MetaFor(p, |key|))
    ensures Concat(metaAfter) == MetaStream(records + [MetaFor(p, |key|)])
    ensures ReadRange(kvAfter, ValueLocation(p, |key|)) == Some(value)
  {
    var m := MetaFor(p, |key|);
    AppendedWellFormed(kvBefore, kvAfter, Payload(key, value), p);
    AppendedReadsBack(kvBefore, kvAfter, Payload(key, value), p);
    IndexedAfterAppend(kvBefore, kvAfter, Payload(key, value), p, records, entries);
    assert PayloadLocation(m) == p;
    AppendedConcat(metaBefore, metaAfter, Encode(m), metaLoc);
    MetaStreamAppend(records, m);
    SplitReadsBack(kvAfter, p, key, value);
  }

  /** The store: a value log of payloads and a meta log of records. The ghost
      fields are the records written so far and the pairs they index. */
  class KV {
    const metaLog: GroupLog
    const kvLog: GroupLog
    ghost var records: seq<Meta>
    ghost var entries: seq<Entry>

    /** The meta log is exactly the records, 25 bytes each, and each record
        indexes its pair in the value log. */
    ghost predicate Valid()
      reads this, metaLog, kvLog
    {
      metaLog != kvLog &&
      metaLog.Valid() && kvLog.Valid() &&
      Concat(metaLog.files) == MetaStream(records) &&
      Indexed(kvLog.files, records, entries)
    }

    /** A store over two freshly opened, empty log groups sharing one
        per-file size limit. */
    constructor (limitPerFile: U64)
      ensures Valid() && fresh(metaLog) && fresh(kvLog)
      ensures metaLog.files == [] && kvLog.files == []
      ensures records == [] && entries == []
    {
      metaLog := new GroupLog(limitPerFile);
      kvLog := new GroupLog(limitPerFile);
      records := [];
      entries := [];
    }

    /** `write(key, value, fsync)`. `kvIoOk` and `metaIoOk` are the outcomes
        of the two appends' file I/O. The value log is written first; the meta
        log only when that succeeded; `payloadAt` is where the payload went. */
    method Write(key: seq<U8>, value: seq<U8>, fsync: bool, kvIoOk: bool, metaIoOk: bool)
      returns (r: Result<Location>, ghost payloadAt: Option<Location>)
      requires Valid()
      modifies this, kvLog, metaLog
      ensures Valid()
      // the value-log append failed: nothing changed
      ensures !kvIoOk ==> payloadAt.None?
      ensures payloadAt.None? ==>
        r.Err? && kvLog.files == old(kvLog.files) && metaLog.files == old(metaLog.files)
      // the value-log append succeeded: the payload is `key ++ value`, in one append
      ensures payloadAt.Some? ==>
        Appended(old(kvLog.files), kvLog.files, Payload(key, value), payloadAt.value)
      // any failure leaves the meta log and the index untouched
      ensures !metaIoOk ==> r.Err?
      ensures r.Err? ==>
        metaLog.files == old(metaLog.files) && records == old(records) && entries == old(entries)
      // success: one record appended, and the value-only range reads back the value
      ensures r.Ok? ==> payloadAt.Some?
      ensures r.Ok? ==>
        var p := payloadAt.value;
        |key| <= p.length && p.offset + p.length < U64_LIMIT &&
        Concat(metaLog.files) == Concat(old(metaLog.files)) + Encode(MetaFor(p, |key|)) &&
        records == old(records) + [MetaFor(p, |key|)] &&
        entries == old(entries) + [Entry(key, value)] &&
        r.value.fileIndex == p.fileIndex &&
        r.value == ValueLocation(p, |key|) &&
        ReadRange(kvLog.files, r.value) == Some(value)
    {
      payloadAt := None;
      ghost var kvBefore, metaBefore := kvLog.files, metaLog.files;
      var kvData := Payload(key, value);
      var kvPos := kvLog.WriteData(kvData, fsync, kvIoOk);
      if kvPos.Err? {
        return Err, payloadAt;
      }
      var p := kvPos.value;
      payloadAt := Some(p);
      IndexedAfterAppend(kvBefore, kvLog.files, kvData, p, records, entries);

      var dividingPoint := DividingPoint(p, |key|);
      var meta := Meta(p.fileIndex, p.offset, p.length, dividingPoint);
      var metadata := Encode(meta);
      var metaPos := metaLog.WriteData(metadata, fsync, metaIoOk);
      if metaPos.Err? {
        return Err, payloadAt;
      }
      IndexedAfterWrite(kvBefore, kvLog.files, p, metaBefore, metaLog.files, metaPos.value,
                        key, value, records, entries);
      records := records + [meta];
      entries := entries + [Entry(key, value)];
      r := Ok(ValueLocation(p, |key|));
    }

    /** `read_meta()`: the whole meta log, a whole number of 25-byte records
        that replay to exactly the records written, in write order. */
    method ReadMeta() returns (r: Result<seq<U8>>)
      requires Valid()
      ensures r.Ok? && r.value == Concat(metaLog.files)
      ensures |r.value| % RECORD_SIZE == 0
      ensures ParseRecords(r.value) == Some(records)
    {
      r := metaLog.ReadAll();
      ParseMetaStream(records);
    }

    /** `read_kv(file_index, offset, length)`: exactly that range of the value
        log, or failure when it is not inside an existing file. */
    method ReadKv(fileIndex: U8, offset: U64, length: U64) returns (r: Result<seq<U8>>)
      ensures r.Ok? <==> fileIndex < |kvLog.files| && offset + length <= |kvLog.files[fileIndex]|
      ensures r.Ok? ==> r.value == kvLog.files[fileIndex][offset..offset + length]
      ensures ReadRange(kvLog.files, Location(fileIndex, offset, length)) == if r.Ok? then Some(r.value) else None
    {
      r := kvLog.ReadData(fileIndex, offset, length);
    }
  }
}
