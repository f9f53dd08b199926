# Key-value separation layer of tigadb, modelled in Dafny

This project models `KV`, the key-value separation layer of a log-structured store (src/kv.rs). `KV` owns two append-only log groups:

- the value log (`kv_log`) holds payloads, each the key bytes immediately followed by the value bytes;
- the meta log (`meta_log`) holds one fixed 25-byte record per payload. A record is the file index (1 byte), then the payload's offset, its length and the dividing point (the absolute offset of the first value byte). Each of the last three is a big-endian `u64`.

`write` appends the payload first. It appends the record only if that succeeded. It returns the location of the value bytes alone. `read_meta` returns the whole meta log. `read_kv` returns one exact range of the value log.

Files:

- `bytes.dfy`: `Results`, with `Option` and `Result` (every `io::Error` is the single outcome `Err`). `Bytes`, with `u8`/`u64` as subset types and the big-endian encoding and its inverse.
- `group_log.dfy`: `GroupLogs`, the log group `GroupLog` that src/kv.rs imports. It is modelled only by its contract: at most 256 files, each a byte string. A successful `write_data` appends the data whole, either to the active (last) file or to a new file (`Appended`). `read_data` returns an exact range or fails. `read_all` concatenates the files in index order.
- `meta_record.dfy`: `MetaRecord`, the 25-byte record with its encoder, its decoder, and the replay of a meta log 25 bytes at a time.
- `kv.dfy`: `KVStore`, the pure arithmetic of `write` (payload, dividing point, value-only location), the return formula as written, and the class `KV`.

`KV.Valid()` is the store's invariant. The meta log is exactly the encodings of the records written, in order, so its length is always a multiple of 25. Record i's payload range in the value log holds `key ++ value` of the i-th pair written. Its dividing point is the offset plus the key length. `KV.Write` keeps this invariant on every outcome, including a failed meta append. In that case the payload is left in the value log, but no record points at it.

Where the code and its documentation differ, the model follows the code:

- The dividing point is absolute, as src/kv.rs:29 computes it (offset plus key length). It is not relative to the payload start.
- Its bound is `offset <= dividing point <= offset + length`. The bound is not strict: an empty key puts the dividing point at the payload's start, and an empty value puts it at the payload's end.

Several lines of src/kv.rs do not compile as written, and the model follows their evident intent:

- src/kv.rs:27 builds the payload from `[*key, *value]`, which are unsized.
- src/kv.rs:31-33 name `to_be_bytes` without calling it.
- src/kv.rs:34 mixes a `u8` with byte arrays in one `concat`.
- src/kv.rs:46 and src/kv.rs:51 return the unsized `[u8]`.

The return triple of src/kv.rs:40-41 is a defect (see Findings). The model returns the documented value-only location (src/kv.rs:19).

## Model

| member | source | states |
|---|---|---|
| Bytes.U64ToBytes | src/kv.rs:31-33 | `to_be_bytes` gives exactly 8 bytes whose big-endian value is the number |
| Bytes.FromToBigEndian | src/kv.rs:31-33 | big-endian encoding is lossless: decoding the encoding of any number that fits the width gives it back |
| Bytes.ToFromBigEndian | src/kv.rs:31-33 | the converse: re-encoding a decoded byte string gives back the same bytes |
| MetaRecord.Encode | src/kv.rs:31-36 | a metadata record is always exactly 25 bytes |
| MetaRecord.EncodeLayout | src/kv.rs:31-36 | byte 0 is the file index; bytes 1..9, 9..17 and 17..25 read big-endian as the offset, the length and the dividing point |
| MetaRecord.DecodeEncode | src/kv.rs:31-36 | decoding an encoded record gives back all four fields |
| MetaRecord.EncodeDecode | src/kv.rs:31-36 | every 25-byte string decodes, and re-encodes to itself, so records and 25-byte strings correspond one to one |
| MetaRecord.MetaStream | src/kv.rs:37 | a meta log holding n records is exactly 25 * n bytes |
| MetaRecord.MetaStreamAppend | src/kv.rs:37 | appending one record extends the meta log by exactly that record's 25 bytes |
| MetaRecord.ParseRecords | src/kv.rs:46-48 | walking a byte string 25 bytes at a time succeeds exactly when its length is a multiple of 25, and then yields one record per 25 bytes |
| MetaRecord.ParseMetaStream | src/kv.rs:46-48 | replaying a meta log gives back exactly the records written, in write order |
| GroupLogs.AppendedWellFormed | src/kv.rs:28 | a successful append keeps a log group within 256 files, each addressable by `u64` offsets |
| GroupLogs.AppendedReadsBack | src/kv.rs:28 | the location `write_data` returns reads back exactly the data written |
| GroupLogs.AppendedKeepsReads | src/kv.rs:28 | an append never changes any range that could already be read |
| GroupLogs.AppendedConcat | src/kv.rs:37 | after an append, `read_all` is the earlier `read_all` followed by the data |
| GroupLogs.GroupLog.constructor | src/kv.rs:14-15 | a newly opened group is empty and keeps its per-file limit |
| GroupLogs.GroupLog.WriteData | src/kv.rs:28 | on success the data is appended whole to one file (the active one or a new one) and nothing else changes; on failure nothing changes |
| GroupLogs.GroupLog.ReadData | src/kv.rs:52 | returns exactly the requested range, or fails when the range is not inside an existing file; never a partial read |
| GroupLogs.GroupLog.ReadAll | src/kv.rs:47 | returns all files concatenated in file-index order |
| KVStore.Payload | src/kv.rs:27 | the payload is the key followed by the value: its first `len(key)` bytes are the key and the rest the value |
| KVStore.DividingPoint | src/kv.rs:29 | the dividing point lies within the payload (`offset <= d <= offset + length`), so it never overflows a `u64` |
| KVStore.MetaFor | src/kv.rs:29-34 | the record `(index, offset, length, dividing point)` names the payload just appended, and its dividing point lies within that payload, `len(key)` bytes in |
| KVStore.ValueLocation | src/kv.rs:19 | the value-only location keeps the file index, starts at the dividing point and ends where the payload ends |
| KVStore.SplitReadsBack | src/kv.rs:19-29 | where a payload is `key ++ value`, the range from its start to the dividing point reads back the key, and the value-only location reads back exactly the value, also for an empty key or value |
| KVStore.LiteralReturn | src/kv.rs:38-42 | the triple as written, in both build profiles: it keeps the file index, and works out to offset `2 * offset + len(key)` and length `length - len(key) - offset`, taken modulo 2^64. With overflow checks on (debug profile) None stands for the panic; without them (release profile) both wrap |
| KVStore.LiteralReturnMissesValue | src/kv.rs:38-42 | in either build profile, the triple as written never locates the value of a payload at a nonzero offset. Its length is never `len(value)`: with overflow checks on it panics or is short by the offset; in release it is short by the offset or wraps to `len(value) - offset + 2^64` |
| KVStore.LiteralReturnAtFileStart | src/kv.rs:38-42 | in either build profile, the triple as written equals the value-only location exactly when the payload starts its file |
| KVStore.LiteralReturnExample | src/kv.rs:38-42 | with key [1] and value [2] written after one byte, the triple as written is (0, 3, 0) in both build profiles, which reads back nothing instead of [2] |
| KVStore.IndexedAfterAppend | src/kv.rs:28-37 | appending to the value log leaves every indexed payload intact, so an orphan payload from a failed meta append is harmless |
| KVStore.IndexedAfterWrite | src/kv.rs:27-37 | a successful write leaves the value log well formed, appends exactly one record to the meta log, extends the index by the new pair, and its value-only location reads back the value |
| KVStore.RecordLocatesEntry | src/kv.rs:29-37 | from a meta record alone, the range from offset to dividing point reads back the key written, and the range from dividing point to payload end reads back the value |
| KVStore.KV.constructor | src/kv.rs:12-16 | a new store has two distinct, empty logs and an empty index |
| KVStore.KV.Write | src/kv.rs:21-43 | the value log is appended first, with `key ++ value` in one append. If that fails, both logs are unchanged. If the meta append fails, only the value log has grown. On success exactly one record `(index, offset, length, offset + len(key))` is appended to the meta log. The result carries the value log's file index unaltered, and its range reads back exactly `value`. The invariant holds on every path |
| KVStore.KV.ReadMeta | src/kv.rs:46-48 | returns the whole meta log: a multiple of 25 bytes that replays to exactly the records written |
| KVStore.KV.ReadKv | src/kv.rs:51-53 | returns exactly the requested range of the value log, or fails when it is out of range; reads change nothing |

## Left out

- Construction from directory names (src/kv.rs:12-16): opening storage is I/O. The model's constructor opens two empty log groups. Content left in the directories by an earlier run is not modelled.
- `fsync` (src/kv.rs:25, 28, 37) is passed through and ignored. Durable flushing is physical and has no effect on the bytes.
- `GroupLog` internals (src/kv.rs:1) are not part of this model: file handles, directories and the rotation policy. `GroupLog.WriteData` has one policy as its body. It appends to the last file while that stays within the per-file limit. Otherwise it opens a new file, up to 256. A write larger than the limit gets a file of its own. `KV` relies only on the `Appended` contract, never on this policy.
- I/O faults are not visible to the model. Each append takes a boolean outcome parameter instead (`ioOk`, `kvIoOk`, `metaIoOk`). All `io::Error` kinds collapse to `Err`.
- Read-side I/O faults other than an out-of-range request are not modelled: `read_all` always succeeds.
- A crash between the two appends is represented by a failed meta append. The process dying is not modelled.
- `read_kv`'s `usize` length is a `u64` here (64-bit targets).
- Building a key-to-location index from the meta log is caller logic, not part of this layer. `RecordLocatesEntry` states what such a caller can rely on.
- Concurrency: this layer has none.

## Findings

| source | as written | input that shows it | evidently intended | confidence | as-written member | corrected member |
|---|---|---|---|---|---|---|
| src/kv.rs:40-41 | returns `(index, offset + dividing_point, length - dividing_point)`, where `dividing_point` is already `offset + len(key)` | a value file holding one byte, then `write([1], [2])`: the payload is at offset 1 with length 2, and the dividing point is 2. The returned triple is (0, 3, 0), which reads back `[]`, not `[2]`. Whenever the payload's offset exceeds `len(value)`, the subtraction underflows. It panics with overflow checks on (the debug profile) and wraps to `len(value) - offset + 2^64` without them (the release profile) | `(index, offset + len(key), length - len(key))`, the value-only range documented at src/kv.rs:19 | high (not executed) | KVStore.LiteralReturnMissesValue | KVStore.SplitReadsBack |
