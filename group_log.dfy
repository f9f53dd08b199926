/** The append-only, multi-file log group each side of the store is built on
    (`GroupLog`, imported at src/kv.rs:1). Only its contract is modelled:
    a sequence of at most 256 files, each a byte string, that grows only by
    appending a whole write to one file. */
module GroupLogs {
  import opened Results
  import opened Bytes

  const MAX_FILES: nat := 256

  /** `(file_index, offset, length)`: a byte range in one file of a group. */
  datatype Location = Location(fileIndex: U8, offset: U64, length: U64)

  /** Every file index fits a `u8` and every offset within a file a `u64`. */
  ghost predicate WellFormed(files: seq<seq<U8>>)
  {
    |files| <= MAX_FILES &&
    forall i :: 0 <= i < |files| ==> |files[i]| < U64_LIMIT
  }

  /** All files concatenated in file-index order: what `read_all` returns. */
  function Concat(files: seq<seq<U8>>): seq<U8>
  {
    if files == [] then [] else Concat(files[..|files| - 1]) + files[|files| - 1]
  }

  /** The exact byte range `loc` names, or None when it does not lie inside an
      existing file: what `read_data` returns. */
  function ReadRange(files: seq<seq<U8>>, loc: Location): Option<seq<U8>>
  {
    if loc.fileIndex < |files| && loc.offset + loc.length <= |files[loc.fileIndex]|
    then Some(files[loc.fileIndex][loc.offset..loc.offset + loc.length])
    else None
  }

  /** The contract of a successful `write_data(data)` returning `loc`: the
      data is appended whole either to the active (last) file or to a new
      file, and nothing else changes. */
  ghost predicate Appended(before: seq<seq<U8>>, after: seq<seq<U8>>, data: seq<U8>, loc: Location)
  {
    loc.length == |data| &&
    loc.offset + loc.length < U64_LIMIT &&
    |after| <= MAX_FILES &&
    ( (|before| > 0 && loc.fileIndex == |before| - 1 && loc.offset == |before[|before| - 1]| &&
       after == before[..|before| - 1] + [before[|before| - 1] + data])
    ||
      (loc.fileIndex == |before| && loc.offset == 0 && after == before + [data]) )
  }

  /** A successful append keeps the group well formed. */
  lemma AppendedWellFormed(before: seq<seq<U8>>, after: seq<seq<U8>>, data: seq<U8>, loc: Location)
    requires WellFormed(before) && Appended(before, after, data, loc)
    ensures WellFormed(after)
  {
  }

  /** The location a successful append returns reads back exactly the data. */
  lemma AppendedReadsBack(before: seq<seq<U8>>, after: seq<seq<U8>>, data: seq<U8>, loc: Location)
    requires Appended(before, after, data, loc)
    ensures ReadRange(after, loc) == Some(data)
  {
    var file := after[loc.fileIndex];
    if loc.fileIndex < |before| {
      assert file == before[|before| - 1] + data;
    }
    assert file[loc.offset..loc.offset + loc.length] == data;
  }

  /** An append never changes a range that could already be read. */
  lemma AppendedKeepsReads(before: seq<seq<U8>>, after: seq<seq<U8>>, data: seq<U8>, loc: Location,
                           other: Location)
    requires Appended(before, after, data, loc)
    requires ReadRange(before, other).Some?
    ensures ReadRange(after, other) == ReadRange(before, other)
  {
    var i := other.fileIndex;
    if i == loc.fileIndex {
      assert after[i] == before[i] + data;
      assert after[i][other.offset..other.offset + other.length]
          == before[i][other.offset..other.offset + other.length];
    } else {
      assert after[i] == before[i];
    }
  }

  /** `read_all` after an append is `read_all` before it followed by the data. */
  lemma AppendedConcat(before: seq<seq<U8>>, after: seq<seq<U8>>, data: seq<U8>, loc: Location)
    requires Appended(before, after, data, loc)
    ensures Concat(after) == Concat(before) + data
  {
  }

  /** One log group. The rotation policy in WriteData is one policy that meets
      the documented contract; clients rely only on `Appended`. */
  class GroupLog {
    var files: seq<seq<U8>>
    const limitPerFile: U64

    ghost predicate Valid()
      reads this
    {
      WellFormed(files)
    }

    /** A freshly opened, empty group. */
    constructor (limitPerFile: U64)
      ensures Valid() && files == [] && this.limitPerFile == limitPerFile
    {
      files := [];
      this.limitPerFile := limitPerFile;
    }

    /** `write_data(data, fsync)`. `ioOk` is the outcome of the underlying
        file I/O, which this model does not see; `fsync` only decides
        flushing and leaves the contents alone. */
    method WriteData(data: seq<U8>, fsync: bool, ioOk: bool) returns (r: Result<Location>)
      requires Valid()
      modifies this
      ensures Valid()
      ensures !ioOk ==> r.Err?
      ensures r.Err? ==> files == old(files)
      ensures r.Ok? ==> Appended(old(files), files, data, r.value)
    {
      if !ioOk {
        return Err;
      }
      var n := |files|;
      if n > 0 && |files[n - 1]| + |data| <= limitPerFile {
        var loc := Location(n - 1, |files[n - 1]|, |data|);
        files := files[..n - 1] + [files[n - 1] + data];
        r := Ok(loc);
      } else if n < MAX_FILES && |data| < U64_LIMIT {
        var loc := Location(n, 0, |data|);
        files := files + [data];
        r := Ok(loc);
      } else {
        return Err;
      }
      AppendedWellFormed(old(files), files, data, r.value);
    }

    /** `read_data(file_index, offset, length)`: exactly the requested range,
        or failure when it is not inside an existing file. */
    method ReadData(fileIndex: U8, offset: U64, length: U64) returns (r: Result<seq<U8>>)
      ensures r.Ok? <==> fileIndex < |files| && offset + length <= |files[fileIndex]|
      ensures r.Ok? ==> |r.value| == length && r.value == files[fileIndex][offset..offset + length]
      ensures ReadRange(files, Location(fileIndex, offset, length)) == if r.Ok? then Some(r.value) else None
    {
      if fileIndex < |files| && offset + length <= |files[fileIndex]| {
        r := Ok(files[fileIndex][offset..offset + length]);
      } else {
        r := Err;
      }
    }

    /** `read_all()`: every file's bytes in file-index order. */
    method ReadAll() returns (r: Result<seq<U8>>)
      ensures r.Ok? && r.value == Concat(files)
    {
      r := Ok(Concat(files));
    }
  }
}
