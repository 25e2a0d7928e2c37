/**
 * mergeAllRountes.py: the `.fit` files of a directory, ordered by day number,
 * are concatenated byte for byte into one file; every file after the first
 * loses its first `header_size` bytes, `header_size` being its first byte.
 */
module MergeFit {
  import opened Wrappers
  import opened Text
  import opened Sorting
  import opened FileNames

  newtype byte = b: int | 0 <= b < 256

  /** A directory entry with its contents. */
  datatype FitBytes = FitBytes(name: string, bytes: seq<byte>)

  datatype MergeError =
    | EmptyLaterFile   // `file_bytes[0]` raises IndexError on an empty file after the first

  /** `extract_day_number`: the day, or infinity for names without one. */
  function EntryKey(f: FitBytes): Key {
    DayKey(f.name)
  }

  /** `[f for f in os.listdir(test_dir) if f.endswith('.fit')]`. */
  function FitEntries(listing: seq<FitBytes>): (r: seq<FitBytes>)
    ensures forall i :: 0 <= i < |r| ==> EndsWith(r[i].name, ".fit")
    ensures forall f :: multiset(r)[f] == if EndsWith(f.name, ".fit") then multiset(listing)[f] else 0
    ensures |r| <= |listing|
  {
    if listing == [] then []
    else
      var init, last := listing[..|listing| - 1], listing[|listing| - 1];
      assert listing == init + [last];
      FitEntries(init) + (if EndsWith(last.name, ".fit") then [last] else [])
  }

  /** The files in the order they are read: stably sorted by day number. */
  function MergeOrder(listing: seq<FitBytes>): seq<FitBytes> {
    SortByKey(FitEntries(listing), EntryKey)
  }

  /** Where the kept part of a later file starts: its first byte, capped at its length as slicing does. */
  function HeaderEnd(bytes: seq<byte>): (n: nat)
    requires bytes != []
    ensures n <= |bytes|
  {
    if bytes[0] as int <= |bytes| then bytes[0] as int else |bytes|
  }

  /** `file_bytes[file_bytes[0]:]`, or the error an empty file raises. */
  function Stripped(bytes: seq<byte>): Result<seq<byte>, MergeError> {
    if bytes == [] then Err(EmptyLaterFile) else Ok(bytes[HeaderEnd(bytes)..])
  }

  /** The loop's bookkeeping for a later file: an earlier error stands, a new one stops, the rest is appended. */
  function AddBytes(before: Result<seq<byte>, MergeError>, more: Result<seq<byte>, MergeError>): Result<seq<byte>, MergeError> {
    match before
    case Err(e) => Err(e)
    case Ok(m) =>
      match more
      case Err(e) => Err(e)
      case Ok(b) => Ok(m + b)
  }

  /** `merged_data` after reading `files` in order: the first file whole, each later one stripped. */
  function Merged(files: seq<FitBytes>): Result<seq<byte>, MergeError> {
    if files == [] then Ok([])
    else if |files| == 1 then Ok(files[0].bytes)
    else AddBytes(Merged(files[..|files| - 1]), Stripped(files[|files| - 1].bytes))
  }

  /** What `main` writes: the merged bytes, None when they are empty ("No FIT files found to merge."), or the error. */
  function MergeAll(listing: seq<FitBytes>): Result<Option<seq<byte>>, MergeError> {
    match Merged(MergeOrder(listing))
    case Err(e) => Err(e)
    case Ok(m) => Ok(if m == [] then None else Some(m))
  }

  lemma MergedStep(files: seq<FitBytes>, i: nat)
    requires 0 < i < |files|
    ensures Merged(files[..i + 1]) == AddBytes(Merged(files[..i]), Stripped(files[i].bytes))
  {
    var prefix := files[..i + 1];
    assert prefix[..|prefix| - 1] == files[..i] && prefix[|prefix| - 1] == files[i];
  }

  lemma {:induction false} MergedErrorPersists(files: seq<FitBytes>, i: nat)
    requires 0 < i <= |files| && Merged(files[..i]).Err?
    ensures Merged(files) == Merged(files[..i])
    decreases |files| - i
  {
    if i < |files| {
      MergedStep(files, i);
      MergedErrorPersists(files, i + 1);
    } else {
      assert files[..i] == files;
    }
  }

  /** `main`: read each file in order, keep the first whole and strip the header of the others, then write. */
  method MergeAllRoutes(listing: seq<FitBytes>) returns (r: Result<Option<seq<byte>>, MergeError>)
    ensures r == MergeAll(listing)
  {
    var files := MergeOrder(listing);
    var first := true;
    var merged: seq<byte> := [];
    var i := 0;
    while i < |files|
      invariant 0 <= i <= |files|
      invariant first <==> i == 0
      invariant Merged(files[..i]) == Ok(merged)
    {
      var fileBytes := files[i].bytes;
      if first {
        assert files[..1] == [files[0]] && merged == [];
        assert merged + fileBytes == fileBytes;
        merged := merged + fileBytes;
        first := false;
      } else {
        MergedStep(files, i);
        if fileBytes == [] {
          MergedErrorPersists(files, i + 1);
          return Err(EmptyLaterFile);
        }
        var headerSize := fileBytes[0] as int;
        var rest := if headerSize <= |fileBytes| then fileBytes[headerSize..] else [];
        assert fileBytes[|fileBytes|..] == [];
        assert Stripped(fileBytes) == Ok(rest);
        merged := merged + rest;
      }
      i := i + 1;
    }
    assert files[..i] == files;
    if merged != [] {
      r := Ok(Some(merged));
    } else {
      r := Ok(None);
    }
  }

  // ---------------------------------------------------------------------------
  // Properties

  /** The header and the kept part put back together give the file: only a prefix is dropped. */
  lemma StrippedIsSuffix(bytes: seq<byte>)
    requires bytes != []
    ensures bytes[..HeaderEnd(bytes)] + Stripped(bytes).value == bytes
    ensures |Stripped(bytes).value| == if bytes[0] as int >= |bytes| then 0 else |bytes| - bytes[0] as int
  {
  }

  /** How many bytes a file contributes after the first. */
  function Payload(f: FitBytes): nat
    requires f.bytes != []
  {
    |f.bytes| - HeaderEnd(f.bytes)
  }

  /** The merge fails exactly when some file after the first is empty. */
  lemma {:induction false} MergedFailsIff(files: seq<FitBytes>)
    ensures Merged(files).Err? <==> exists i :: 1 <= i < |files| && files[i].bytes == []
    decreases |files|
  {
    if |files| > 1 {
      var init := files[..|files| - 1];
      MergedFailsIff(init);
      assert forall i :: 0 <= i < |init| ==> init[i] == files[i];
    }
  }

  /** The total length of the later files' contributions. */
  function PayloadSum(files: seq<FitBytes>): nat
    requires forall i :: 0 <= i < |files| ==> files[i].bytes != []
  {
    if files == [] then 0 else PayloadSum(files[..|files| - 1]) + Payload(files[|files| - 1])
  }

  /** A successful merge starts with the whole first file, and its length is the first file's plus every later payload. */
  lemma {:induction false} MergedShape(files: seq<FitBytes>)
    requires files != [] && Merged(files).Ok?
    ensures files[0].bytes <= Merged(files).value
    ensures forall i :: 1 <= i < |files| ==> files[i].bytes != []
    ensures |Merged(files).value| == |files[0].bytes| + PayloadSum(files[1..])
    decreases |files|
  {
    MergedFailsIff(files);
    if |files| > 1 {
      var init := files[..|files| - 1];
      MergedShape(init);
      assert init[0] == files[0];
      assert files[1..][..|files| - 2] == init[1..];
    }
  }

  /** The files are read in day order, and they are exactly the `.fit` entries. */
  lemma ReadOrder(listing: seq<FitBytes>)
    ensures SortedBy(MergeOrder(listing), EntryKey)
    ensures multiset(MergeOrder(listing)) == multiset(FitEntries(listing))
  {
    SortSorts(FitEntries(listing), EntryKey);
    SortPermutes(FitEntries(listing), EntryKey);
  }

  /** Nothing is written exactly when the merged bytes are empty. */
  lemma NothingWrittenIff(listing: seq<FitBytes>)
    requires MergeAll(listing).Ok?
    ensures MergeAll(listing).value.None? <==> Merged(MergeOrder(listing)).value == []
  {
  }

  /** A later file whose header size is at least its length adds nothing. */
  lemma OversizedHeaderAddsNothing(files: seq<FitBytes>, f: FitBytes)
    requires files != [] && Merged(files).Ok?
    requires f.bytes != [] && f.bytes[0] as int >= |f.bytes|
    ensures Merged(files + [f]) == Merged(files)
  {
    assert (files + [f])[..|files|] == files;
    assert Merged(files).value + [] == Merged(files).value;
  }
}
