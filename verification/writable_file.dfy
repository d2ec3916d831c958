/** The append-only `WritableFile` as its tests pin it down: a file in a
    directory, named after its creation date, whose handle tracks the file's
    size, and to which an `append` block writes chunks one after another at
    the end of the file.

    The file system is an in-memory `Directory`: a flag saying whether new
    files may be created in it, and a map from file name to stored bytes. */
module WritableFiles {
  import opened Wrappers
  import opened Sequences
  import opened Bytes

  /** An instant, at the precision the file name keeps (a sub-millisecond
      part of a Swift `Date` is not represented). It is kept opaque: nothing
      below looks inside it. */
  datatype Date = Date(instant: int)

  type FileName = string

  /** The pair `fileNameFrom(fileCreationDate:)` and its decoder. Their
      encoding is not part of this model, so they travel as a value, and what
      the tests rely on about them is the hypothesis `RecoversDates`. */
  datatype FileNameCodec = FileNameCodec(encode: Date -> FileName, decode: FileName -> Option<Date>)

  /** Decoding the name made from a date gives that date back. */
  ghost predicate RecoversDates(codec: FileNameCodec)
  {
    forall d: Date :: codec.decode(codec.encode(d)) == Some(d)
  }

  datatype Directory = Directory(writable: bool, files: map<FileName, Data>)

  /** A handle on one file: its name (`fileURL.lastPathComponent`), its
      creation date and the size it tracks without asking the file system. */
  datatype WritableFile = WritableFile(name: FileName, creationDate: Date, size: nat)
  {
    predicate IsEmpty()
    {
      size == 0
    }
  }

  datatype FileError =
    | DirectoryNotWritable
    | FileAlreadyExists
    | FileNotFound
    | UndecodableFileName

  /** A directory together with a handle on one of its files. */
  datatype Opened = Opened(directory: Directory, file: WritableFile)

  /** The handle names a file of `dir`, and its tracked size is the number of
      bytes stored there. */
  predicate Tracks(dir: Directory, file: WritableFile)
  {
    file.name in dir.files && file.size == |dir.files[file.name]|
  }

  /** Only the file called `name` may differ between `before` and `after`. */
  predicate OthersUnchanged(before: Directory, after: Directory, name: FileName)
  {
    && after.writable == before.writable
    && after.files.Keys - {name} == before.files.Keys - {name}
    && forall n :: n in before.files && n != name ==> n in after.files && after.files[n] == before.files[n]
  }

  /** `WritableFile(newFileInDirectory:createdAt:)`: creates an empty file
      named after `createdAt`. */
  function CreateNew(dir: Directory, codec: FileNameCodec, createdAt: Date): (r: Result<Opened, FileError>)
    ensures r.Ok? <==> dir.writable && codec.encode(createdAt) !in dir.files
    ensures !dir.writable ==> r == Err(DirectoryNotWritable)
    ensures dir.writable && codec.encode(createdAt) in dir.files ==> r == Err(FileAlreadyExists)
    ensures r.Ok? ==>
      && r.value.file.name == codec.encode(createdAt)
      && r.value.file.creationDate == createdAt
      && r.value.file.IsEmpty()
      && Tracks(r.value.directory, r.value.file)
      && r.value.directory.files[r.value.file.name] == []
      && r.value.directory.files.Keys == dir.files.Keys + {r.value.file.name}
      && OthersUnchanged(dir, r.value.directory, r.value.file.name)
  {
    var name := codec.encode(createdAt);
    if !dir.writable then Err(DirectoryNotWritable)
    else if name in dir.files then Err(FileAlreadyExists)
    else Ok(Opened(dir.(files := dir.files[name := []]), WritableFile(name, createdAt, 0)))
  }

  /** `WritableFile(existingFileFromURL:)`: re-opens the file called `name`,
      recovering its creation date from the name and its size from the bytes
      stored. */
  function OpenExisting(dir: Directory, codec: FileNameCodec, name: FileName): (r: Result<WritableFile, FileError>)
    ensures r.Ok? <==> name in dir.files && codec.decode(name).Some?
    ensures name !in dir.files ==> r == Err(FileNotFound)
    ensures name in dir.files && codec.decode(name).None? ==> r == Err(UndecodableFileName)
    ensures r.Ok? ==>
      && r.value.name == name
      && codec.decode(name) == Some(r.value.creationDate)
      && Tracks(dir, r.value)
  {
    if name !in dir.files then Err(FileNotFound)
    else match codec.decode(name)
      case None => Err(UndecodableFileName)
      case Some(date) => Ok(WritableFile(name, date, |dir.files[name]|))
  }

  /** What the `write` closure of one `append` block has produced so far:
      the file's bytes and the handle's tracked size. */
  datatype Progress = Progress(content: Data, size: nat)

  /** The `write` calls of one `append` block, in call order: each seeks to
      the end of the file, writes its chunk there and adds the chunk's length
      to the tracked size. */
  function WriteAll(p: Progress, chunks: seq<Data>): Progress
    decreases |chunks|
  {
    if |chunks| == 0 then p
    else WriteAll(Progress(p.content + chunks[0], p.size + |chunks[0]|), chunks[1..])
  }

  /** Writing chunk after chunk leaves the earlier bytes in place, followed by
      all chunks contiguously and in call order, and counts every byte. */
  lemma {:induction false} WriteAllAppendsConcat(p: Progress, chunks: seq<Data>)
    ensures WriteAll(p, chunks) == Progress(p.content + Concat(chunks), p.size + TotalLength(chunks))
    decreases |chunks|
  {
    if |chunks| > 0 {
      var next := Progress(p.content + chunks[0], p.size + |chunks[0]|);
      WriteAllAppendsConcat(next, chunks[1..]);
      assert p.content + chunks[0] + Concat(chunks[1..]) == p.content + (chunks[0] + Concat(chunks[1..]));
    }
  }

  /** `append { write in ... }` where the block calls `write` once per element
      of `chunks`. It fails, leaving everything as it was, when the file is no
      longer in the directory. */
  function Append(dir: Directory, file: WritableFile, chunks: seq<Data>): (r: Result<Opened, FileError>)
    ensures r.Ok? <==> file.name in dir.files
    ensures r.Err? ==> r.error == FileNotFound
    ensures r.Ok? ==>
      && r.value.file == file.(size := file.size + TotalLength(chunks))
      && file.name in r.value.directory.files
      && r.value.directory.files[file.name] == dir.files[file.name] + Concat(chunks)
      && r.value.directory.files.Keys == dir.files.Keys
      && OthersUnchanged(dir, r.value.directory, file.name)
  {
    if file.name !in dir.files then Err(FileNotFound)
    else
      var p := WriteAll(Progress(dir.files[file.name], file.size), chunks);
      WriteAllAppendsConcat(Progress(dir.files[file.name], file.size), chunks);
      Ok(Opened(dir.(files := dir.files[file.name := p.content]), file.(size := p.size)))
  }

  /** A handle that tracks its file still does so after an append: the
      tracked size equals the number of bytes on disk. */
  lemma AppendKeepsSizeTracked(dir: Directory, file: WritableFile, chunks: seq<Data>)
    requires Tracks(dir, file)
    ensures Append(dir, file, chunks).Ok?
    ensures Tracks(Append(dir, file, chunks).value.directory, Append(dir, file, chunks).value.file)
  {
    ConcatLength(chunks);
  }

  /** The file is empty exactly when its tracked size is zero, which for a
      tracking handle is exactly when no bytes are stored; after an append it
      is empty only if it was empty and every chunk was empty. */
  lemma IsEmptyMeansNoBytes(dir: Directory, file: WritableFile, chunks: seq<Data>)
    requires Tracks(dir, file)
    ensures file.IsEmpty() <==> dir.files[file.name] == []
    ensures Append(dir, file, chunks).value.file.IsEmpty() <==> file.IsEmpty() && Concat(chunks) == []
  {
  }

  /** The offset in the file at which chunk `i` of an append lands: the prior
      size plus the lengths of the chunks written before it. */
  function ChunkOffset(oldSize: nat, chunks: seq<Data>, i: nat): nat
    requires i <= |chunks|
  {
    oldSize + TotalLength(chunks[..i])
  }

  /** Chunks land contiguously and in call order at the end of the file: the
      prior bytes are untouched and chunk `i` occupies the bytes from its offset
      up to the offset of chunk `i + 1`. */
  lemma {:induction false} AppendPlacesChunksInOrder(dir: Directory, file: WritableFile, chunks: seq<Data>, i: nat)
    requires file.name in dir.files
    requires i < |chunks|
    ensures var content := Append(dir, file, chunks).value.directory.files[file.name];
      var prior := dir.files[file.name];
      && |content| == |prior| + TotalLength(chunks)
      && content[..|prior|] == prior
      && ChunkOffset(|prior|, chunks, i) <= ChunkOffset(|prior|, chunks, i + 1) <= |content|
      && content[ChunkOffset(|prior|, chunks, i)..ChunkOffset(|prior|, chunks, i + 1)] == chunks[i]
  {
    var prior := dir.files[file.name];
    var content := Append(dir, file, chunks).value.directory.files[file.name];
    var before, rest := chunks[..i], chunks[i + 1..];
    assert chunks == before + [chunks[i]] + rest;
    assert chunks[..i + 1] == before + [chunks[i]];
    ConcatAppend(before + [chunks[i]], rest);
    ConcatAppend(before, [chunks[i]]);
    assert Concat([chunks[i]]) == chunks[i] + Concat([]);
    TotalLengthAppend(before, [chunks[i]]);
    assert TotalLength([chunks[i]]) == |chunks[i]|;
    ConcatLength(before);
    ConcatLength(chunks);
    assert content == prior + Concat(before) + chunks[i] + Concat(rest);
  }

  /** Two `append` calls in a row have the same effect as one call whose
      block writes the chunks of the first and then those of the second. */
  lemma AppendTwiceIsAppendOnce(dir: Directory, file: WritableFile, a: seq<Data>, b: seq<Data>)
    requires file.name in dir.files
    ensures var first := Append(dir, file, a).value;
      Append(first.directory, first.file, b) == Append(dir, file, a + b)
  {
    ConcatAppend(a, b);
    TotalLengthAppend(a, b);
    var name, prior := file.name, dir.files[file.name];
    var first := Append(dir, file, a).value;
    assert first.directory.files == dir.files[name := prior + Concat(a)];
    var second := Append(first.directory, first.file, b).value;
    assert second.directory.files == dir.files[name := prior + Concat(a) + Concat(b)];
    assert prior + Concat(a) + Concat(b) == prior + Concat(a + b);
  }

  /** Re-opening a file through a handle that tracks it, and whose name was
      made from its creation date, yields the same handle again: the same
      name, the same creation date and the size of the bytes appended. */
  lemma ReopenRecoversHandle(dir: Directory, codec: FileNameCodec, file: WritableFile)
    requires RecoversDates(codec)
    requires Tracks(dir, file)
    requires file.name == codec.encode(file.creationDate)
    ensures OpenExisting(dir, codec, file.name) == Ok(file)
  {
  }
}
