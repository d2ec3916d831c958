/** The scenarios of the `WritableFile` tests, stated for every writable
    directory, every name codec and every creation date rather than for one
    temporary directory and one fixed date. */
module WritableFileScenarios {
  import opened Wrappers
  import opened SwiftIntegers
  import opened Sequences
  import opened Bytes
  import opened FoundationMocks
  import opened WritableFiles

  /** Ten upper-case "A"s and ten upper-case "B"s, as the tests build them. */
  function ChunkA(): (d: Data)
    ensures |d| == 10 && FilledWith(d, 0x41)
  {
    MockRepeatingData(0x41, 10)
  }

  function ChunkB(): (d: Data)
    ensures |d| == 10 && FilledWith(d, 0x42)
  {
    MockRepeatingData(0x42, 10)
  }

  /** Creating a file, appending ten bytes and re-opening it by name gives a
      handle with the name made from the creation date, that creation date,
      size 10 and not empty. */
  lemma ItOpensExistingFile(dir: Directory, codec: FileNameCodec, createdAt: Date)
    requires RecoversDates(codec)
    requires dir.writable && codec.encode(createdAt) !in dir.files
    ensures var created := CreateNew(dir, codec, createdAt).value;
      var appended := Append(created.directory, created.file, [ChunkA()]).value;
      var reopened := OpenExisting(appended.directory, codec, created.file.name);
      && reopened.Ok?
      && reopened.value.name == codec.encode(createdAt)
      && reopened.value.creationDate == createdAt
      && reopened.value.size == 10
      && !reopened.value.IsEmpty()
  {
  }

  /** Appending chunk A to a new file stores exactly A (size 10 on the handle
      and on disk); a second append whose block writes B and then A leaves
      A, B, A in that order (size 30 on the handle and on disk). */
  lemma ItAppendsDataInFile(dir: Directory, codec: FileNameCodec, createdAt: Date)
    requires dir.writable && codec.encode(createdAt) !in dir.files
    ensures var created := CreateNew(dir, codec, createdAt).value;
      var name := created.file.name;
      var first := Append(created.directory, created.file, [ChunkA()]).value;
      var second := Append(first.directory, first.file, [ChunkB(), ChunkA()]).value;
      && !first.file.IsEmpty()
      && first.file.size == 10
      && first.directory.files[name] == Repeat(0x41, 10)
      && second.file.size == 30
      && |second.directory.files[name]| == 30
      && second.directory.files[name] == Repeat(0x41, 10) + Repeat(0x42, 10) + Repeat(0x41, 10)
  {
  }
}
