# WritableFile and the Foundation data mocks of dd-sdk-ios, in Dafny

This project models two pieces of the Datadog iOS SDK's test suite.

1. **The append-only `WritableFile`**, as its tests pin it down. The model has a
   directory and a file handle. The directory has a "writable" flag and maps file
   names to stored bytes. The handle holds the file name, the creation date and a
   tracked size. The model covers:
   - creating a new empty file named after its creation date;
   - re-opening an existing file, which recovers the date from the name and the
     size from the stored bytes;
   - an `append` block whose `write` calls put chunks at the end of the file, in
     call order.

   Creating a file and opening one can fail, and so can appending to a file that
   has disappeared. Each failure is an error result.
2. **The data-building mocks**: `Data.mockRepeating(byte:times:)`,
   `Data.mock(ofSize:)`, `String.mockRepeating(character:times:)` and
   `Array<Data>.mockChunksOf(totalSize:)`. The last one splits a `UInt64` total
   into chunks of at most `Int.max` bytes. Swift's `UInt64` and `Int` are
   modelled as newtypes, so every subtraction, conversion and addition in that loop must be
   proved not to trap.

Layout:
- `wrappers.dfy` holds `Option` and `Result`.
- `swift_integers.dfy` holds `UInt64`, the 64-bit `Int` and `Int.max`.
- `sequences.dfy` holds chunk concatenation, total length and repetition.
- `bytes.dfy` holds `Byte` and `Data`.
- `foundation_mocks.dfy` models the mocks.
- `writable_file.dfy` models `WritableFile`.
- `writable_file_scenarios.dfy` states the test scenarios for every directory,
  codec and date.

`fileNameFrom(fileCreationDate:)` and its decoder are not part of this model. They
are carried as a `FileNameCodec` value. The tests depend on one assumption about
them: decoding the name made from a date gives that date back. That assumption is
the hypothesis `RecoversDates(codec)`, and it appears only in the `requires` of
the lemmas that use it. It is never proved. The `WritableFile` implementation
itself is not part of this model either, so its behaviour is the one the tests
assert. In two places the model picks a behaviour the tests leave open; both
are listed under "Left out".

## Model

| member | source | states |
|---|---|---|
| FoundationMocks.MockRepeatingData | Tests/DatadogTests/Datadog/Mocks/FoundationMocks.swift:41-43 | the result has exactly `count` bytes, each equal to `byte`; a negative count is excluded because `Data(repeating:count:)` traps on it |
| Sequences.RepeatCharacterised | Tests/DatadogTests/Datadog/Mocks/FoundationMocks.swift:41-43 | a sequence is the repetition of `x` exactly `n` times if and only if it has length `n` and every element is `x` |
| FoundationMocks.MockData | Tests/DatadogTests/Datadog/Mocks/FoundationMocks.swift:45-47 | the result has `size` bytes, all `0x41`; sizes above `Int.max` are excluded because `Int(size)` traps on them |
| FoundationMocks.MockRepeatingString | Tests/DatadogTests/Datadog/Mocks/FoundationMocks.swift:111-114 | the string has length `times` and every character is `character`; a negative `times` is excluded because the range `0..<times` traps on it |
| FoundationMocks.MockChunksOf | Tests/DatadogTests/Datadog/Mocks/FoundationMocks.swift:50-64 | the loop never underflows, overflows or fails to terminate; the chunk lengths sum to exactly `totalSize`; every chunk is non-empty, at most `Int.max` long and filled with `0x01`; the result is empty exactly when `totalSize` is 0; the result equals the recursive reference `ChunksFor` |
| FoundationMocks.ChunksForTotal | Tests/DatadogTests/Datadog/Mocks/FoundationMocks.swift:51-52 | the reference chunks add up to the requested total, as the doc comment promises |
| FoundationMocks.ChunksForShape | Tests/DatadogTests/Datadog/Mocks/FoundationMocks.swift:56-59 | every reference chunk is non-empty, at most `Int.max` long and all `0x01`; every chunk but the last is exactly `Int.max` long |
| FoundationMocks.ChunksForCount | Tests/DatadogTests/Datadog/Mocks/FoundationMocks.swift:56-61 | the number of chunks is the total divided by `Int.max`, rounded up, so any `UInt64` total gives at most three chunks |
| WritableFiles.CreateNew | Tests/DatadogTests/Core/Persistence/Files/WritableFileTests.swift:15-32 | creation succeeds exactly when the directory is writable and the name is free; a non-writable directory gives `DirectoryNotWritable`; on success the file is named `encode(createdAt)`, has creation date `createdAt`, has size 0, is empty, holds no bytes, and no other file changes |
| WritableFiles.OpenExisting | Tests/DatadogTests/Core/Persistence/Files/WritableFileTests.swift:34-49 | opening succeeds exactly when the file exists and its name decodes; a missing file gives `FileNotFound`; on success the handle keeps the given name, carries the decoded date and tracks the stored byte count |
| WritableFiles.WriteAllAppendsConcat | Tests/DatadogTests/Core/Persistence/Files/WritableFileTests.swift:68-84 | running the `write` calls of one block one by one gives the prior bytes followed by all chunks concatenated in call order, and adds the sum of chunk lengths to the tracked size |
| WritableFiles.Append | Tests/DatadogTests/Core/Persistence/Files/WritableFileTests.swift:51-85 | an append succeeds exactly when the file is still in the directory, and otherwise fails with `FileNotFound`; on success the file holds its prior bytes followed by the chunks in order, the tracked size grows by their total length, the name and date are unchanged, and no other file changes |
| WritableFiles.AppendKeepsSizeTracked | Tests/DatadogTests/Core/Persistence/Files/WritableFileTests.swift:56-74 | if the tracked size equalled the on-disk size before an append, the append succeeds and the two sizes are still equal after it |
| WritableFiles.IsEmptyMeansNoBytes | Tests/DatadogTests/Core/Persistence/Files/WritableFileTests.swift:56-60 | a tracking handle is empty if and only if no bytes are stored; after an append it is empty if and only if it was empty and the chunks were all empty |
| WritableFiles.AppendPlacesChunksInOrder | Tests/DatadogTests/Core/Persistence/Files/WritableFileTests.swift:68-84 | the prior bytes stay in place, and chunk `i` fills the file exactly from the prior size plus the lengths of the earlier chunks up to where chunk `i + 1` starts: the chunks are contiguous and keep call order |
| WritableFiles.AppendTwiceIsAppendOnce | Tests/DatadogTests/Core/Persistence/Files/WritableFileTests.swift:51-84 | two appends in a row have the same effect as one append of the first chunks followed by the second |
| WritableFiles.ReopenRecoversHandle | Tests/DatadogTests/Core/Persistence/Files/WritableFileTests.swift:34-44 | assume the codec recovers dates and the handle is named after its date and tracks its file; then re-opening by name gives back the same name, creation date and size |
| WritableFileScenarios.ItOpensExistingFile | Tests/DatadogTests/Core/Persistence/Files/WritableFileTests.swift:34-44 | for any writable directory, any date recovering codec and any date: create, append ten `0x41` bytes, then re-open; the result has the date's name, the date, size 10, and is not empty |
| WritableFileScenarios.ItAppendsDataInFile | Tests/DatadogTests/Core/Persistence/Files/WritableFileTests.swift:51-85 | for any writable directory, codec and date: after appending chunk A the file holds ten `0x41` bytes with size 10; after one more block writing B then A it holds A, B, A with size 30, both on the handle and on disk |

## Left out

- The concurrent append-while-deleting test (WritableFileTests.swift:87-100) is left out. It is about thread safety and file-system races, and it asserts only that nothing crashes. The sequential part of it is modelled: an append to a file that has gone fails with an error and changes nothing.
- Real file-system I/O is left out: directory attributes, the temporary directory, and reading sizes and contents back from disk. The directory is an in-memory map, and "not writable" is a flag.
- The encoding inside `fileNameFrom` is left out because it is not part of this model. It is a parameter, and its round trip is a hypothesis.
- WritableFiles.CreateNew: an existing name gives `FileAlreadyExists`. The tests do not pin this down, and refusing keeps a new file from overwriting one already there.
- WritableFiles.OpenExisting: a name that does not decode gives `UndecodableFileName`. The tests only cover a missing file.
- WritableFiles.RecoversDates: `Date` stands for an instant at the precision the file name keeps, such as whole milliseconds. The sub-millisecond part of a Swift `Date`, which is a floating-point `TimeInterval`, is not modelled. A real name codec loses that part, so it meets this hypothesis only on dates it can represent. The test at WritableFileTests.swift:39-41 uses one whole-hour date, which is such a date.
- WritableFiles.Append: the tracked size is an unbounded `nat`, so the `UInt64` counter's overflow trap is not modelled. No file reaches 2^64 bytes.
- WritableFiles.Append: the `append` block is its list of `write` calls. A block that throws part-way is not modelled. Such a block would leave its earlier chunks written.
- `Int` is taken to be 64 bits wide, as on every platform the SDK targets, so `Int.max` is 2^63 - 1.
- FoundationMocks.MockRepeatingString: the result is modelled as its sequence of Unicode scalars, each a Dafny `char`. Swift's `count` counts grapheme clusters, so it can be smaller than `times` when the repeated characters combine. A combining accent repeated three times has a count of 1, and so does a pair of regional indicators. A `Character` made of several scalars, such as a flag or a decomposed "é", is outside the model.
- These are left out because they are nondeterministic: `Date.mockRandomInThePast` and `String.mockRandom`.
- The calendar helpers are left out because they depend on Foundation's calendar and floating-point time intervals, and dates are opaque here. These are `Date.mockSpecificUTCGregorianDate` and `Date.mockDecember15th2019At10AMUTC`. The scenarios are stated for every `Date` of the model, which means every instant at the file name's precision.
- These constant mocks are left out because each returns a fixed value and states nothing: `Data.mockAny`, `Date.mockAny`, `String.mockAny`, `Bool.mockAny` and `Float.mockAny`. `Float.mockAny` would also need floating point.
- These mocks are left out because they are thin wrappers over Foundation and do no logic of their own: `ErrorMock`, `FailingEncodableMock`, the `URL`, `URLRequest`, `HTTPURLResponse` and `Bundle` mocks, and `ProcessInfoMock`.
- `dependency-manager-tests/cocoapods/CPProject/ViewController.swift` is left out because it is UIKit and SDK set-up code.
- The rest of the persistence pipeline is not part of this model: the files orchestrator, reader, uploader and upload scheduler.
