/** The data-building mocks of the test suite: `Data.mockRepeating`,
    `Data.mock(ofSize:)`, `Array<Data>.mockChunksOf(totalSize:)` and
    `String.mockRepeating(character:times:)`. */
module FoundationMocks {
  import opened SwiftIntegers
  import opened Sequences
  import opened Bytes

  /** `Data.mockRepeating(byte:times:)`: `count` bytes, each equal to `byte`.
      A negative count makes `Data(repeating:count:)` trap, hence the requires. */
  function MockRepeatingData(byte: Byte, count: Int64): (d: Data)
    requires 0 <= count
    ensures |d| == count as int
    ensures FilledWith(d, byte)
  {
    Repeat(byte, count as int)
  }

  /** `Data.mock(ofSize:)`: `size` bytes of `0x41` (an upper-case "A").
      The conversion `Int(size)` traps above `Int.max`, hence the requires. */
  function MockData(size: UInt64): (d: Data)
    requires size as int <= IntMax as int
    ensures |d| == size as int
    ensures FilledWith(d, 0x41)
  {
    MockRepeatingData(0x41, size as Int64)
  }

  /** `String.mockRepeating(character:times:)`: `times` copies of `character`.
      The range `0..<times` traps for a negative `times`, hence the requires. */
  function MockRepeatingString(character: char, times: Int64): (s: string)
    requires 0 <= times
    ensures |s| == times as int
    ensures forall i :: 0 <= i < |s| ==> s[i] == character
  {
    Repeat(character, times as int)
  }

  /** The size of the next chunk `mockChunksOf` writes when `bytesLeft` bytes
      remain: `bytesLeft`, capped at `Int.max`. */
  function NextChunkSize(bytesLeft: nat): (n: nat)
    requires 0 < bytesLeft
    ensures 0 < n <= bytesLeft
    ensures n <= IntMax as int
    ensures n == IntMax as int || n == bytesLeft
  {
    if bytesLeft > IntMax as int then IntMax as int else bytesLeft
  }

  /** Reference definition of the chunks `mockChunksOf` returns when
      `remaining` bytes are still to be produced, stated by recursion on the
      remaining size rather than by a loop over fixed-width counters. */
  function ChunksFor(remaining: nat): seq<Data>
    decreases remaining
  {
    if remaining == 0 then []
    else
      var size := NextChunkSize(remaining);
      [Repeat(0x01, size)] + ChunksFor(remaining - size)
  }

  /** The chunks of the reference definition add up to the requested size. */
  lemma {:induction false} ChunksForTotal(n: nat)
    ensures TotalLength(ChunksFor(n)) == n
    decreases n
  {
    if n > 0 {
      ChunksForTotal(n - NextChunkSize(n));
    }
  }

  /** Every chunk of the reference definition is non-empty, at most `Int.max`
      long and filled with `0x01`; every chunk but the last is exactly
      `Int.max` long. */
  lemma {:induction false} ChunksForShape(n: nat)
    ensures forall i :: 0 <= i < |ChunksFor(n)| ==>
      var c := ChunksFor(n)[i];
      0 < |c| <= IntMax as int && FilledWith(c, 0x01)
    ensures forall i :: 0 <= i < |ChunksFor(n)| - 1 ==> |ChunksFor(n)[i]| == IntMax as int
    decreases n
  {
    if n > 0 {
      var size := NextChunkSize(n);
      ChunksForShape(n - size);
      var rest := ChunksFor(n - size);
      assert ChunksFor(n) == [Repeat(0x01, size)] + rest;
      if size < IntMax as int {
        assert n - size == 0;
      }
    }
  }

  /** The reference definition yields the size divided by `Int.max`, rounded
      up, chunks; for any `UInt64` total that is at most three. */
  lemma {:induction false} ChunksForCount(n: nat)
    ensures |ChunksFor(n)| == (n + IntMax as int - 1) / (IntMax as int)
    ensures n < 0x1_0000_0000_0000_0000 ==> |ChunksFor(n)| <= 3
    decreases n
  {
    var m := IntMax as int;
    if n > 0 {
      var size := NextChunkSize(n);
      ChunksForCount(n - size);
      if n > m {
        assert (n + m - 1) / m == (n - m + m - 1) / m + 1;
      } else {
        assert m <= n + m - 1 < 2 * m;
      }
    }
  }

  /** `Array<Data>.mockChunksOf(totalSize:)`. The loop keeps `bytesWritten`
      at most `totalSize`, so the `UInt64` subtraction never underflows, the
      `Int` conversion never overflows and the sum never overflows. */
  method MockChunksOf(totalSize: UInt64) returns (chunks: seq<Data>)
    ensures chunks == ChunksFor(totalSize as int)
    ensures TotalLength(chunks) == totalSize as int
    ensures forall i :: 0 <= i < |chunks| ==>
      0 < |chunks[i]| <= IntMax as int && FilledWith(chunks[i], 0x01)
    ensures chunks == [] <==> totalSize == 0
  {
    chunks := [];
    var bytesWritten: UInt64 := 0;
    while bytesWritten < totalSize
      invariant bytesWritten <= totalSize
      invariant chunks + ChunksFor((totalSize - bytesWritten) as int) == ChunksFor(totalSize as int)
      decreases totalSize - bytesWritten
    {
      var bytesLeft := totalSize - bytesWritten;
      var nextChunkSize: Int64 := if bytesLeft > IntMax as UInt64 then IntMax else bytesLeft as Int64;
      assert nextChunkSize as int == NextChunkSize(bytesLeft as int);
      var chunk := MockRepeatingData(0x01, nextChunkSize);
      assert ChunksFor(bytesLeft as int) == [chunk] + ChunksFor(bytesLeft as int - nextChunkSize as int);
      chunks := chunks + [chunk];
      bytesWritten := bytesWritten + nextChunkSize as UInt64;
    }
    ChunksForTotal(totalSize as int);
    ChunksForShape(totalSize as int);
  }
}
