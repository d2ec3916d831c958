/** Generic facts about sequences of chunks and about repeated elements,
    shared by the `Data` mocks and by the append model of `WritableFile`. */
module Sequences {

  /** The chunks of `chunks`, laid end to end in order. */
  function Concat<T>(chunks: seq<seq<T>>): seq<T>
  {
    if |chunks| == 0 then [] else chunks[0] + Concat(chunks[1..])
  }

  /** The sum of the lengths of `chunks`. */
  function TotalLength<T>(chunks: seq<seq<T>>): nat
  {
    if |chunks| == 0 then 0 else |chunks[0]| + TotalLength(chunks[1..])
  }

  /** `n` copies of `x`: Foundation's `Data(repeating:count:)` and the
      character array built by `String.mockRepeating`. */
  function Repeat<T>(x: T, n: nat): (r: seq<T>)
    ensures |r| == n
    ensures forall i :: 0 <= i < |r| ==> r[i] == x
  {
    seq(n, _ => x)
  }

  /** The laid-out bytes are exactly as long as the chunk lengths add up to. */
  lemma {:induction false} ConcatLength<T>(chunks: seq<seq<T>>)
    ensures |Concat(chunks)| == TotalLength(chunks)
  {
    if |chunks| > 0 {
      ConcatLength(chunks[1..]);
    }
  }

  /** Laying out two runs of chunks one after the other is laying out their
      concatenation. */
  lemma {:induction false} ConcatAppend<T>(a: seq<seq<T>>, b: seq<seq<T>>)
    ensures Concat(a + b) == Concat(a) + Concat(b)
  {
    if |a| == 0 {
      assert a + b == b;
    } else {
      assert (a + b)[1..] == a[1..] + b;
      ConcatAppend(a[1..], b);
    }
  }

  /** Chunk lengths add up across a concatenation of chunk runs. */
  lemma {:induction false} TotalLengthAppend<T>(a: seq<seq<T>>, b: seq<seq<T>>)
    ensures TotalLength(a + b) == TotalLength(a) + TotalLength(b)
  {
    if |a| == 0 {
      assert a + b == b;
    } else {
      assert (a + b)[1..] == a[1..] + b;
      TotalLengthAppend(a[1..], b);
    }
  }

  /** A sequence is `n` copies of `x` exactly when it has length `n` and
      every element is `x`. */
  lemma RepeatCharacterised<T>(s: seq<T>, x: T, n: nat)
    ensures s == Repeat(x, n) <==> |s| == n && forall i :: 0 <= i < |s| ==> s[i] == x
  {
  }
}
