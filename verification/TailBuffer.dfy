/** The last bytes a harness wrote to stderr. */
module TailBuffer {
  import opened Der

  /** The last n elements, or all of them when there are fewer. */
  function Tail<T>(s: seq<T>, n: nat): (r: seq<T>)
    ensures |r| == if |s| <= n then |s| else n
    ensures r == s[|s| - |r|..]
  {
    if |s| <= n then s else s[|s| - n..]
  }

  /** What was cut off before does not matter to the tail of what follows. */
  lemma TailOfTail<T>(a: seq<T>, b: seq<T>, n: nat)
    ensures Tail(Tail(a, n) + b, n) == Tail(a + b, n)
  {
    var t := Tail(a, n);
    assert a == a[..|a| - |t|] + t;
    assert a + b == a[..|a| - |t|] + (t + b);
  }

  function Concat<T>(chunks: seq<seq<T>>): seq<T> {
    if chunks == [] then [] else Concat(chunks[..|chunks| - 1]) + chunks[|chunks| - 1]
  }

  lemma ConcatStep<T>(chunks: seq<seq<T>>, i: nat)
    requires i < |chunks|
    ensures Concat(chunks[..i + 1]) == Concat(chunks[..i]) + chunks[i]
  {
    assert chunks[..i + 1][..i] == chunks[..i];
  }

  class Buffer {
    const max: nat
    var buf: seq<Byte>

    constructor (max: nat)
      ensures this.max == max && buf == []
    {
      this.max := max;
      buf := [];
    }

    /** Whatever has been written, the buffer holds its tail; the write is reported as complete. */
    method Write(p: seq<Byte>, ghost written: seq<Byte>) returns (n: nat)
      requires buf == Tail(written, max)
      modifies this
      ensures buf == Tail(written + p, max) && n == |p|
    {
      TailOfTail(written, p, max);
      buf := buf + p;
      if |buf| > max {
        buf := buf[|buf| - max..];
      }
      n := |p|;
    }

    /** However the output was cut into writes, the buffer ends up with the tail of the whole. */
    method WriteAll(chunks: seq<seq<Byte>>)
      requires buf == []
      modifies this
      ensures buf == Tail(Concat(chunks), max)
    {
      for i := 0 to |chunks|
        invariant buf == Tail(Concat(chunks[..i]), max)
      {
        ConcatStep(chunks, i);
        var n := Write(chunks[i], Concat(chunks[..i]));
      }
      assert chunks[..|chunks|] == chunks;
    }
  }
}
