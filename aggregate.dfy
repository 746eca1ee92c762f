/**
 * The multi-configuration join of `doRead`: the per-index buffers are folded
 * left to right by a reducer that starts from `null`, pushes a one-byte
 * newline buffer before every buffer but the first, and the resulting list
 * is flattened by `Buffer.concat`.
 */
module Aggregate {
  import opened Wrappers

  newtype byte = x: int | 0 <= x < 256

  /** A Node.js `Buffer`, as the bytes it holds. */
  type Buffer = seq<byte>

  /** `new Buffer("\n")`. */
  const Newline: Buffer := [10]

  /** One call of the reducer: `null` becomes `[x]`; a list gets the newline and `x` pushed. */
  function Step(acc: Option<seq<Buffer>>, x: Buffer): (r: Option<seq<Buffer>>)
    ensures r.Some?
    ensures acc.None? ==> r.value == [x]
    ensures acc.Some? ==> |r.value| == |acc.value| + 2 && r.value[..|acc.value|] == acc.value && r.value[|acc.value|..] == [Newline, x]
  {
    if acc.None? then Some([x]) else Some(acc.value + [Newline, x])
  }

  /** `xs.reduce(step, acc)`, processing the buffers in index order. */
  function Reduce(acc: Option<seq<Buffer>>, xs: seq<Buffer>): (r: Option<seq<Buffer>>)
    ensures acc.Some? || xs != [] ==> r.Some?
    ensures acc.None? && xs == [] ==> r.None?
    decreases |xs|
  {
    if xs == [] then acc else Reduce(Step(acc, xs[0]), xs[1..])
  }

  /** `Buffer.concat(list)`: the buffers laid end to end. */
  function Concat(bs: seq<Buffer>): (r: Buffer)
    ensures |r| == TotalLength(bs)
    decreases |bs|
  {
    if bs == [] then [] else bs[0] + Concat(bs[1..])
  }

  /** The combined buffer `doRead` delivers for the per-index contents `cs`. */
  function Joined(cs: seq<Buffer>): (r: Buffer)
    requires cs != []
    ensures |cs| == 1 ==> r == cs[0]
  {
    assert |cs| == 1 ==> Reduce(None, cs) == Some([cs[0]]);
    Concat(Reduce(None, cs).value)
  }

  /** Reference definition: `c0 + "\n" + c1 + ... + "\n" + c(n-1)`. */
  function Interleave(cs: seq<Buffer>): Buffer
    requires cs != []
    decreases |cs|
  {
    if |cs| == 1 then cs[0] else cs[0] + Newline + Interleave(cs[1..])
  }

  /** Total number of content bytes. */
  function TotalLength(cs: seq<Buffer>): nat
    decreases |cs|
  {
    if cs == [] then 0 else |cs[0]| + TotalLength(cs[1..])
  }

  lemma {:induction false} ConcatAppend(a: seq<Buffer>, b: seq<Buffer>)
    ensures Concat(a + b) == Concat(a) + Concat(b)
    decreases |a|
  {
    if a == [] {
      assert a + b == b;
    } else {
      assert (a + b)[1..] == a[1..] + b;
      ConcatAppend(a[1..], b);
    }
  }

  lemma ConcatPair(a: Buffer, b: Buffer)
    ensures Concat([a, b]) == a + b
  {
    assert [a, b][1..] == [b];
    assert [b][1..] == [];
    assert Concat([b]) == b + Concat([]);
    assert Concat([a, b]) == a + Concat([b]);
  }

  /** Folding onto an existing list appends the newline-separated rest to it. */
  lemma {:induction false} ReduceOnto(acc: seq<Buffer>, xs: seq<Buffer>)
    requires xs != []
    ensures Concat(Reduce(Some(acc), xs).value) == Concat(acc) + Newline + Interleave(xs)
    decreases |xs|
  {
    var next := acc + [Newline, xs[0]];
    assert Reduce(Some(acc), xs) == Reduce(Some(next), xs[1..]);
    ConcatPair(Newline, xs[0]);
    ConcatAppend(acc, [Newline, xs[0]]);
    assert Concat(next) == Concat(acc) + Newline + xs[0];
    if |xs| > 1 {
      ReduceOnto(next, xs[1..]);
      assert Interleave(xs) == xs[0] + Newline + Interleave(xs[1..]);
    } else {
      assert Interleave(xs) == xs[0];
    }
  }

  /** The reducer as written produces exactly the newline-interleaved contents. */
  lemma JoinedIsInterleave(cs: seq<Buffer>)
    requires cs != []
    ensures Joined(cs) == Interleave(cs)
  {
    assert Reduce(None, cs) == Reduce(Some([cs[0]]), cs[1..]);
    assert Concat([cs[0]]) == cs[0] + Concat([]);
    if |cs| > 1 {
      ReduceOnto([cs[0]], cs[1..]);
    }
  }

  lemma {:induction false} InterleaveLength(cs: seq<Buffer>)
    requires cs != []
    ensures |Interleave(cs)| == TotalLength(cs) + |cs| - 1
    decreases |cs|
  {
    if |cs| > 1 {
      InterleaveLength(cs[1..]);
    } else {
      assert cs[1..] == [];
    }
  }

  /** The joined buffer is as long as all contents together plus one newline per gap. */
  lemma JoinedLength(cs: seq<Buffer>)
    requires cs != []
    ensures |Joined(cs)| == TotalLength(cs) + |cs| - 1
  {
    JoinedIsInterleave(cs);
    InterleaveLength(cs);
  }

  /** Adding one more configuration appends a newline and its buffer to the join. */
  lemma {:induction false} InterleaveSnoc(cs: seq<Buffer>, c: Buffer)
    requires cs != []
    ensures Interleave(cs + [c]) == Interleave(cs) + Newline + c
    decreases |cs|
  {
    if |cs| == 1 {
      assert (cs + [c])[1..] == [c];
    } else {
      assert (cs + [c])[1..] == cs[1..] + [c];
      InterleaveSnoc(cs[1..], c);
    }
  }

  /** Two configurations with contents `a` and `b` give `a`, a newline, then `b`. */
  lemma JoinedPair(a: Buffer, b: Buffer)
    ensures Joined([a, b]) == a + Newline + b
  {
    JoinedIsInterleave([a, b]);
    assert [a, b][1..] == [b];
  }
}
