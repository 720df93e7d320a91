/** Byte-level vocabulary shared by the shared-memory pipe, the proxy stream and the
    flat-buffer serializer: little-endian headers, frames and circular indices. */
module Bytes {
  type byte = x: int | 0 <= x < 256

  const U32: int := 0x1_0000_0000

  type uint32 = x: int | 0 <= x < 0x1_0000_0000

  const U64: int := 0x1_0000_0000_0000_0000

  type uint64 = x: int | 0 <= x < 0x1_0000_0000_0000_0000

  /** The four bytes of a `uint32` in memory order. */
  function LE32(n: uint32): (b: seq<byte>)
    ensures |b| == 4
  {
    [n % 256, (n / 256) % 256, (n / 65536) % 256, n / 16777216]
  }

  function FromLE32(b: seq<byte>): (n: uint32)
    requires |b| == 4
  {
    var b0: int, b1: int, b2: int, b3: int := b[0], b[1], b[2], b[3];
    b0 + 256 * b1 + 65536 * b2 + 16777216 * b3
  }

  lemma LE32RoundTrip(n: uint32)
    ensures FromLE32(LE32(n)) == n
  {
    assert n / 65536 == (n / 256) / 256 && n / 16777216 == ((n / 256) / 256) / 256;
  }

  lemma LE32Injective(a: uint32, b: uint32)
    requires LE32(a) == LE32(b)
    ensures a == b
  {
    LE32RoundTrip(a);
    LE32RoundTrip(b);
  }

  /** Concatenation of a sequence of byte strings. */
  function Concat(parts: seq<seq<byte>>): seq<byte> {
    if parts == [] then [] else parts[0] + Concat(parts[1..])
  }

  lemma {:induction false} ConcatAppend(a: seq<seq<byte>>, b: seq<seq<byte>>)
    ensures Concat(a + b) == Concat(a) + Concat(b)
  {
    if a == [] {
      assert a + b == b;
    } else {
      ConcatAppend(a[1..], b);
      assert (a + b)[1..] == a[1..] + b && (a + b)[0] == a[0];
      assert a[0] + (Concat(a[1..]) + Concat(b)) == (a[0] + Concat(a[1..])) + Concat(b);
    }
  }
}

/** A circular buffer of `size` bytes and the frames stored in it.  `At(pos, k, size)` is the
    index reached from `pos` after `k` steps; a run of bytes is described by where it starts
    and what it holds. */
module Ring {
  import opened Bytes

  type Message = m: seq<byte> | |m| < 0x1_0000_0000

  function At(pos: int, k: int, size: int): int {
    if pos + k < size then pos + k else pos + k - size
  }

  /** A message as the pipe stores it: its length in four bytes, then its bytes. */
  function Frame(m: Message): (f: seq<byte>)
    ensures |f| == 4 + |m|
  {
    LE32(|m|) + m
  }

  function Stream(q: seq<Message>): seq<byte> {
    if q == [] then [] else Frame(q[0]) + Stream(q[1..])
  }

  ghost predicate Holds(mem: seq<byte>, size: int, pos: int, bytes: seq<byte>)
    requires |mem| == size && 0 <= pos < size && |bytes| <= size
  {
    forall k :: 0 <= k < |bytes| ==> mem[At(pos, k, size)] == bytes[k]
  }

  lemma {:induction false} StreamAppend(q: seq<Message>, r: seq<Message>)
    ensures Stream(q + r) == Stream(q) + Stream(r)
  {
    hide Frame;
    if q == [] {
      assert q + r == r;
    } else {
      StreamAppend(q[1..], r);
      assert (q + r)[1..] == q[1..] + r && (q + r)[0] == q[0];
      assert Frame(q[0]) + (Stream(q[1..]) + Stream(r)) == (Frame(q[0]) + Stream(q[1..])) + Stream(r);
    }
  }

  lemma StreamSnoc(q: seq<Message>, m: Message)
    ensures Stream(q + [m]) == Stream(q) + Frame(m)
  {
    StreamAppend(q, [m]);
    assert Stream([m]) == Frame(m) + Stream([]);
  }

  lemma StreamSplit(q: seq<Message>, n: nat)
    requires n <= |q|
    ensures Stream(q) == Stream(q[..n]) + Stream(q[n..])
  {
    var front, back := q[..n], q[n..];
    assert q == front + back;
    StreamAppend(front, back);
  }

  /** Two queues with the same bytes are the same queue: framing loses nothing. */
  lemma {:induction false} StreamInjective(q: seq<Message>, r: seq<Message>)
    requires Stream(q) == Stream(r)
    ensures q == r
  {
    if q == [] || r == [] {
      assert q == [] <==> Stream(q) == [];
      assert r == [] <==> Stream(r) == [];
    } else {
      var s := Stream(q);
      assert LE32(|q[0]|) == s[..4] == LE32(|r[0]|);
      LE32Injective(|q[0]|, |r[0]|);
      assert q[0] == s[4..4 + |q[0]|] == r[0];
      assert Stream(q[1..]) == s[4 + |q[0]|..] == Stream(r[1..]);
      StreamInjective(q[1..], r[1..]);
      assert q == [q[0]] + q[1..] && r == [r[0]] + r[1..];
    }
  }

  lemma ModOnce(x: int, size: int)
    requires 0 <= x < 2 * size
    ensures x % size == if x < size then x else x - size
  {
    if x >= size {
      assert x / size == 1;
    }
  }

  /** The index update `(idx + n) % _size` in 32-bit arithmetic. */
  function Advance(idx: int, n: int, size: int): int
    requires size > 0
  {
    (idx + n) % U32 % size
  }

  /** The 32-bit update lands where it should exactly when the sum does not wrap; pipes of
      at most 2^31 bytes never wrap. */
  lemma AdvanceExact(idx: int, n: int, size: int)
    requires 0 <= idx < size < U32 && 0 <= n <= size
    ensures Advance(idx, n, size) == At(idx, n, size) <==> idx + n < U32
    ensures size <= 0x8000_0000 ==> idx + n < U32
  {
    var x := idx + n;
    if x < U32 {
      ModOnce(x, size);
    } else {
      ModOnce(x, U32);
      ModOnce(x - U32, size);
    }
  }

  /** `GetLeftSize`: free bytes between the two indices, one kept back so that a full pipe
      differs from an empty one. */
  function LeftSize(begin: int, end: int, size: int): int {
    (if begin == end then size else if begin > end then begin - end else size - end + begin) - 1
  }

  /** `GetUsedSize`, with the wrapped case as the code computes it. */
  function UsedSize(begin: int, end: int, size: int): int {
    if begin == end then 0 else if begin < end then end - begin else (size + begin - end) % U32
  }

  lemma LeftSizeCorrect(begin: int, used: int, size: int)
    requires 0 <= begin < size && 0 <= used < size
    ensures LeftSize(begin, At(begin, used, size), size) == size - 1 - used
  {
  }

  /** The wrapped case adds where it should subtract, so the result is the number of stored
      bytes exactly when the stored bytes do not wrap; it is never too small. */
  lemma UsedSizeExact(begin: int, used: int, size: int)
    requires 0 <= begin < size <= 0x8000_0000 && 0 <= used < size
    ensures var end := At(begin, used, size);
            && (UsedSize(begin, end, size) == used <==> begin <= end)
            && UsedSize(begin, end, size) >= used
            && (UsedSize(begin, end, size) == 0 <==> used == 0)
  {
  }

  /** Whole frames are stored, so a pipe that is not empty has at least four bytes in use.
      Four of them that wrap, the frame of an empty message, are reported as sixteen. */
  lemma UsedSizeCounterexample(q: seq<Message>)
    ensures q != [] ==> |Stream(q)| >= 4
    ensures q == [[]] ==> |Stream(q)| == 4 && UsedSize(8, At(8, |Stream(q)|, 10), 10) == 16
  {
    if q != [] {
      assert Stream(q) == Frame(q[0]) + Stream(q[1..]);
    }
    if q == [[]] {
      assert q[1..] == [] && Stream(q) == Frame([]);
    }
  }

  /** Writing a contiguous block just behind a stored run extends the run. */
  lemma HoldsWrite(mem: seq<byte>, mem': seq<byte>, size: int, pos: int, s: seq<byte>, blk: seq<byte>)
    requires |mem| == |mem'| == size && 0 <= pos < size && |s| + |blk| <= size
    requires Holds(mem, size, pos, s)
    requires blk != [] ==> At(pos, |s|, size) + |blk| <= size
    requires blk != [] ==> forall i :: 0 <= i < size ==>
                mem'[i] == if At(pos, |s|, size) <= i < At(pos, |s|, size) + |blk|
                           then blk[i - At(pos, |s|, size)] else mem[i]
    requires blk == [] ==> mem' == mem
    ensures Holds(mem', size, pos, s + blk)
  {
    forall k | 0 <= k < |s + blk|
      ensures mem'[At(pos, k, size)] == (s + blk)[k]
    {
      if k >= |s| {
        assert At(pos, k, size) == At(pos, |s|, size) + (k - |s|);
      }
    }
  }

  lemma HoldsPrefix(mem: seq<byte>, size: int, pos: int, s: seq<byte>, n: nat)
    requires |mem| == size && 0 <= pos < size && n <= |s| <= size
    requires Holds(mem, size, pos, s)
    ensures Holds(mem, size, pos, s[..n])
  {
  }

  /** Dropping the front of a stored run moves its start. */
  lemma HoldsDrop(mem: seq<byte>, size: int, pos: int, a: seq<byte>, b: seq<byte>)
    requires |mem| == size && 0 <= pos < size && |a| + |b| <= size && |a| < size
    requires Holds(mem, size, pos, a + b)
    ensures Holds(mem, size, At(pos, |a|, size), b)
  {
    forall k | 0 <= k < |b|
      ensures mem[At(At(pos, |a|, size), k, size)] == b[k]
    {
      assert At(At(pos, |a|, size), k, size) == At(pos, |a| + k, size);
      assert (a + b)[|a| + k] == b[k];
    }
  }
}
