/** The pipe between two processes as one process sees it: a byte ring in shared memory that
    behaves as a bounded queue of byte strings. */
module ShmPipes {
  import opened Bytes
  import opened Ring

  /** Bytes of the segment taken by the three index fields. */
  const HEADER_SIZE: int := 12

  class ShmPipe {
    var begin: uint32
    var end: uint32
    var size: uint32
    const mem: array<byte>

    ghost var queue: seq<Message>

    ghost predicate Valid()
      reads this, mem
    {
      && 1 <= size <= 0x8000_0000 && mem.Length == size
      && begin < size && end < size
      && |Stream(queue)| < size
      && end == At(begin, |Stream(queue)|, size)
      && Holds(mem[..], size, begin, Stream(queue))
    }

    constructor Initialize(byteSize: uint32)
      requires HEADER_SIZE < byteSize <= HEADER_SIZE + 0x8000_0000
      ensures Valid() && fresh(mem)
      ensures queue == [] && begin == 0 && size == byteSize - HEADER_SIZE
    {
      begin := 0;
      end := 0;
      size := byteSize - HEADER_SIZE;
      mem := new byte[byteSize - HEADER_SIZE];
      queue := [];
    }

    /** A process that attaches to an existing segment keeps what is in it. */
    method Reuse(byteSize: uint32)
      requires Valid() && byteSize == HEADER_SIZE + mem.Length
      modifies this`size
      ensures Valid() && unchanged(this)
    {
      size := byteSize - HEADER_SIZE;
    }

    method GetIndex() returns (b: uint32, e: uint32)
      ensures b == begin && e == end
    {
      b := begin;
      e := end;
    }

    method SetEnd(e: uint32)
      modifies this`end
      ensures end == if e < size then e else old(end)
    {
      if e < size {
        end := e;
      }
    }

    method SetBegin(b: uint32)
      modifies this`begin
      ensures begin == if b < size then b else old(begin)
    {
      if b < size {
        begin := b;
      }
    }

    /** Exactly the bytes that are not in use, less the one kept back. */
    method GetLeftSize() returns (left: uint32)
      requires Valid()
      ensures left == size - 1 - |Stream(queue)|
    {
      var b, e := GetIndex();
      left := 0;
      if b == e {
        left := size;
      } else if b > e {
        left := b - e;
      } else {
        left := size - e + b;
      }
      left := left - 1;
    }

    /** Never less than the bytes in use; equal to them exactly when they do not wrap. */
    method GetUsedSize() returns (used: uint32)
      requires Valid()
      ensures used >= |Stream(queue)|
      ensures used == 0 <==> queue == []
      ensures used == |Stream(queue)| <==> begin <= end
      ensures used == UsedSize(begin, end, size)
    {
      var b, e := GetIndex();
      if b == e {
        return 0;
      } else if b < e {
        return e - b;
      } else {
        return (size + b - e) % U32;
      }
    }

    /** Copies `blk` to the contiguous place `at`, just behind the stored bytes `s`. */
    method CopyIn(at: uint32, blk: seq<byte>, ghost s: seq<byte>)
      requires mem.Length == size && begin < size
      requires |s| + |blk| < size && Holds(mem[..], size, begin, s)
      requires at == At(begin, |s|, size) && at + |blk| <= size
      modifies mem
      ensures Holds(mem[..], size, begin, s + blk)
    {
      ghost var was := mem[..];
      forall i | 0 <= i < |blk| {
        mem[at + i] := blk[i];
      }
      if blk == [] {
        assert mem[..] == was;
      }
      HoldsWrite(was, mem[..], size, begin, s, blk);
    }

    /** Copies the `n` contiguous bytes at `at`, known to be `blk`, to `buf[to..]`. */
    method CopyOut(at: uint32, n: uint32, buf: array<byte>, to: uint32, ghost blk: seq<byte>)
      requires at + n <= mem.Length && to + n <= buf.Length && buf != mem && n == |blk|
      requires forall i :: 0 <= i < n ==> mem[at + i] == blk[i]
      modifies buf
      ensures buf[..] == old(buf[..to]) + blk + old(buf[to + n..])
    {
      forall i | 0 <= i < n {
        buf[to + i] := mem[at + i];
      }
    }

    method AppendOneData(buf: Message) returns (ok: bool)
      requires Valid()
      modifies this`end, this`queue, mem
      ensures Valid() && unchanged(this`begin)
      ensures ok <==> 4 + |buf| <= size - 1 - |old(Stream(queue))|
      ensures queue == if ok then old(queue) + [buf] else old(queue)
      ensures !ok ==> unchanged(this) && unchanged(mem)
    {
      hide Stream, LE32, Holds;
      var left := GetLeftSize();
      if |buf| + 4 > left {
        return false;
      }
      ghost var s := Stream(queue);
      var tmpBegin, tmpEnd := GetIndex();
      tmpEnd := WriteHeader(tmpEnd, LE32(|buf|), s);
      s := s + LE32(|buf|);
      if tmpBegin > tmpEnd {
        CopyIn(tmpEnd, buf, s);
      } else {
        WriteSplit(tmpEnd, buf, s);
      }
      StreamSnoc(queue, buf);
      assert s + buf == Stream(queue) + Frame(buf);
      queue := queue + [buf];
      AdvanceExact(tmpEnd, |buf|, size);
      tmpEnd := Advance(tmpEnd, |buf|, size);
      SetEnd(tmpEnd);
      ok := true;
    }

    /** The four length bytes, one at a time because they may straddle the wrap. */
    method WriteHeader(end0: uint32, header: seq<byte>, ghost s: seq<byte>) returns (tmpEnd: uint32)
      requires 1 <= size <= 0x8000_0000 && mem.Length == size && begin < size
      requires |header| == 4 && |s| + 4 < size && Holds(mem[..], size, begin, s)
      requires end0 == At(begin, |s|, size)
      modifies mem
      ensures tmpEnd == At(begin, |s| + 4, size)
      ensures Holds(mem[..], size, begin, s + header)
    {
      tmpEnd := end0;
      assert s + header[..0] == s;
      for i := 0 to 4
        invariant tmpEnd == At(begin, |s| + i, size)
        invariant Holds(mem[..], size, begin, s + header[..i])
      {
        AdvanceExact(tmpEnd, 1, size);
        CopyIn(tmpEnd, [header[i]], s + header[..i]);
        assert s + header[..i] + [header[i]] == s + header[..i + 1];
        tmpEnd := Advance(tmpEnd, 1, size);
      }
      assert header[..4] == header;
    }

    /** The body when it may run past the end of the ring. */
    method WriteSplit(at: uint32, buf: seq<byte>, ghost s: seq<byte>)
      requires mem.Length == size && begin < size
      requires |s| + |buf| < size && Holds(mem[..], size, begin, s)
      requires at == At(begin, |s|, size)
      modifies mem
      ensures Holds(mem[..], size, begin, s + buf)
    {
      var pipeLeft := size - at;
      if pipeLeft >= |buf| {
        CopyIn(at, buf, s);
      } else {
        CopyIn(at, buf[..pipeLeft], s);
        CopyIn(0, buf[pipeLeft..], s + buf[..pipeLeft]);
        assert s + buf[..pipeLeft] + buf[pipeLeft..] == s + buf;
      }
    }

    /** The head of the queue, or nothing: a reader whose buffer is too small learns the
        length and leaves the message in place.  The two resynchronisation branches, which
        would drop everything stored, are never taken. */
    method GetOneData(buf: array<byte>, maxLen: uint32) returns (ok: bool, len: uint32)
      requires Valid() && buf != mem && maxLen <= buf.Length
      modifies this`begin, this`queue, buf
      ensures Valid() && unchanged(this`end) && mem[..] == old(mem[..])
      ensures ok <==> old(queue) != [] && |old(queue)[0]| <= maxLen
      ensures ok ==> queue == old(queue)[1..] && len == |old(queue)[0]|
                     && buf[..] == old(queue)[0] + old(buf[..])[len..]
      ensures !ok ==> unchanged(this) && unchanged(buf)
                      && len == if queue == [] then maxLen else |queue[0]|
    {
      len := maxLen;
      var tmpBegin, tmpEnd := GetIndex();
      var used := GetUsedSize();
      if used == 0 {
        return false, len;
      }
      ghost var m, rest := queue[0], Stream(queue[1..]);
      if used < 4 {
        assert false;
      }
      len, tmpBegin := ReadHeader(m, rest);
      if len + 4 > used {
        assert false;
      }
      if len > maxLen {
        return false, len;
      }
      ReadBody(tmpBegin, tmpEnd, len, buf, m, rest);
      AdvanceExact(tmpBegin, len, size);
      tmpBegin := Advance(tmpBegin, len, size);
      PublishBegin(tmpBegin);
      ok := true;
    }

    /** Moving `begin` past the head frame is what consumes it. */
    method PublishBegin(b: uint32)
      requires Valid() && queue != [] && b == At(begin, |Frame(queue[0])|, size)
      modifies this`begin, this`queue
      ensures Valid() && queue == old(queue)[1..]
    {
      HoldsDrop(mem[..], size, begin, Frame(queue[0]), Stream(queue[1..]));
      queue := queue[1..];
      SetBegin(b);
    }

    method ReadHeader(ghost m: Message, ghost rest: seq<byte>) returns (len: uint32, tmpBegin: uint32)
      requires 1 <= size <= 0x8000_0000 && mem.Length == size && begin < size
      requires 4 + |m| + |rest| < size && Holds(mem[..], size, begin, Frame(m) + rest)
      ensures len == |m| && tmpBegin == At(begin, 4, size)
    {
      tmpBegin := begin;
      var header: seq<byte> := [];
      for i := 0 to 4
        invariant tmpBegin == At(begin, i, size)
        invariant header == LE32(|m|)[..i]
        invariant Holds(mem[..], size, begin, Frame(m) + rest)
      {
        AdvanceExact(tmpBegin, 1, size);
        assert mem[..][At(begin, i, size)] == (Frame(m) + rest)[i] == LE32(|m|)[i];
        header := header + [mem[tmpBegin]];
        tmpBegin := Advance(tmpBegin, 1, size);
      }
      LE32RoundTrip(|m|);
      len := FromLE32(header);
    }

    method ReadBody(tmpBegin: uint32, tmpEnd: uint32, len: uint32, buf: array<byte>, ghost m: Message, ghost rest: seq<byte>)
      requires mem.Length == size && begin < size && buf != mem && len == |m| <= buf.Length
      requires 4 + |m| + |rest| < size && Holds(mem[..], size, begin, Frame(m) + rest)
      requires tmpBegin == At(begin, 4, size) && tmpEnd == At(begin, 4 + |m| + |rest|, size)
      modifies buf
      ensures buf[..] == m + old(buf[..])[len..]
    {
      BodyBytes(m, rest, tmpBegin);
      if tmpBegin < tmpEnd {
        BodySplit(m, tmpBegin, len);
        CopyOut(tmpBegin, len, buf, 0, m);
      } else {
        ReadSplit(tmpBegin, len, buf, m);
      }
    }

    /** The body when it may run past the end of the ring. */
    method ReadSplit(at: uint32, len: uint32, buf: array<byte>, ghost m: Message)
      requires mem.Length == size && at < size && buf != mem && len == |m| <= buf.Length && len < size
      requires BodyAt(m, at)
      modifies buf
      ensures buf[..] == m + old(buf[..])[len..]
    {
      var pipeLeft := size - at;
      if pipeLeft >= len {
        BodySplit(m, at, len);
        CopyOut(at, len, buf, 0, m);
      } else {
        BodySplit(m, at, pipeLeft);
        CopyOut(at, pipeLeft, buf, 0, m[..pipeLeft]);
        ghost var mid := buf[..];
        BodySplit(m, at, pipeLeft);
        CopyOut(0, len - pipeLeft, buf, pipeLeft, m[pipeLeft..]);
        assert buf[..] == mid[..pipeLeft] + m[pipeLeft..] + mid[len..];
        TwoParts(m, pipeLeft, mid, old(buf[..]), buf[..]);
      }
    }

    ghost predicate BodyAt(m: seq<byte>, at: int)
      requires mem.Length == size && 0 <= at < size && |m| <= size
      reads this`size, mem
    {
      forall k :: 0 <= k < |m| ==> mem[At(at, k, size)] == m[k]
    }

    lemma BodySplit(m: seq<byte>, at: int, n: nat)
      requires mem.Length == size && 0 <= at < size && |m| < size && n <= |m| && n <= size - at
      requires BodyAt(m, at)
      ensures forall i :: 0 <= i < n ==> mem[at + i] == m[..n][i]
      ensures n == size - at ==> forall i :: 0 <= i < |m| - n ==> mem[0 + i] == m[n..][i]
    {
      forall i | 0 <= i < n
        ensures mem[at + i] == m[..n][i]
      {
        assert At(at, i, size) == at + i;
      }
      if n == size - at {
        forall i | 0 <= i < |m| - n
          ensures mem[0 + i] == m[n..][i]
        {
          assert At(at, n + i, size) == i;
        }
      }
    }

    /** Where the bytes of the head message are. */
    lemma BodyBytes(m: Message, rest: seq<byte>, body: int)
      requires mem.Length == size && begin < size && 4 + |m| + |rest| < size
      requires Holds(mem[..], size, begin, Frame(m) + rest)
      requires body == At(begin, 4, size)
      ensures BodyAt(m, body)
    {
      forall k | 0 <= k < |m|
        ensures mem[At(body, k, size)] == m[k]
      {
        assert At(body, k, size) == At(begin, 4 + k, size);
        assert (Frame(m) + rest)[4 + k] == m[k];
      }
    }
  }

  /** A run that ends in a pipe of ten bytes whose four used bytes wrap. */
  method WrappedPipe() returns (pipe: ShmPipe, used: uint32)
    ensures fresh(pipe) && pipe.Valid() && pipe.size == 10
    ensures pipe.queue == [[]] && pipe.begin == 8 && pipe.end == 2
    ensures |Stream(pipe.queue)| == 4 && used == 16
  {
    hide Stream, Holds;
    pipe := new ShmPipe.Initialize(HEADER_SIZE + 10);
    var buf := new byte[1];
    EmptyFrames();
    var ok := pipe.AppendOneData([]);
    assert pipe.queue == [[]];
    ok := pipe.AppendOneData([]);
    assert pipe.queue == [[], []] && pipe.end == 8;
    var len;
    ok, len := pipe.GetOneData(buf, 0);
    assert pipe.queue == [[]];
    ok, len := pipe.GetOneData(buf, 0);
    assert pipe.queue == [] && pipe.begin == 8;
    ok := pipe.AppendOneData([]);
    used := pipe.GetUsedSize();
  }

  lemma EmptyFrames()
    ensures |Stream([])| == 0 && |Stream([[]])| == 4 && |Stream([[], []])| == 8
  {
    var empty: Message := [];
    UsedSizeCounterexample([empty]);
    StreamSnoc([empty], empty);
    assert [empty] + [empty] == [empty, empty];
  }

  lemma TwoParts(m: seq<byte>, n: nat, mid: seq<byte>, before: seq<byte>, after: seq<byte>)
    requires n <= |m| <= |before| && mid == m[..n] + before[n..]
    requires after == mid[..n] + m[n..] + mid[|m|..]
    ensures after == m + before[|m|..]
  {
    assert mid[..n] == m[..n] && mid[|m|..] == before[|m|..];
    assert m[..n] + m[n..] == m;
  }
}
