/** The flat-buffer codec: every call appends at an offset, or fails and leaves it alone. */
module Serialize {
  import opened Bytes

  /** A `size_t` in memory order. */
  function LE64(n: uint64): (b: seq<byte>)
    ensures |b| == 8
  {
    LE32(n % U32) + LE32(n / U32)
  }

  function FromLE64(b: seq<byte>): (n: uint64)
    requires |b| == 8
  {
    var lo: int, hi: int := FromLE32(b[..4]), FromLE32(b[4..]);
    lo + U32 * hi
  }

  lemma LE64RoundTrip(n: uint64)
    ensures FromLE64(LE64(n)) == n
  {
    var b := LE64(n);
    assert b[..4] == LE32(n % U32) && b[4..] == LE32(n / U32);
    LE32RoundTrip(n % U32);
    LE32RoundTrip(n / U32);
  }

  /** A length-prefixed byte string. */
  function Prefixed(proto: seq<byte>): seq<byte>
    requires |proto| < U64
  {
    LE64(|proto|) + proto
  }

  method SerializeBaseType(buf: array<byte>, offset: nat, elem: seq<byte>) returns (ok: bool, next: nat)
    requires offset <= buf.Length
    modifies buf
    ensures ok <==> offset + |elem| <= buf.Length
    ensures next == if ok then offset + |elem| else offset
    ensures buf[..] == if ok then old(buf[..offset]) + elem + old(buf[next..]) else old(buf[..])
  {
    next := offset;
    if |elem| + offset > buf.Length {
      return false, next;
    }
    forall i | 0 <= i < |elem| {
      buf[offset + i] := elem[i];
    }
    next := next + |elem|;
    ok := true;
  }

  method UnSerializeBaseType(buf: array<byte>, offset: nat, size: nat) returns (ok: bool, next: nat, elem: seq<byte>)
    requires offset <= buf.Length
    ensures ok <==> offset + size <= buf.Length
    ensures next == if ok then offset + size else offset
    ensures ok ==> elem == buf[offset..next]
  {
    next, elem := offset, [];
    if size + offset > buf.Length {
      return false, next, elem;
    }
    elem := buf[offset..offset + size];
    next := next + size;
    ok := true;
  }

  method SerializeProtoBuf(buf: array<byte>, offset: nat, proto: seq<byte>) returns (ok: bool, next: nat)
    requires offset <= buf.Length && |proto| < U64
    modifies buf
    ensures ok <==> offset + |Prefixed(proto)| <= buf.Length
    ensures next == if ok then offset + |Prefixed(proto)| else offset
    ensures buf[..] == if ok then old(buf[..offset]) + Prefixed(proto) + old(buf[next..]) else old(buf[..])
  {
    next := offset;
    if |proto| + 8 + offset > buf.Length {
      return false, next;
    }
    ok, next := SerializeBaseType(buf, next, LE64(|proto|));
    ghost var mid := buf[..];
    forall i | 0 <= i < |proto| {
      buf[next + i] := proto[i];
    }
    assert buf[..] == mid[..next] + proto + mid[next + |proto|..];
    next := next + |proto|;
  }

  method UnSerializeProtoBuf(buf: array<byte>, offset: nat) returns (ok: bool, next: nat, proto: seq<byte>)
    requires offset <= buf.Length
    ensures !ok ==> next == offset
    ensures ok ==> next <= buf.Length && |proto| < U64 && offset + 8 + |proto| == next
                   && FromLE64(buf[offset..offset + 8]) == |proto| && proto == buf[offset + 8..next]
    ensures ok <==> offset + 8 <= buf.Length && offset + 8 + FromLE64(buf[offset..offset + 8]) <= buf.Length
  {
    proto := [];
    var head;
    ok, next, head := UnSerializeBaseType(buf, offset, 8);
    if !ok {
      return;
    }
    var size := FromLE64(head);
    if size + next > buf.Length {
      next := next - 8;
      return false, next, proto;
    }
    proto := buf[next..next + size];
    next := next + size;
  }

  /** What was written at an offset is what is read back there, and the offset moves past it. */
  lemma ReadsBack(buf: seq<byte>, offset: nat, proto: seq<byte>)
    requires offset <= |buf| && |proto| < U64 && Prefixed(proto) <= buf[offset..]
    ensures offset + 8 + |proto| <= |buf|
    ensures FromLE64(buf[offset..offset + 8]) == |proto|
    ensures buf[offset + 8..offset + 8 + |proto|] == proto
  {
    LE64RoundTrip(|proto|);
    assert buf[offset..][..8] == buf[offset..offset + 8] == LE64(|proto|);
    assert buf[offset..][8..8 + |proto|] == buf[offset + 8..offset + 8 + |proto|];
  }
}
