/** How many equal messages a pipe holds. */
module PipeCapacity {
  import opened Bytes
  import opened Ring
  import opened ShmPipes

  /** The queue after a producer has offered `msgs` in turn and nobody has read: each is kept
      if the acceptance test of `AppendOneData` passes, and dropped otherwise. */
  function Fill(q: seq<Message>, msgs: seq<Message>, size: int): seq<Message>
    decreases |msgs|
  {
    if msgs == [] then q
    else if 4 + |msgs[0]| <= size - 1 - |Stream(q)| then Fill(q + [msgs[0]], msgs[1..], size)
    else Fill(q, msgs[1..], size)
  }

  /** A producer that offers messages in turn to a pipe that nobody reads. */
  method FillPipe(pipe: ShmPipe, msgs: seq<Message>) returns (accepted: nat)
    requires pipe.Valid()
    modifies pipe, pipe.mem
    ensures pipe.Valid() && pipe.size == old(pipe.size) && pipe.begin == old(pipe.begin)
    ensures pipe.queue == Fill(old(pipe.queue), msgs, pipe.size)
    ensures |pipe.queue| == |old(pipe.queue)| + accepted
  {
    accepted := 0;
    for i := 0 to |msgs|
      invariant pipe.Valid() && pipe.size == old(pipe.size) && pipe.begin == old(pipe.begin)
      invariant Fill(pipe.queue, msgs[i..], pipe.size) == Fill(old(pipe.queue), msgs, pipe.size)
      invariant |pipe.queue| == |old(pipe.queue)| + accepted
    {
      assert msgs[i..][1..] == msgs[i + 1..];
      var ok := pipe.AppendOneData(msgs[i]);
      if ok {
        accepted := accepted + 1;
      }
    }
  }

  lemma {:induction false} StreamOfEqual(q: seq<Message>, len: nat)
    requires forall m :: m in q ==> |m| == len
    ensures |Stream(q)| == |q| * (len + 4)
  {
    if q != [] {
      StreamOfEqual(q[1..], len);
      OneMore(|q| - 1, len + 4);
    }
  }

  lemma OneMore(n: nat, d: nat)
    ensures (n + 1) * d == n * d + d
  {
  }

  lemma FitsExactly(count: nat, len: nat, size: int)
    requires size >= 1
    ensures 4 + len <= size - 1 - count * (len + 4) <==> count < (size - 1) / (len + 4)
  {
    var step, room := len + 4, size - 1;
    var most := room / step;
    assert most * step <= room < most * step + step;
    if count < most {
      MulMonotone(count + 1, most, step);
      OneMore(count, step);
    } else {
      MulMonotone(most, count, step);
    }
  }

  /** Starting empty, wherever the indices are, exactly `(size - 1) / (len + 4)` appends of
      `len`-byte messages succeed, and they are the first ones. */
  lemma Capacity(msgs: seq<Message>, len: nat, size: int)
    requires size >= 1 && forall m :: m in msgs ==> |m| == len
    ensures var most := (size - 1) / (len + 4);
            Fill([], msgs, size) == if |msgs| <= most then msgs else msgs[..most]
  {
    FillFrom([], msgs, len, size);
    assert [] + msgs == msgs;
  }

  lemma {:induction false} FillFrom(q: seq<Message>, msgs: seq<Message>, len: nat, size: int)
    requires size >= 1 && |q| <= (size - 1) / (len + 4)
    requires forall m :: m in q + msgs ==> |m| == len
    ensures var most := (size - 1) / (len + 4);
            Fill(q, msgs, size) == if |q| + |msgs| <= most then q + msgs else (q + msgs)[..most]
    decreases |msgs|
  {
    if msgs == [] {
      assert q + msgs == q;
    } else {
      assert forall m :: m in q ==> m in q + msgs;
      assert msgs[0] in q + msgs;
      StreamOfEqual(q, len);
      FitsExactly(|q|, len, size);
      var q' := q + [msgs[0]];
      assert q' + msgs[1..] == q + msgs;
      if |q| < (size - 1) / (len + 4) {
        FillFrom(q', msgs[1..], len, size);
      } else {
        assert forall m :: m in q + msgs[1..] ==> m in q + msgs;
        FillFrom(q, msgs[1..], len, size);
        assert (q + msgs)[..|q|] == q == (q + msgs[1..])[..|q|];
      }
    }
  }

  /** The server sizes its message pipe for `n` messages of `len` bytes as `n * len + 1` bytes.
      The four length bytes of each message are not counted, so it never holds `n` of them. */
  lemma ConfiguredSizeFallsShort(msgs: seq<Message>, n: nat, len: nat)
    requires n > 0 && |msgs| == n && forall m :: m in msgs ==> |m| == len
    ensures |Fill([], msgs, n * len + 1)| == n * len / (len + 4) < n
  {
    HeadersDoNotFit(n, len);
    CountAccepted(msgs, len, n * len, n * len / (len + 4));
  }

  lemma CountAccepted(msgs: seq<Message>, len: nat, room: nat, most: nat)
    requires most == room / (len + 4) && most < |msgs| && forall m :: m in msgs ==> |m| == len
    ensures |Fill([], msgs, room + 1)| == most
  {
    hide Fill;
    Capacity(msgs, len, room + 1);
  }

  lemma HeadersDoNotFit(n: nat, len: nat)
    requires n > 0
    ensures n * len / (len + 4) < n
  {
    var d := len + 4;
    assert n * d == n * len + n * 4;
    QuotientBelow(n * len, n, d);
  }

  lemma QuotientBelow(x: nat, n: nat, d: nat)
    requires 0 < d && x < n * d
    ensures x / d < n
  {
    var q := x / d;
    assert q * d <= x;
    if q >= n {
      MulMonotone(n, q, d);
    }
  }

  lemma MulMonotone(a: nat, b: nat, d: nat)
    requires a <= b
    ensures a * d <= b * d
  {
    assert b * d == a * d + (b - a) * d;
  }
}
