/** The byte stream to and from a proxy: framing, reassembly from arbitrary chunks, and the
    backlog kept while a connection is down. */
module ProxyStream {
  import opened Bytes

  const PROXY_HEAD_LEN: int := 40
  const MAX_PROXY_BUF_LEN: int := 65536 + PROXY_HEAD_LEN
  const RECV_BUF_LEN: int := MAX_PROXY_BUF_LEN * 20
  const SEND_BUF_LEN: int := MAX_PROXY_BUF_LEN * 20

  /** A frame says its own length, which covers the length field and the head. */
  predicate IsFrame(f: seq<byte>) {
    4 + PROXY_HEAD_LEN < |f| <= MAX_PROXY_BUF_LEN && FromLE32(f[..4]) == |f|
  }

  predicate AllFrames(fs: seq<seq<byte>>) {
    forall i :: 0 <= i < |fs| ==> IsFrame(fs[i])
  }

  /** `SendProxyData` for a head and a message. */
  function MakeFrame(head: seq<byte>, msg: seq<byte>): seq<byte>
    requires 4 + |head| + |msg| < U32
  {
    LE32(4 + |head| + |msg|) + head + msg
  }

  /** What `SendProxyData` builds is a frame, and its parts can be read back. */
  lemma MakeFrameIsFrame(head: seq<byte>, msg: seq<byte>)
    requires |head| == PROXY_HEAD_LEN && 0 < |msg| <= 65536 - 4
    ensures IsFrame(MakeFrame(head, msg))
    ensures MakeFrame(head, msg)[4..4 + PROXY_HEAD_LEN] == head && MakeFrame(head, msg)[4 + PROXY_HEAD_LEN..] == msg
  {
    var f := MakeFrame(head, msg);
    assert f[..4] == LE32(4 + |head| + |msg|);
    LE32RoundTrip(4 + |head| + |msg|);
  }

  // ---------------------------------------------------------------------------------------
  // The longest whole frames at the front of a stream
  // ---------------------------------------------------------------------------------------

  /** What repeated `GetOneData` calls take from `bytes`. */
  function Split(bytes: seq<byte>): (r: (seq<seq<byte>>, seq<byte>))
    decreases |bytes|
  {
    if |bytes| <= 4 || FromLE32(bytes[..4]) > |bytes| || FromLE32(bytes[..4]) == 0 then ([], bytes)
    else
      var len := FromLE32(bytes[..4]);
      var (fs, rest) := Split(bytes[len..]);
      ([bytes[..len]] + fs, rest)
  }

  /** More than a length has arrived, and all that it announces. */
  predicate Complete(bytes: seq<byte>) {
    |bytes| > 4 && FromLE32(bytes[..4]) <= |bytes|
  }

  /** `bytes` is the beginning of the stream of `frames`, cut anywhere. */
  ghost predicate Arrived(frames: seq<seq<byte>>, bytes: seq<byte>) {
    AllFrames(frames) && bytes <= Concat(frames)
  }

  /** If a whole frame has arrived it is at the front; if not, there is too little. */
  lemma FrontFrame(frames: seq<seq<byte>>, bytes: seq<byte>)
    requires Arrived(frames, bytes)
    ensures |bytes| > 4 ==> frames != [] && FromLE32(bytes[..4]) == |frames[0]|
    ensures |bytes| > 4 && |frames[0]| <= |bytes| ==>
              bytes[..|frames[0]|] == frames[0] && Arrived(frames[1..], bytes[|frames[0]|..])
    ensures |bytes| >= MAX_PROXY_BUF_LEN ==> |frames[0]| <= |bytes|
  {
    if |bytes| > 4 {
      assert frames != [];
      var all, n := Concat(frames), |frames[0]|;
      assert all == frames[0] + Concat(frames[1..]);
      assert bytes[..4] == all[..4] == frames[0][..4];
      if n <= |bytes| {
        assert bytes[..n] == all[..n] == frames[0];
        assert all[n..] == Concat(frames[1..]);
        assert bytes[n..] == all[..|bytes|][n..] == all[n..|bytes|];
        assert bytes[n..] <= Concat(frames[1..]);
        assert AllFrames(frames[1..]);
      }
    }
  }

  /** On a stream of frames `GetOneData` takes the first of them, which fits the caller's buffer. */
  lemma TakesTheFirstFrame(frames: seq<seq<byte>>, bytes: seq<byte>)
    requires Arrived(frames, bytes)
    ensures Complete(bytes) <==> Split(bytes).0 != []
    ensures Complete(bytes) ==> frames != [] && FromLE32(bytes[..4]) == |frames[0]| <= MAX_PROXY_BUF_LEN
                                && bytes[..|frames[0]|] == frames[0] == Split(bytes).0[0]
  {
    FrontFrame(frames, bytes);
    if |bytes| > 4 {
      assert IsFrame(frames[0]);
    }
  }

  /** Whatever has arrived, the frames taken are the frames sent, in order, and what is left is
      less than one frame. */
  lemma {:induction false} SplitTakesFrames(frames: seq<seq<byte>>, bytes: seq<byte>)
    requires Arrived(frames, bytes)
    ensures var (got, rest) := Split(bytes);
            && got <= frames && bytes == Concat(got) + rest
            && Arrived(frames[|got|..], rest)
            && (|got| < |frames| ==> |rest| < |frames[|got|]|)
    decreases |frames|
  {
    FrontFrame(frames, bytes);
    if |bytes| > 4 && |frames[0]| <= |bytes| {
      var n := |frames[0]|;
      var (got, rest) := Split(bytes[n..]);
      SplitTakesFrames(frames[1..], bytes[n..]);
      SplitOne(bytes);
      OneMoreTaken(frames[0], frames[1..], bytes[n..], got, rest);
      assert frames == [frames[0]] + frames[1..] && bytes == bytes[..n] + bytes[n..];
    } else {
      assert Concat([]) + bytes == bytes;
      assert frames[0..] == frames;
    }
  }

  lemma SplitOne(bytes: seq<byte>)
    requires Complete(bytes) && FromLE32(bytes[..4]) > 0
    ensures var n := FromLE32(bytes[..4]);
            Split(bytes) == ([bytes[..n]] + Split(bytes[n..]).0, Split(bytes[n..]).1)
  {
  }

  /** A list of frames taken behind the first one. */
  lemma OneMoreTaken(first: seq<byte>, frames: seq<seq<byte>>, bytes: seq<byte>, got: seq<seq<byte>>, rest: seq<byte>)
    requires got <= frames && bytes == Concat(got) + rest && Arrived(frames[|got|..], rest)
    requires |got| < |frames| ==> |rest| < |frames[|got|]|
    ensures var all, taken := [first] + frames, [first] + got;
            && taken <= all && first + bytes == Concat(taken) + rest && Arrived(all[|taken|..], rest)
            && (|taken| < |all| ==> |rest| < |all[|taken|]|)
  {
    hide Arrived, Concat;
    var all, taken := [first] + frames, [first] + got;
    assert all[|taken|..] == frames[|got|..];
    ConcatCons(first, got);
    assert first + (Concat(got) + rest) == (first + Concat(got)) + rest;
  }

  lemma ConcatCons(first: seq<byte>, fs: seq<seq<byte>>)
    ensures Concat([first] + fs) == first + Concat(fs)
  {
    assert ([first] + fs)[1..] == fs;
  }

  // ---------------------------------------------------------------------------------------
  // The receive buffer
  // ---------------------------------------------------------------------------------------

  /** What one `recv` call may return. */
  datatype Recv = Data(bytes: seq<byte>) | Closed | Again | Broken

  class Receiver {
    var connected: bool
    const recvBuf: array<byte>
    var recvOffset: nat

    ghost predicate Valid()
      reads this
    {
      recvBuf.Length == RECV_BUF_LEN && recvOffset <= RECV_BUF_LEN
    }

    ghost function Buffered(): seq<byte>
      requires Valid()
      reads this, recvBuf
    {
      recvBuf[..recvOffset]
    }

    constructor ()
      ensures Valid() && Buffered() == [] && connected
    {
      connected := true;
      recvBuf := new byte[RECV_BUF_LEN];
      recvOffset := 0;
    }

    /** Receives until the socket has nothing more, the buffer is full, or the connection ends;
        `net` is what the successive `recv` calls return.  Everything received is appended; a
        lost connection empties the buffer. */
    method RecvData(net: seq<Recv>) returns (used: nat, ghost received: seq<byte>)
      requires Valid() && connected
      requires Fits(net, RECV_BUF_LEN - recvOffset)
      modifies this, recvBuf
      ensures Valid() && used <= |net|
      ensures received == Received(net, RECV_BUF_LEN - old(recvOffset))
      ensures if connected then Buffered() == old(Buffered()) + received else Buffered() == []
      ensures connected == !Lost(net, RECV_BUF_LEN - old(recvOffset))
    {
      hide Fits, Received, Lost;
      used, received := 0, [];
      var room := RECV_BUF_LEN - recvOffset;
      ghost var before := Buffered();
      assert net[0..] == net;
      while used < |net|
        invariant Valid() && used <= |net| && connected
        invariant Buffered() == before + received
        invariant Fits(net[used..], RECV_BUF_LEN - recvOffset)
        invariant Received(net, room) == received + Received(net[used..], RECV_BUF_LEN - recvOffset)
        invariant Lost(net, room) == Lost(net[used..], RECV_BUF_LEN - recvOffset)
        decreases |net| - used
      {
        NextRecv(net, used, RECV_BUF_LEN - recvOffset, received);
        if recvOffset == RECV_BUF_LEN {
          return;
        }
        var r := net[used];
        used := used + 1;
        match r {
          case Data(bytes) =>
            Store(bytes);
            received := received + bytes;
          case Closed =>
            connected, recvOffset := false, 0;
            return;
          case Again => return;
          case Broken =>
            connected, recvOffset := false, 0;
            return;
        }
      }
      NoMoreRecv(net[used..], RECV_BUF_LEN - recvOffset);
    }

    /** What `recv` does to the buffer. */
    method Store(bytes: seq<byte>)
      requires Valid() && |bytes| <= RECV_BUF_LEN - recvOffset
      modifies this`recvOffset, recvBuf
      ensures Valid() && recvOffset == old(recvOffset) + |bytes|
      ensures Buffered() == old(Buffered()) + bytes
    {
      forall i | 0 <= i < |bytes| {
        recvBuf[recvOffset + i] := bytes[i];
      }
      recvOffset := recvOffset + |bytes|;
    }

    /** Takes as many bytes as the first four announce, if they are all there.  The caller's
        buffer has room for the largest frame; a larger announcement must not be complete. */
    method GetOneData(buf: array<byte>) returns (ok: bool, len: nat)
      requires Valid() && buf.Length == MAX_PROXY_BUF_LEN && buf != recvBuf
      requires Complete(Buffered()) ==> FromLE32(Buffered()[..4]) <= MAX_PROXY_BUF_LEN
      modifies this`recvOffset, recvBuf, buf
      ensures Valid()
      ensures ok <==> old(Complete(Buffered()))
      ensures !ok ==> Buffered() == old(Buffered()) && buf[..] == old(buf[..])
      ensures ok ==> len == FromLE32(old(Buffered())[..4]) && len <= buf.Length
                     && buf[..len] == old(Buffered())[..len] && Buffered() == old(Buffered())[len..]
    {
      ghost var bytes := Buffered();
      len := 0;
      if recvOffset <= 4 {
        return false, len;
      }
      assert recvBuf[..4] == bytes[..4];
      len := FromLE32(recvBuf[..4]);
      if len > recvOffset {
        return false, len;
      }
      Copy(recvBuf, 0, len, buf);
      assert buf[..len] == bytes[..len];
      recvOffset := recvOffset - len;
      if recvOffset != 0 {
        MoveDown(recvBuf, len, recvOffset);
      }
      assert Buffered() == bytes[len..];
      ok := true;
    }
  }

  method Copy(src: array<byte>, from: nat, n: nat, dst: array<byte>)
    requires from + n <= src.Length && n <= dst.Length && src != dst
    modifies dst
    ensures dst[..n] == src[from..from + n] && dst[n..] == old(dst[n..])
  {
    forall i | 0 <= i < n {
      dst[i] := src[from + i];
    }
  }

  /** `memmove` to the front. */
  method MoveDown(a: array<byte>, from: nat, n: nat)
    requires from + n <= a.Length
    modifies a
    ensures a[..n] == old(a[from..from + n])
  {
    forall i | 0 <= i < n {
      a[i] := a[from + i];
    }
  }

  /** Each `recv` returns at least one byte and no more than there is room for. */
  ghost predicate Fits(net: seq<Recv>, room: int)
    decreases |net|
  {
    net == [] || (net[0].Data? && room > 0 ==> 0 < |net[0].bytes| <= room && Fits(net[1..], room - |net[0].bytes|))
  }

  ghost function Received(net: seq<Recv>, room: int): seq<byte>
    decreases |net|
  {
    if net == [] || room <= 0 || !net[0].Data? then [] else net[0].bytes + Received(net[1..], room - |net[0].bytes|)
  }

  ghost predicate Lost(net: seq<Recv>, room: int)
    decreases |net|
  {
    net != [] && room > 0 && if net[0].Data? then Lost(net[1..], room - |net[0].bytes|) else net[0].Closed? || net[0].Broken?
  }

  function Chunk(r: Recv): seq<byte> {
    if r.Data? then r.bytes else []
  }

  /** Some number `n` of `recv` calls give data, and all of it is received.  They stop because the
      buffer is full, or because the next call gives none; the connection is lost exactly if
      that one reports an end or an error. */
  lemma {:induction false} ReceivedIs(net: seq<Recv>, room: int) returns (n: nat)
    requires Fits(net, room) && room >= 0
    ensures n <= |net| && forall i :: 0 <= i < n ==> net[i].Data?
    ensures Received(net, room) == Concat(seq(n, i requires 0 <= i < n => Chunk(net[i]))) && |Received(net, room)| <= room
    ensures |Received(net, room)| == room || n == |net| || !net[n].Data?
    ensures Lost(net, room) <==> |Received(net, room)| < room && n < |net| && (net[n].Closed? || net[n].Broken?)
    decreases |net|
  {
    if net == [] || room == 0 || !net[0].Data? {
      n := 0;
    } else {
      var k := ReceivedIs(net[1..], room - |net[0].bytes|);
      n := k + 1;
      var all := seq(n, i requires 0 <= i < n => Chunk(net[i]));
      assert all[1..] == seq(k, i requires 0 <= i < k => Chunk(net[1..][i]));
    }
  }

  lemma NextRecv(net: seq<Recv>, used: nat, room: int, received: seq<byte>)
    requires used < |net| && Fits(net[used..], room) && room >= 0
    ensures room == 0 || !net[used].Data? ==> Received(net[used..], room) == []
    ensures Lost(net[used..], room) == (room > 0 && if net[used].Data? then Lost(net[used + 1..], room - |net[used].bytes|) else net[used].Closed? || net[used].Broken?)
    ensures room > 0 && net[used].Data? ==>
              && 0 < |net[used].bytes| <= room && Fits(net[used + 1..], room - |net[used].bytes|)
              && received + Received(net[used..], room)
                 == received + net[used].bytes + Received(net[used + 1..], room - |net[used].bytes|)
  {
    assert net[used..][0] == net[used] && net[used..][1..] == net[used + 1..];
  }

  lemma NoMoreRecv(net: seq<Recv>, room: int)
    requires net == []
    ensures Received(net, room) == [] && !Lost(net, room)
  {
  }

  // ---------------------------------------------------------------------------------------
  // Runs
  // ---------------------------------------------------------------------------------------

  /** A connection as it runs: the buffer, what was received and what was taken. */
  datatype Link = Link(buffered: seq<byte>, received: seq<byte>, taken: seq<seq<byte>>)

  datatype Event = Receive(chunk: seq<byte>) | Take

  function StepLink(l: Link, e: Event): Link {
    match e
    case Receive(chunk) =>
      if |l.buffered| + |chunk| <= RECV_BUF_LEN then l.(buffered := l.buffered + chunk, received := l.received + chunk) else l
    case Take =>
      var (got, rest) := Split(l.buffered);
      if got == [] then l else l.(buffered := l.buffered[|got[0]|..], taken := l.taken + [got[0]])
  }

  function RunLink(l: Link, es: seq<Event>): Link
    decreases |es|
  {
    if es == [] then l else RunLink(StepLink(l, es[0]), es[1..])
  }

  const FRESH: Link := Link([], [], [])

  /** What was received is what was taken and what is buffered; and if a stream of frames is
      being received, what was taken are its first frames. */
  ghost predicate LinkOk(l: Link, frames: seq<seq<byte>>) {
    && l.received == Concat(l.taken) + l.buffered && |l.buffered| <= RECV_BUF_LEN
    && (Arrived(frames, l.received) ==> l.taken <= frames && Arrived(frames[|l.taken|..], l.buffered))
  }

  /** The part of the stream behind the first `n` frames. */
  lemma Behind(frames: seq<seq<byte>>, n: nat, bytes: seq<byte>)
    requires n <= |frames| && AllFrames(frames)
    ensures Concat(frames[..n]) + bytes <= Concat(frames) <==> bytes <= Concat(frames[n..])
    ensures AllFrames(frames[n..])
  {
    hide Concat, AllFrames;
    FramesBehind(frames, n);
    ConcatParts(frames, n);
    PrefixCancel(Concat(frames[..n]), Concat(frames[n..]), bytes);
  }

  lemma FramesBehind(frames: seq<seq<byte>>, n: nat)
    requires n <= |frames| && AllFrames(frames)
    ensures AllFrames(frames[n..])
  {
    hide IsFrame;
    assert forall i :: 0 <= i < |frames| - n ==> frames[n..][i] == frames[n + i];
  }

  lemma ConcatParts(frames: seq<seq<byte>>, n: nat)
    requires n <= |frames|
    ensures Concat(frames) == Concat(frames[..n]) + Concat(frames[n..])
  {
    hide Concat;
    assert frames == frames[..n] + frames[n..];
    ConcatAppend(frames[..n], frames[n..]);
  }

  lemma PrefixCancel(a: seq<byte>, b: seq<byte>, c: seq<byte>)
    ensures a + c <= a + b <==> c <= b
  {
    if a + c <= a + b {
      assert forall i :: 0 <= i < |c| ==> c[i] == (a + c)[|a| + i] == (a + b)[|a| + i] == b[i];
    }
  }

  lemma ReceiveKeeps(l: Link, frames: seq<seq<byte>>, chunk: seq<byte>)
    requires LinkOk(l, frames)
    ensures LinkOk(StepLink(l, Receive(chunk)), frames)
  {
    var l' := StepLink(l, Receive(chunk));
    assert Concat(l.taken) + (l.buffered + chunk) == (Concat(l.taken) + l.buffered) + chunk;
    if l' != l && Arrived(frames, l'.received) {
      assert l.received <= l'.received <= Concat(frames);
      assert l.received == l'.received[..|l.received|] == Concat(frames)[..|l.received|];
      assert frames[..|l.taken|] == l.taken;
      Behind(frames, |l.taken|, l'.buffered);
    }
  }

  lemma TakeKeeps(l: Link, frames: seq<seq<byte>>)
    requires LinkOk(l, frames)
    ensures LinkOk(StepLink(l, Take), frames)
  {
    var got := Split(l.buffered).0;
    if got != [] {
      SplitHead(l.buffered);
      TakenTogether(l.taken, got[0], l.buffered[|got[0]|..]);
      assert l.buffered == got[0] + l.buffered[|got[0]|..];
      if Arrived(frames, l.received) {
        NextTaken(frames, l.taken, l.buffered);
      }
    }
  }

  lemma TakenTogether(taken: seq<seq<byte>>, f: seq<byte>, rest: seq<byte>)
    ensures Concat(taken) + (f + rest) == Concat(taken + [f]) + rest
  {
    ConcatAppend(taken, [f]);
    assert Concat([f]) == f + Concat([]) == f;
  }

  lemma NextTaken(frames: seq<seq<byte>>, taken: seq<seq<byte>>, buffered: seq<byte>)
    requires taken <= frames && Arrived(frames[|taken|..], buffered) && Split(buffered).0 != []
    ensures var f := Split(buffered).0[0];
            && |f| <= |buffered| && taken + [f] <= frames
            && Arrived(frames[|taken| + 1..], buffered[|f|..])
  {
    var ahead := frames[|taken|..];
    SplitHead(buffered);
    FrontFrame(ahead, buffered);
    assert ahead[0] == frames[|taken|] && ahead[1..] == frames[|taken| + 1..];
  }

  lemma SplitHead(bytes: seq<byte>)
    ensures var got := Split(bytes).0; got != [] ==> 4 < |bytes| && |got[0]| == FromLE32(bytes[..4]) <= |bytes| && got[0] == bytes[..|got[0]|]
  {
  }

  lemma {:induction false} RunKeeps(l: Link, frames: seq<seq<byte>>, es: seq<Event>)
    requires LinkOk(l, frames)
    ensures LinkOk(RunLink(l, es), frames)
    decreases |es|
  {
    if es != [] {
      match es[0] {
        case Receive(chunk) => ReceiveKeeps(l, frames, chunk);
        case Take => TakeKeeps(l, frames);
      }
      RunKeeps(StepLink(l, es[0]), frames, es[1..]);
    }
  }

  /** However a stream of frames is cut into chunks, and whenever frames are taken: the frames
      taken are the first ones sent, the buffer holds exactly what was received behind them, a
      further take yields exactly the next frame if all of it is there, and a full buffer
      always holds one, so receiving never stalls. */
  lemma Reassembly(frames: seq<seq<byte>>, es: seq<Event>)
    requires Arrived(frames, RunLink(FRESH, es).received)
    ensures var l := RunLink(FRESH, es);
            && l.taken <= frames && l.received == Concat(l.taken) + l.buffered
            && (|l.taken| == |frames| ==> l.buffered == [])
            && (|l.taken| < |frames| ==>
                  StepLink(l, Take).taken
                  == if |frames[|l.taken|]| <= |l.buffered| then l.taken + [frames[|l.taken|]] else l.taken)
            && (|l.buffered| == RECV_BUF_LEN ==> StepLink(l, Take).taken != l.taken)
  {
    RunKeeps(FRESH, frames, es);
    var l := RunLink(FRESH, es);
    var ahead := frames[|l.taken|..];
    FrontFrame(ahead, l.buffered);
    SplitHead(l.buffered);
    if |l.taken| < |frames| {
      assert ahead[0] == frames[|l.taken|] && IsFrame(frames[|l.taken|]);
    } else {
      assert ahead == [];
    }
  }

  // ---------------------------------------------------------------------------------------
  // The send backlog
  // ---------------------------------------------------------------------------------------

  /** `ReserveData`: a frame that does not fit drops everything before it. */
  function Reserve(backlog: seq<seq<byte>>, f: seq<byte>): seq<seq<byte>> {
    if |Concat(backlog)| + |f| > SEND_BUF_LEN then [f] else backlog + [f]
  }

  class Sender {
    const sendBuf: array<byte>
    var sendOffset: nat
    ghost var backlog: seq<seq<byte>>

    ghost predicate Valid()
      reads this, sendBuf
    {
      sendBuf.Length == SEND_BUF_LEN && sendOffset <= SEND_BUF_LEN && sendBuf[..sendOffset] == Concat(backlog)
    }

    constructor ()
      ensures Valid() && backlog == []
    {
      sendBuf := new byte[SEND_BUF_LEN];
      sendOffset := 0;
      backlog := [];
    }

    method ReserveData(f: seq<byte>)
      requires Valid() && |f| <= MAX_PROXY_BUF_LEN
      modifies this, sendBuf
      ensures Valid() && backlog == Reserve(old(backlog), f)
    {
      ghost var before := backlog;
      if sendOffset + |f| > sendBuf.Length {
        sendOffset := 0;
        before := [];
      }
      forall i | 0 <= i < |f| {
        sendBuf[sendOffset + i] := f[i];
      }
      sendOffset := sendOffset + |f|;
      ConcatAppend(before, [f]);
      assert Concat([f]) == f + Concat([]);
      assert sendBuf[..sendOffset] == Concat(before) + f;
      backlog := before + [f];
    }

    /** A send that succeeds empties the backlog. */
    method Sent()
      requires Valid()
      modifies this
      ensures Valid() && backlog == []
    {
      sendOffset := 0;
      backlog := [];
    }
  }

  /** The backlog after the frames `fs`. */
  function Backlog(fs: seq<seq<byte>>): seq<seq<byte>> {
    if fs == [] then [] else Reserve(Backlog(fs[..|fs| - 1]), fs[|fs| - 1])
  }

  lemma ConcatOne(f: seq<byte>)
    ensures Concat([f]) == f
  {
    assert Concat([f]) == f + Concat([]);
  }

  /** The frame `fs[start]` did not fit beside what was kept when it came. */
  predicate Overflowed(fs: seq<seq<byte>>, start: nat)
    requires start < |fs|
  {
    |Concat(Backlog(fs[..start]))| + |fs[start]| > SEND_BUF_LEN
  }

  lemma KeepsFrom(front: seq<seq<byte>>, f: seq<byte>, start: nat)
    requires start <= |front| && Backlog(front) == front[start..] && |Concat(front[start..])| + |f| <= SEND_BUF_LEN
    ensures Backlog(front + [f]) == (front + [f])[start..] && |Concat((front + [f])[start..])| <= SEND_BUF_LEN
  {
    var fs := front + [f];
    assert fs[..|fs| - 1] == front && fs[|fs| - 1] == f && fs[start..] == front[start..] + [f];
    ConcatAppend(front[start..], [f]);
    ConcatOne(f);
  }

  lemma StartsAgain(front: seq<seq<byte>>, f: seq<byte>)
    requires |f| <= SEND_BUF_LEN < |Concat(Backlog(front))| + |f|
    ensures Backlog(front + [f]) == [f] == (front + [f])[|front|..] && |Concat([f])| <= SEND_BUF_LEN
    ensures Overflowed(front + [f], |front|)
  {
    var fs := front + [f];
    assert fs[..|fs| - 1] == front && fs[|fs| - 1] == f;
    ConcatOne(f);
  }

  /** The backlog is the run of most recent frames back to some point `start`: whole frames,
      in order, that fit together.  At that point, unless it is the beginning, the frames kept
      until then and the next one together did not fit. */
  lemma {:induction false} BacklogIsRecent(fs: seq<seq<byte>>) returns (start: nat)
    requires forall f :: f in fs ==> |f| <= SEND_BUF_LEN
    ensures start <= |fs| && Backlog(fs) == fs[start..] && |Concat(fs[start..])| <= SEND_BUF_LEN
    ensures fs != [] ==> start < |fs|
    ensures 0 < start < |fs| ==> Overflowed(fs, start)
    decreases |fs|
  {
    if fs == [] {
      start := 0;
    } else {
      hide Concat, Backlog;
      var front, f := fs[..|fs| - 1], fs[|fs| - 1];
      assert fs == front + [f];
      start := BacklogIsRecent(front);
      if |Concat(Backlog(front))| + |f| > SEND_BUF_LEN {
        start := |front|;
        StartsAgain(front, f);
      } else {
        assert 0 < start < |front| ==> fs[..start] == front[..start];
        KeepsFrom(front, f, start);
      }
    }
  }

  /** Frames that fit together are all kept. */
  lemma {:induction false} BacklogKeepsAll(fs: seq<seq<byte>>)
    requires |Concat(fs)| <= SEND_BUF_LEN
    ensures Backlog(fs) == fs
    decreases |fs|
  {
    if fs != [] {
      var front, f := fs[..|fs| - 1], fs[|fs| - 1];
      assert fs == front + [f];
      ConcatAppend(front, [f]);
      assert Concat([f]) == f + Concat([]);
      BacklogKeepsAll(front);
    }
  }
}
