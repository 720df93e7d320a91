/** The pipe under concurrency: one producer and one consumer, in different processes and
    without a lock, interleaved at every read of an index, every byte read or written, and
    every publication of an index.  Either process may also die at any point and come back
    through `Reuse`. */
module PipeProtocol {
  import opened Bytes
  import opened Ring

  /** Where the producer is inside `AppendOneData`.  Each state waits for its next access to
      shared memory. */
  datatype Producer =
    | PIdle
    | PLeftBegin(msg: Message)                                  // GetLeftSize reads `_begin`
    | PLeftEnd(msg: Message, leftBegin: int)                    // GetLeftSize reads `_end`
    | PIndexBegin(msg: Message)                                 // GetIndex reads `_begin`
    | PIndexEnd(msg: Message, tmpBegin: int)                    // GetIndex reads `_end`
    | PHeader(msg: Message, tmpBegin: int, tmpEnd: int, i: nat) // writes header byte `i`
    | PBody(msg: Message, tmpBegin: int, tmpEnd: int, i: nat)   // writes body byte `i`, then publishes

  /** Where the consumer is inside `GetOneData`. */
  datatype Consumer =
    | CIdle
    | CIndexBegin(max: int)
    | CIndexEnd(max: int, tmpBegin: int)
    | CUsedBegin(max: int, tmpBegin: int, tmpEnd: int)
    | CUsedEnd(max: int, tmpBegin: int, tmpEnd: int, usedBegin: int)
    | CHeader(max: int, tmpBegin: int, tmpEnd: int, used: int, header: seq<byte>)
    | CBody(max: int, tmpBegin: int, tmpEnd: int, len: int, buf: seq<byte>)

  /** Shared memory, the two processes, and what has happened so far.  The last four fields
      are bookkeeping that no process reads: messages published and returned, bytes consumed
      since the producer's two reads of `_begin`, and how many messages were waiting when the
      consumer last read `_end`.  `faults` counts accesses outside the ring and messages
      thrown away by resynchronisation. */
  datatype State = State(
    mem: seq<byte>, begin: int, end: int,
    prod: Producer, cons: Consumer,
    accepted: seq<Message>, delivered: seq<Message>,
    sinceLeft: int, sinceIndex: int, seenEnd: int, faults: nat)

  datatype Action = Offer(msg: Message) | Produce | ProducerDies | Poll(max: uint32) | Consume | ConsumerDies

  function Init(size: int, contents: seq<byte>): State
  {
    State(contents, 0, 0, PIdle, CIdle, [], [], 0, 0, 0, 0)
  }

  function Store(s: State, idx: int, b: byte): State {
    if 0 <= idx < |s.mem| then s.(mem := s.mem[idx := b]) else s.(faults := s.faults + 1)
  }

  function Load(s: State, idx: int): byte {
    if 0 <= idx < |s.mem| then s.mem[idx] else 0
  }

  /** The place of body byte `i` when `tmpBegin` and `tmpEnd` are the producer's copies. */
  function WriteIndex(size: int, tmpBegin: int, tmpEnd: int, len: int, i: int): int {
    if tmpBegin > tmpEnd then tmpEnd + i
    else if size - tmpEnd >= len then tmpEnd + i
    else if i < size - tmpEnd then tmpEnd + i
    else i - (size - tmpEnd)
  }

  /** The place of body byte `i` when `tmpBegin` and `tmpEnd` are the consumer's copies. */
  function ReadIndex(size: int, tmpBegin: int, tmpEnd: int, len: int, i: int): int {
    if tmpBegin < tmpEnd then tmpBegin + i
    else if size - tmpBegin >= len then tmpBegin + i
    else if i < size - tmpBegin then tmpBegin + i
    else i - (size - tmpBegin)
  }

  function ProducerStep(size: int, s: State): State
    requires size > 0
  {
    match s.prod
    case PIdle => s
    case PLeftBegin(m) => s.(prod := PLeftEnd(m, s.begin), sinceLeft := 0)
    case PLeftEnd(m, b) =>
      if |m| + 4 > LeftSize(b, s.end, size) then s.(prod := PIdle) else s.(prod := PIndexBegin(m))
    case PIndexBegin(m) => s.(prod := PIndexEnd(m, s.begin), sinceIndex := 0)
    case PIndexEnd(m, b) => s.(prod := PHeader(m, b, s.end, 0))
    case PHeader(m, b, e, i) =>
      if i < 4 then
        Store(s, e, LE32(|m|)[i]).(prod := PHeader(m, b, Advance(e, 1, size), i + 1))
      else s.(prod := PBody(m, b, e, 0))
    case PBody(m, b, e, i) =>
      if i < |m| then
        Store(s, WriteIndex(size, b, e, |m|, i), m[i]).(prod := PBody(m, b, e, i + 1))
      else
        var e' := Advance(e, |m|, size);
        s.(prod := PIdle, end := if e' < size then e' else s.end, accepted := s.accepted + [m])
  }

  /** What consuming the bytes up to `begin'` does to the indices and to the bookkeeping. */
  function PublishBegin(size: int, s: State, begin': int, bytes: int): State {
    s.(cons := CIdle, begin := if begin' < size then begin' else s.begin,
       sinceLeft := s.sinceLeft + bytes, sinceIndex := s.sinceIndex + bytes)
  }

  function Resync(size: int, s: State, tmpEnd: int): State {
    PublishBegin(size, s, tmpEnd, 0).(faults := s.faults + 1)
  }

  function ConsumerStep(size: int, s: State): State
    requires size > 0
  {
    match s.cons
    case CIdle => s
    case CIndexBegin(max) => s.(cons := CIndexEnd(max, s.begin))
    case CIndexEnd(max, b) => s.(cons := CUsedBegin(max, b, s.end), seenEnd := |s.accepted| - |s.delivered|)
    case CUsedBegin(max, b, e) => s.(cons := CUsedEnd(max, b, e, s.begin))
    case CUsedEnd(max, b, e, ub) =>
      var used := UsedSize(ub, s.end, size);
      if used == 0 then s.(cons := CIdle)
      else if used < 4 then Resync(size, s, e)
      else s.(cons := CHeader(max, b, e, used, []))
    case CHeader(max, b, e, used, header) =>
      if |header| < 4 then
        var s' := if 0 <= b < |s.mem| then s else s.(faults := s.faults + 1);
        s'.(cons := CHeader(max, Advance(b, 1, size), e, used, header + [Load(s, b)]))
      else
        var len := FromLE32(header[..4]);
        if len + 4 > used then Resync(size, s, e)
        else if len > max then s.(cons := CIdle)
        else s.(cons := CBody(max, b, e, len, []))
    case CBody(max, b, e, len, buf) =>
      if |buf| < len then
        var idx := ReadIndex(size, b, e, len, |buf|);
        var s' := if 0 <= idx < |s.mem| then s else s.(faults := s.faults + 1);
        s'.(cons := CBody(max, b, e, len, buf + [Load(s, idx)]))
      else
        PublishBegin(size, s, Advance(b, len, size), 4 + len).(delivered :=
          s.delivered + if |buf| < U32 then [buf] else [])
  }

  function Step(size: int, s: State, a: Action): State
    requires size > 0
  {
    match a
    case Offer(m) => if s.prod.PIdle? then s.(prod := PLeftBegin(m)) else s
    case Produce => ProducerStep(size, s)
    case ProducerDies => s.(prod := PIdle)
    case Poll(max) => if s.cons.CIdle? then s.(cons := CIndexBegin(max)) else s
    case Consume => ConsumerStep(size, s)
    case ConsumerDies => s.(cons := CIdle)
  }

  function Run(size: int, s: State, actions: seq<Action>): State
    requires size > 0
    decreases |actions|
  {
    if actions == [] then s else Run(size, Step(size, s, actions[0]), actions[1..])
  }

  // ---------------------------------------------------------------------------------------
  // The invariant
  // ---------------------------------------------------------------------------------------

  /** Messages published and not yet returned. */
  function Unread(s: State): seq<Message> {
    if |s.delivered| <= |s.accepted| then s.accepted[|s.delivered|..] else []
  }

  /** Bytes the producer has written behind the published ones. */
  function Pending(p: Producer): seq<byte> {
    match p
    case PHeader(m, b, e, i) => if i <= 4 then LE32(|m|)[..i] else []
    case PBody(m, b, e, i) => if i <= |m| then LE32(|m|) + m[..i] else []
    case _ => []
  }

  ghost predicate RingOk(size: int, s: State) {
    && 1 <= size <= 0x8000_0000 && |s.mem| == size
    && 0 <= s.begin < size && 0 <= s.end < size
    && s.delivered <= s.accepted && s.faults == 0
    && var u := Stream(Unread(s));
    && |u| + |Pending(s.prod)| < size
    && s.end == At(s.begin, |u|, size)
    && Holds(s.mem, size, s.begin, u + Pending(s.prod))
  }

  /** What the producer's copies still mean, however stale they are. */
  ghost predicate ProducerOk(size: int, s: State)
    requires RingOk(size, s)
  {
    var used := |Stream(Unread(s))|;
    match s.prod
    case PLeftEnd(m, b) => 0 <= b < size && 0 <= s.sinceLeft && s.sinceLeft + used < size && At(b, s.sinceLeft, size) == s.begin
    case PIndexBegin(m) => used + 4 + |m| < size
    case PIndexEnd(m, b) => IndexOk(size, s, b, 4 + |m|)
    case PHeader(m, b, e, i) => i <= 4 && e == At(s.end, i, size) && IndexOk(size, s, b, 4 + |m|)
    case PBody(m, b, e, i) => i <= |m| && e == At(s.end, 4, size) && IndexOk(size, s, b, 4 + |m|)
    case _ => true
  }

  ghost predicate IndexOk(size: int, s: State, b: int, need: int)
    requires RingOk(size, s)
  {
    && 0 <= b < size && 0 <= s.sinceIndex && s.sinceIndex + |Stream(Unread(s))| + need < size
    && At(b, s.sinceIndex, size) == s.begin
  }

  /** `e` is where the first `n` waiting messages end. */
  ghost predicate EndSeen(size: int, s: State, e: int)
    requires RingOk(size, s)
  {
    && 0 <= s.seenEnd <= |Unread(s)|
    && e == At(s.begin, |Stream(Unread(s)[..s.seenEnd])|, size)
  }

  ghost predicate ConsumerOk(size: int, s: State)
    requires RingOk(size, s)
  {
    var q := Unread(s);
    match s.cons
    case CIndexEnd(max, b) => b == s.begin
    case CUsedBegin(max, b, e) => b == s.begin && EndSeen(size, s, e)
    case CUsedEnd(max, b, e, ub) => b == s.begin == ub && EndSeen(size, s, e)
    case CHeader(max, b, e, used, header) =>
      && q != [] && EndSeen(size, s, e) && |header| <= 4 && used >= 4 + |q[0]|
      && header == LE32(|q[0]|)[..|header|] && b == At(s.begin, |header|, size)
    case CBody(max, b, e, len, buf) =>
      && q != [] && EndSeen(size, s, e) && len == |q[0]| && |buf| <= len <= max
      && buf == q[0][..|buf|] && b == At(s.begin, 4, size)
    case _ => true
  }

  ghost predicate Inv(size: int, s: State) {
    RingOk(size, s) && ProducerOk(size, s) && ConsumerOk(size, s)
  }

  // ---------------------------------------------------------------------------------------
  // Stale copies still choose the right place
  // ---------------------------------------------------------------------------------------

  /** The producer decides between one copy and two with a `_begin` that may be out of date. */
  lemma WriteIndexCorrect(size: int, tmpBegin: int, since: int, used: int, len: nat, i: int)
    requires 0 <= tmpBegin < size && 0 <= since && 0 <= used && since + used + 4 + len < size
    requires 0 <= i < len
    ensures var end := At(At(tmpBegin, since, size), used, size);
            var tmpEnd := At(end, 4, size);
            WriteIndex(size, tmpBegin, tmpEnd, len, i) == At(tmpEnd, i, size)
  {
  }

  /** The consumer decides with an `_end` that may be out of date: it saw either no message
      at all or at least the whole of the first one. */
  lemma ReadIndexCorrect(size: int, begin: int, seen: int, len: nat, i: int)
    requires 0 <= begin < size && 4 + len < size && 0 <= i < len
    requires seen == 0 || 4 + len <= seen < size
    ensures var b := At(begin, 4, size);
            ReadIndex(size, b, At(begin, seen, size), len, i) == At(b, i, size)
  {
  }

  // ---------------------------------------------------------------------------------------
  // Every step keeps the invariant
  // ---------------------------------------------------------------------------------------

  /** The consumer's view depends on the ring only through the bytes already published. */
  lemma ConsumerFrame(size: int, s: State, s': State)
    requires Inv(size, s) && RingOk(size, s')
    requires s'.cons == s.cons && s'.begin == s.begin && s'.seenEnd == s.seenEnd
    requires s'.delivered == s.delivered && s.accepted <= s'.accepted
    ensures ConsumerOk(size, s')
  {
    var q, q' := Unread(s), Unread(s');
    assert q <= q';
    if 0 <= s.seenEnd <= |q| {
      assert q'[..s.seenEnd] == q[..s.seenEnd];
    }
  }

  /** Writing the next pending byte. */
  lemma StoreKeeps(size: int, s: State, s': State, idx: int, b: byte)
    requires Inv(size, s)
    requires |Stream(Unread(s))| + |Pending(s.prod)| + 1 < size
    requires idx == At(s.begin, |Stream(Unread(s))| + |Pending(s.prod)|, size)
    requires s' == Store(s, idx, b).(prod := s'.prod) && Pending(s'.prod) == Pending(s.prod) + [b]
    ensures RingOk(size, s')
  {
    var u := Stream(Unread(s)) + Pending(s.prod);
    HoldsWrite(s.mem, s'.mem, size, s.begin, u, [b]);
    assert u + [b] == Stream(Unread(s')) + Pending(s'.prod);
  }

  lemma PublishKeeps(size: int, s: State)
    requires Inv(size, s) && s.prod.PBody? && s.prod.i == |s.prod.msg|
    ensures Inv(size, ProducerStep(size, s))
  {
    var s' := ProducerStep(size, s);
    var m := s.prod.msg;
    AdvanceExact(s.prod.tmpEnd, |m|, size);
    assert Unread(s') == Unread(s) + [m];
    StreamSnoc(Unread(s), m);
    assert Pending(s.prod) == Frame(m) by {
      assert m[..|m|] == m;
    }
    assert Stream(Unread(s')) + Pending(s'.prod) == Stream(Unread(s)) + Pending(s.prod);
    ConsumerFrame(size, s, s');
  }

  lemma HeaderStepKeeps(size: int, s: State)
    requires Inv(size, s) && s.prod.PHeader?
    ensures Inv(size, ProducerStep(size, s))
  {
    hide LE32, Stream, Holds, ConsumerOk;
    var s' := ProducerStep(size, s);
    var m, e, i := s.prod.msg, s.prod.tmpEnd, s.prod.i;
    if i < 4 {
      AdvanceExact(e, 1, size);
      assert LE32(|m|)[..i + 1] == LE32(|m|)[..i] + [LE32(|m|)[i]];
      StoreKeeps(size, s, s', e, LE32(|m|)[i]);
    } else {
      assert LE32(|m|)[..4] + m[..0] == LE32(|m|) + m[..0] == LE32(|m|)[..4];
      assert Pending(s'.prod) == Pending(s.prod);
    }
    ConsumerFrame(size, s, s');
  }

  lemma BodyStepKeeps(size: int, s: State)
    requires Inv(size, s) && s.prod.PBody? && s.prod.i < |s.prod.msg|
    ensures Inv(size, ProducerStep(size, s))
  {
    hide LE32, Stream, Holds, ConsumerOk;
    var s' := ProducerStep(size, s);
    var m, b, e, i := s.prod.msg, s.prod.tmpBegin, s.prod.tmpEnd, s.prod.i;
    WriteIndexCorrect(size, b, s.sinceIndex, |Stream(Unread(s))|, |m|, i);
    assert LE32(|m|) + m[..i + 1] == LE32(|m|) + m[..i] + [m[i]];
    StoreKeeps(size, s, s', WriteIndex(size, b, e, |m|, i), m[i]);
    ConsumerFrame(size, s, s');
  }

  lemma ProducerKeeps(size: int, s: State)
    requires Inv(size, s)
    ensures Inv(size, ProducerStep(size, s))
  {
    hide LE32, Holds, Stream, ConsumerOk;
    var s' := ProducerStep(size, s);
    match s.prod
    case PHeader(_, _, _, _) => HeaderStepKeeps(size, s);
    case PBody(m, _, _, i) =>
      if i < |m| {
        BodyStepKeeps(size, s);
      } else {
        PublishKeeps(size, s);
      }
    case PLeftEnd(m, b) =>
      LeftSizeCorrect(b, s.sinceLeft + |Stream(Unread(s))|, size);
      ConsumerFrame(size, s, s');
    case _ => ConsumerFrame(size, s, s');
  }

  /** Dropping the producer's half-written bytes loses nothing that was published. */
  lemma ProducerDiesKeeps(size: int, s: State)
    requires Inv(size, s)
    ensures Inv(size, s.(prod := PIdle))
  {
    var s' := s.(prod := PIdle);
    var u := Stream(Unread(s));
    HoldsPrefix(s.mem, size, s.begin, u + Pending(s.prod), |u|);
    assert (u + Pending(s.prod))[..|u|] == u == u + Pending(PIdle);
    ConsumerFrame(size, s, s');
  }

  /** The head frame and what follows it, as the ring holds them. */
  lemma HeadByte(size: int, s: State, k: int)
    requires RingOk(size, s) && Unread(s) != []
    requires 0 <= k < 4 + |Unread(s)[0]|
    ensures 4 + |Unread(s)[0]| <= |Stream(Unread(s))|
    ensures s.mem[At(s.begin, k, size)] == Frame(Unread(s)[0])[k]
  {
    var q := Unread(s);
    assert Stream(q) == Frame(q[0]) + Stream(q[1..]);
    assert (Stream(q) + Pending(s.prod))[k] == Frame(q[0])[k];
  }

  lemma HeaderReadKeeps(size: int, s: State)
    requires Inv(size, s) && s.cons.CHeader? && |s.cons.header| < 4
    ensures Inv(size, ConsumerStep(size, s))
  {
    var s' := ConsumerStep(size, s);
    var q, i := Unread(s), |s.cons.header|;
    var h := LE32(|q[0]|);
    HeadByte(size, s, i);
    AdvanceExact(s.cons.tmpBegin, 1, size);
    assert h[..i] + [h[i]] == h[..i + 1];
    assert RingOk(size, s') && Unread(s') == q;
  }

  lemma HeaderDoneKeeps(size: int, s: State)
    requires Inv(size, s) && s.cons.CHeader? && |s.cons.header| == 4
    ensures Inv(size, ConsumerStep(size, s))
  {
    hide LE32, Stream, Holds;
    var s' := ConsumerStep(size, s);
    var q := Unread(s);
    assert s.cons.header[..4] == s.cons.header == LE32(|q[0]|);
    LE32RoundTrip(|q[0]|);
    assert RingOk(size, s') && Unread(s') == q;
  }

  lemma BodyReadKeeps(size: int, s: State)
    requires Inv(size, s) && s.cons.CBody? && |s.cons.buf| < s.cons.len
    ensures Inv(size, ConsumerStep(size, s))
  {
    var q := Unread(s);
    var b, e, len, i := s.cons.tmpBegin, s.cons.tmpEnd, s.cons.len, |s.cons.buf|;
    HeadByte(size, s, 4 + i);
    SeenLength(q, s.seenEnd);
    ReadIndexCorrect(size, s.begin, |Stream(q[..s.seenEnd])|, len, i);
    assert At(b, i, size) == At(s.begin, 4 + i, size);
    assert q[0][..i] + [q[0][i]] == q[0][..i + 1];
  }

  lemma SeenLength(q: seq<Message>, n: nat)
    requires n <= |q| && q != []
    ensures |Stream(q[..n])| <= |Stream(q)|
    ensures n == 0 ==> |Stream(q[..n])| == 0
    ensures n > 0 ==> |Stream(q[..n])| >= 4 + |q[0]|
  {
    StreamSplit(q, n);
    if n > 0 {
      assert q[..n][0] == q[0];
    }
  }

  /** Everything the delivery of a complete body changes. */
  lemma DeliverEffect(size: int, s: State)
    requires Inv(size, s) && s.cons.CBody? && |s.cons.buf| == s.cons.len
    ensures var m, len := Unread(s)[0], s.cons.len;
            && Unread(s) != [] && len == |m|
            && ConsumerStep(size, s) == s.(cons := CIdle, begin := At(s.begin, 4 + len, size),
                 delivered := s.delivered + [m], sinceLeft := s.sinceLeft + 4 + len, sinceIndex := s.sinceIndex + 4 + len)
  {
    var q, m := Unread(s), s.cons.buf;
    assert m == q[0] by {
      assert q[0][..|q[0]|] == q[0];
    }
    HeadByte(size, s, 0);
    AdvanceExact(s.cons.tmpBegin, |m|, size);
  }

  lemma DeliverRing(size: int, s: State, s': State)
    requires RingOk(size, s) && Unread(s) != []
    requires var m := Unread(s)[0];
             s' == s.(cons := CIdle, begin := At(s.begin, 4 + |m|, size), delivered := s.delivered + [m],
               sinceLeft := s.sinceLeft + 4 + |m|, sinceIndex := s.sinceIndex + 4 + |m|)
    ensures RingOk(size, s')
    ensures |Stream(Unread(s))| == 4 + |Unread(s)[0]| + |Stream(Unread(s'))|
  {
    hide LE32, Pending;
    var q := Unread(s);
    var rest := Stream(q[1..]) + Pending(s.prod);
    assert Unread(s') == q[1..];
    assert Stream(q) + Pending(s.prod) == Frame(q[0]) + rest;
    HoldsDrop(s.mem, size, s.begin, Frame(q[0]), rest);
  }

  lemma DeliverKeeps(size: int, s: State)
    requires Inv(size, s) && s.cons.CBody? && |s.cons.buf| == s.cons.len
    ensures Inv(size, ConsumerStep(size, s))
  {
    hide Stream, Holds, Pending, ProducerStep, LE32;
    DeliverEffect(size, s);
    DeliverRing(size, s, ConsumerStep(size, s));
  }

  lemma ConsumerKeeps(size: int, s: State)
    requires Inv(size, s)
    ensures Inv(size, ConsumerStep(size, s))
  {
    hide LE32, Holds;
    match s.cons
    case CHeader(_, _, _, _, header) =>
      if |header| < 4 {
        HeaderReadKeeps(size, s);
      } else {
        HeaderDoneKeeps(size, s);
      }
    case CBody(_, _, _, len, buf) =>
      if |buf| < len {
        BodyReadKeeps(size, s);
      } else {
        DeliverKeeps(size, s);
      }
    case CIndexEnd(_, _) =>
      assert Unread(s)[..|Unread(s)|] == Unread(s);
    case CUsedEnd(_, _, _, _) =>
      var q := Unread(s);
      UsedSizeExact(s.begin, |Stream(q)|, size);
      if q != [] {
        assert Stream(q) == Frame(q[0]) + Stream(q[1..]);
      }
    case _ =>
  }

  lemma StepKeeps(size: int, s: State, a: Action)
    requires Inv(size, s)
    ensures Inv(size, Step(size, s, a))
  {
    match a
    case Produce => ProducerKeeps(size, s);
    case Consume => ConsumerKeeps(size, s);
    case ProducerDies => ProducerDiesKeeps(size, s);
    case Offer(m) => ConsumerFrame(size, s, Step(size, s, a));
    case _ =>
  }

  lemma {:induction false} RunKeeps(size: int, s: State, actions: seq<Action>)
    requires Inv(size, s)
    ensures Inv(size, Run(size, s, actions))
    decreases |actions|
  {
    if actions != [] {
      StepKeeps(size, s, actions[0]);
      RunKeeps(size, Step(size, s, actions[0]), actions[1..]);
    }
  }

  // ---------------------------------------------------------------------------------------
  // Main results
  // ---------------------------------------------------------------------------------------

  ghost predicate Reachable(size: int, s: State) {
    exists contents: seq<byte>, actions: seq<Action> ::
      1 <= size <= 0x8000_0000 && |contents| == size && s == Run(size, Init(size, contents), actions)
  }

  lemma ReachableInv(size: int, s: State)
    requires Reachable(size, s)
    ensures Inv(size, s)
  {
    var contents: seq<byte>, actions: seq<Action> :|
      1 <= size <= 0x8000_0000 && |contents| == size && s == Run(size, Init(size, contents), actions);
    assert Unread(Init(size, contents)) == [];
    RunKeeps(size, Init(size, contents), actions);
  }

  /** In every interleaving the messages returned are a prefix of the messages accepted, byte
      for byte; neither side ever touches memory outside the ring, and neither
      resynchronisation branch is ever taken. */
  lemma DeliveredIsPrefixOfAccepted(size: int, s: State)
    requires Reachable(size, s)
    ensures s.delivered <= s.accepted
    ensures s.faults == 0
  {
    ReachableInv(size, s);
  }

  /** Where byte `k` of what is published and unread is, and that it is not where the producer
      writes next. */
  lemma PublishedByte(size: int, s: State, k: int)
    requires RingOk(size, s) && 0 <= k < |Stream(Unread(s))|
    ensures var p, u := At(s.begin, k, size), Stream(Unread(s));
            0 <= p < size && s.mem[p] == u[k] && p != At(s.begin, |u| + |Pending(s.prod)|, size)
  {
    hide Stream, Pending;
    var u := Stream(Unread(s));
    assert (u + Pending(s.prod))[k] == u[k];
  }

  /** Only the producer changes the ring, and only just behind what it has written. */
  lemma StepStores(size: int, s: State, a: Action, i: int)
    requires Inv(size, s) && 0 <= i < size && i != At(s.begin, |Stream(Unread(s))| + |Pending(s.prod)|, size)
    ensures |Step(size, s, a).mem| == size && Step(size, s, a).mem[i] == s.mem[i]
  {
    hide Stream, Pending, ProducerOk, ConsumerOk, Holds, LE32;
    if a.Produce? {
      ProducerStores(size, s);
    }
  }

  /** No step changes a byte that is published and unread. */
  lemma PublishedBytesAreStable(size: int, s: State, a: Action, k: int)
    requires Reachable(size, s)
    requires 0 <= k < |Stream(Unread(s))|
    ensures Load(s, At(s.begin, k, size)) == Stream(Unread(s))[k]
    ensures Load(Step(size, s, a), At(s.begin, k, size)) == Stream(Unread(s))[k]
  {
    hide Stream, Pending, Step, Holds;
    ReachableInv(size, s);
    PublishedByte(size, s, k);
    StepStores(size, s, a, At(s.begin, k, size));
  }

  /** The producer writes nowhere but just behind what is published and already written. */
  lemma ProducerStores(size: int, s: State)
    requires Inv(size, s)
    ensures var used := |Stream(Unread(s))| + |Pending(s.prod)|;
            forall i :: 0 <= i < size && i != At(s.begin, used, size) ==> ProducerStep(size, s).mem[i] == s.mem[i]
  {
    hide Stream, WriteIndex, ConsumerOk, Holds, LE32;
    match s.prod
    case PBody(m, b, e, i) =>
      if i < |m| {
        WriteIndexCorrect(size, b, s.sinceIndex, |Stream(Unread(s))|, |m|, i);
      }
    case _ =>
  }

  /** An append is refused exactly when the frame did not fit beside what was unread at the
      moment `_begin` was read; bytes consumed since then are not counted. */
  lemma RefusalIsExact(size: int, s: State)
    requires Reachable(size, s) && s.prod.PLeftEnd?
    ensures ProducerStep(size, s).prod.PIdle?
       <==> 4 + |s.prod.msg| > size - 1 - (|Stream(Unread(s))| + s.sinceLeft)
  {
    ReachableInv(size, s);
    LeftSizeCorrect(s.prod.leftBegin, s.sinceLeft + |Stream(Unread(s))|, size);
  }

  /** A poll reports an empty pipe exactly when nothing published is unread at its second look
      at `_end`. */
  lemma EmptyIsExact(size: int, s: State)
    requires Reachable(size, s) && s.cons.CUsedEnd?
    ensures ConsumerStep(size, s).cons.CIdle? <==> s.delivered == s.accepted
  {
    ReachableInv(size, s);
    var q := Unread(s);
    UsedSizeExact(s.begin, |Stream(q)|, size);
    if q != [] {
      assert Stream(q) == Frame(q[0]) + Stream(q[1..]);
    }
  }

  lemma NextIsHead(delivered: seq<Message>, accepted: seq<Message>)
    requires delivered < accepted
    ensures delivered + [accepted[|delivered|..][0]] == accepted[..|delivered| + 1]
  {
  }

  lemma InvPrefix(size: int, s: State)
    requires Inv(size, s)
    ensures s.delivered <= s.accepted
  {
  }

  /** A message leaves the pipe only into the hands of the consumer, whole and in order. */
  lemma DeliveryIsInOrder(size: int, s: State, a: Action)
    requires Reachable(size, s)
    ensures var s' := Step(size, s, a);
            s'.delivered == s.delivered
            || (|s.delivered| < |s.accepted| && s'.delivered == s.accepted[..|s.delivered| + 1])
    ensures s.accepted <= Step(size, s, a).accepted
  {
    hide RingOk, ProducerOk, Stream, Pending;
    ReachableInv(size, s);
    InvPrefix(size, s);
    if a.Consume? && s.cons.CBody? && |s.cons.buf| == s.cons.len {
      DeliverEffect(size, s);
      NextIsHead(s.delivered, s.accepted);
    }
  }
}
