/** What becomes of one poll and of one offer, while the other process does anything it likes. */
module PipeProgress {
  import opened Bytes
  import opened Ring
  import opened PipeProtocol

  // ---------------------------------------------------------------------------------------
  // The size test
  // ---------------------------------------------------------------------------------------

  /** A poll that has read the length of the head message gives up if and only if that message
      is larger than the reader's buffer, and then nothing was consumed. */
  lemma SizeTestIsExact(size: int, s: State)
    requires Reachable(size, s) && s.cons.CHeader? && |s.cons.header| == 4
    ensures |s.delivered| < |s.accepted|
    ensures var s', head := Step(size, s, Consume), s.accepted[|s.delivered|];
            && (s'.cons.CIdle? <==> |head| > s.cons.max)
            && (s'.cons.CBody? <==> |head| <= s.cons.max)
            && s'.begin == s.begin && s'.delivered == s.delivered
  {
    ReachableInv(size, s);
    var q := Unread(s);
    assert s.cons.header[..4] == s.cons.header == LE32(|q[0]|);
    LE32RoundTrip(|q[0]|);
  }

  /** No poll in `actions` offers a buffer larger than `max`. */
  predicate PollsWithin(actions: seq<Action>, max: int) {
    forall i :: 0 <= i < |actions| && actions[i].Poll? ==> actions[i].max <= max
  }

  predicate LimitWithin(c: Consumer, max: int) {
    c.CIdle? || c.max <= max
  }

  lemma {:induction false} RunFits(size: int, s: State, actions: seq<Action>, max: int)
    requires size > 0 && Inv(size, s) && LimitWithin(s.cons, max) && PollsWithin(actions, max)
    ensures s.delivered <= Run(size, s, actions).delivered
    ensures forall i :: |s.delivered| <= i < |Run(size, s, actions).delivered| ==> |Run(size, s, actions).delivered[i]| <= max
    decreases |actions|
  {
    hide RingOk, ProducerOk, Stream, Pending, ProducerStep;
    if actions != [] {
      var s' := Step(size, s, actions[0]);
      StepFits(size, s, actions[0], max);
      StepKeeps(size, s, actions[0]);
      RunFits(size, s', actions[1..], max);
    }
  }

  lemma StepFits(size: int, s: State, a: Action, max: int)
    requires size > 0 && Inv(size, s) && LimitWithin(s.cons, max) && (a.Poll? ==> a.max <= max)
    ensures var s' := Step(size, s, a);
            LimitWithin(s'.cons, max)
            && (s'.delivered == s.delivered || exists m: Message :: |m| <= max && s'.delivered == s.delivered + [m])
  {
    hide Inv, ProducerStep, ConsumerStep;
    if a.Consume? {
      ConsumeFits(size, s, max);
    } else if !a.ConsumerDies? && !a.Poll? {
      ProducerLeaves(size, s, a);
    }
  }

  lemma ConsumeFits(size: int, s: State, max: int)
    requires size > 0 && Inv(size, s) && LimitWithin(s.cons, max)
    ensures var s' := ConsumerStep(size, s);
            LimitWithin(s'.cons, max)
            && (s'.delivered == s.delivered || exists m: Message :: |m| <= max && s'.delivered == s.delivered + [m])
  {
    hide Inv;
    if s.cons.CBody? && |s.cons.buf| == s.cons.len {
      DeliverEffect(size, s);
      HeadFits(size, s);
      assert ConsumerStep(size, s).delivered == s.delivered + [Unread(s)[0]];
    } else if s.cons.CBody? {
      BodyLength(size, s);
    }
  }

  lemma BodyLength(size: int, s: State)
    requires Inv(size, s) && s.cons.CBody?
    ensures |s.cons.buf| <= s.cons.len
  {
    hide ProducerOk, Stream, Pending, Holds;
  }

  lemma HeadFits(size: int, s: State)
    requires Inv(size, s) && s.cons.CBody?
    ensures Unread(s) != [] && |Unread(s)[0]| <= s.cons.max
  {
    hide ProducerOk, Stream, Pending, Holds;
  }

  /** Over any run in which readers offer at most `max` bytes, no longer message is copied out. */
  lemma DeliveredFits(size: int, s: State, actions: seq<Action>, max: int)
    requires Reachable(size, s) && s.cons.CIdle? && PollsWithin(actions, max)
    ensures forall i :: |s.delivered| <= i < |Run(size, s, actions).delivered| ==> |Run(size, s, actions).delivered[i]| <= max
  {
    ReachableInv(size, s);
    RunFits(size, s, actions, max);
  }

  // ---------------------------------------------------------------------------------------
  // A poll ends
  // ---------------------------------------------------------------------------------------

  /** How many steps the consumer takes in a run. */
  function Consumes(actions: seq<Action>): nat
    decreases |actions|
  {
    if actions == [] then 0 else Consumes(actions[1..]) + if actions[0].Consume? then 1 else 0
  }

  /** The poll is left alone: the producer may offer, store, publish and die, but the consumer
      neither starts again nor dies. */
  predicate PollUndisturbed(actions: seq<Action>) {
    forall i :: 0 <= i < |actions| ==> !actions[i].Poll? && !actions[i].ConsumerDies?
  }

  /** The consumer's steps left until a poll on a head of `len` bytes has ended. */
  function PollLeft(c: Consumer, len: nat): int {
    match c
    case CIdle => 0
    case CIndexBegin(_) => 10 + len
    case CIndexEnd(_, _) => 9 + len
    case CUsedBegin(_, _, _) => 8 + len
    case CUsedEnd(_, _, _, _) => 7 + len
    case CHeader(_, _, _, _, header) => 6 + len - |header|
    case CBody(_, _, _, _, buf) => 1 + len - |buf|
  }

  /** A poll with limit `max` that found `delivered` returned, `begin`, and `head` next: it is
      under way, or it has ended as it should. */
  ghost predicate Polling(size: int, s: State, delivered: seq<Message>, begin: int, head: Message, max: int) {
    && size > 0 && Inv(size, s)
    && if s.cons.CIdle? && |head| <= max then s.delivered == delivered + [head]
       else s.delivered == delivered && s.begin == begin && Unread(s) != [] && Unread(s)[0] == head
            && (s.cons.CIdle? || s.cons.max == max) && (s.cons.CBody? ==> |head| <= max)
  }

  lemma HeadStays(size: int, s: State, a: Action)
    requires size > 0 && Inv(size, s) && Unread(s) != []
    requires !a.Consume? && !a.ConsumerDies?
    ensures var s' := Step(size, s, a);
            s'.delivered == s.delivered && s'.begin == s.begin && Unread(s') != [] && Unread(s')[0] == Unread(s)[0]
  {
    hide Stream, Pending, ProducerOk, ConsumerOk, Holds, LE32, WriteIndex;
  }

  lemma ConsumerPolls(size: int, s: State, delivered: seq<Message>, begin: int, head: Message, max: int)
    requires Polling(size, s, delivered, begin, head, max) && !s.cons.CIdle?
    ensures Polling(size, ConsumerStep(size, s), delivered, begin, head, max)
    ensures PollLeft(ConsumerStep(size, s).cons, |head|) < PollLeft(s.cons, |head|)
  {
    hide Stream, Pending, ProducerOk, Holds, LE32, ReadIndex;
    ConsumerKeeps(size, s);
    if s.cons.CBody? && |s.cons.buf| == s.cons.len {
      DeliverEffect(size, s);
    }
    if s.cons.CUsedEnd? {
      UsedOfHead(size, s);
    }
    if s.cons.CHeader? && |s.cons.header| == 4 {
      LengthRead(size, s);
    }
  }

  lemma UsedOfHead(size: int, s: State)
    requires size > 0 && Inv(size, s) && s.cons.CUsedEnd? && Unread(s) != []
    ensures UsedSize(s.cons.usedBegin, s.end, size) >= 4
  {
    var q := Unread(s);
    UsedSizeExact(s.begin, |Stream(q)|, size);
    assert Stream(q) == Frame(q[0]) + Stream(q[1..]);
  }

  lemma LengthRead(size: int, s: State)
    requires Inv(size, s) && s.cons.CHeader? && |s.cons.header| == 4
    ensures Unread(s) != [] && FromLE32(s.cons.header[..4]) == |Unread(s)[0]| && s.cons.used >= |Unread(s)[0]| + 4
  {
    var q := Unread(s);
    assert s.cons.header[..4] == s.cons.header == LE32(|q[0]|);
    LE32RoundTrip(|q[0]|);
  }

  lemma StepPolls(size: int, s: State, a: Action, delivered: seq<Message>, begin: int, head: Message, max: int)
    requires Polling(size, s, delivered, begin, head, max) && !a.Poll? && !a.ConsumerDies?
    ensures var s' := Step(size, s, a);
            Polling(size, s', delivered, begin, head, max)
            && PollLeft(s'.cons, |head|) <= PollLeft(s.cons, |head|) - if a.Consume? && !s.cons.CIdle? then 1 else 0
  {
    hide Inv, ConsumerStep, ProducerStep, PollLeft;
    StepKeeps(size, s, a);
    if a.Consume? {
      if !s.cons.CIdle? {
        ConsumerPolls(size, s, delivered, begin, head, max);
      } else {
        IdleStays(size, s);
      }
    } else {
      ProducerLeaves(size, s, a);
      if Unread(s) != [] {
        HeadStays(size, s, a);
      }
    }
  }

  lemma IdleStays(size: int, s: State)
    requires size > 0 && s.cons.CIdle?
    ensures ConsumerStep(size, s) == s
  {
  }

  lemma ProducerLeaves(size: int, s: State, a: Action)
    requires size > 0 && !a.Consume? && !a.ConsumerDies? && !a.Poll?
    ensures Step(size, s, a).cons == s.cons && Step(size, s, a).delivered == s.delivered
  {
  }

  lemma {:induction false} RunPolls(size: int, s: State, actions: seq<Action>, delivered: seq<Message>, begin: int, head: Message, max: int)
    requires Polling(size, s, delivered, begin, head, max) && PollUndisturbed(actions)
    requires PollLeft(s.cons, |head|) <= Consumes(actions)
    ensures Polling(size, Run(size, s, actions), delivered, begin, head, max) && Run(size, s, actions).cons.CIdle?
    decreases |actions|
  {
    hide Polling, Step;
    if actions == [] {
      LeftWhileBusy(size, s, delivered, begin, head, max);
    } else {
      StepPolls(size, s, actions[0], delivered, begin, head, max);
      LeftWhileBusy(size, s, delivered, begin, head, max);
      RunPolls(size, Step(size, s, actions[0]), actions[1..], delivered, begin, head, max);
    }
  }

  lemma LeftWhileBusy(size: int, s: State, delivered: seq<Message>, begin: int, head: Message, max: int)
    requires Polling(size, s, delivered, begin, head, max)
    ensures PollLeft(s.cons, |head|) >= 0 && (PollLeft(s.cons, |head|) == 0 <==> s.cons.CIdle?)
    ensures size > 0
  {
    hide RingOk, ProducerOk, Stream, Pending, Holds, LE32;
  }

  /** A poll on a pipe that is not empty delivers exactly the head message if that fits the
      reader's buffer, and otherwise consumes nothing, whatever the producer does meanwhile. */
  lemma PollTakesTheHead(size: int, s: State, max: uint32, actions: seq<Action>)
    requires Reachable(size, s) && s.cons.CIdle? && |s.delivered| < |s.accepted|
    requires PollUndisturbed(actions) && Consumes(actions) >= 10 + |s.accepted[|s.delivered|]|
    ensures var s', head := Run(size, s, [Poll(max)] + actions), s.accepted[|s.delivered|];
            && s'.cons.CIdle?
            && s'.delivered == (if |head| <= max then s.delivered + [head] else s.delivered)
            && (|head| > max ==> s'.begin == s.begin)
  {
    hide RingOk, ProducerOk, ConsumerStep, Stream, Pending;
    ReachableInv(size, s);
    var polled, head := Step(size, s, Poll(max)), s.accepted[|s.delivered|];
    StepKeeps(size, s, Poll(max));
    assert ([Poll(max)] + actions)[1..] == actions;
    InvSize(size, s);
    RunPolls(size, polled, actions, s.delivered, s.begin, head, max);
  }

  lemma InvSize(size: int, s: State)
    requires Inv(size, s)
    ensures size > 0
  {
  }

  // ---------------------------------------------------------------------------------------
  // An offer ends
  // ---------------------------------------------------------------------------------------

  function Produces(actions: seq<Action>): nat
    decreases |actions|
  {
    if actions == [] then 0 else Produces(actions[1..]) + if actions[0].Produce? then 1 else 0
  }

  /** The offer is left alone: the consumer may poll, consume and die. */
  predicate OfferUndisturbed(actions: seq<Action>) {
    forall i :: 0 <= i < |actions| ==> !actions[i].Offer? && !actions[i].ProducerDies?
  }

  function OfferLeft(p: Producer): int {
    match p
    case PIdle => 0
    case PLeftBegin(m) => 10 + |m|
    case PLeftEnd(m, _) => 9 + |m|
    case PIndexBegin(m) => 8 + |m|
    case PIndexEnd(m, _) => 7 + |m|
    case PHeader(m, _, _, i) => 6 + |m| - i
    case PBody(m, _, _, i) => 1 + |m| - i
  }

  function Used(s: State): nat {
    |Stream(Unread(s))|
  }

  /** An offer of `m` that found room for it: it is under way, or `m` is published. */
  ghost predicate Offering(size: int, s: State, accepted: seq<Message>, m: Message) {
    && size > 0 && Inv(size, s)
    && if s.prod.PIdle? then s.accepted == accepted + [m]
       else s.accepted == accepted && s.prod.msg == m
            && (s.prod.PLeftBegin? ==> 4 + |m| < size - Used(s))
            && (s.prod.PLeftEnd? ==> 4 + |m| < size - Used(s) - s.sinceLeft)
  }

  lemma ProducerOffers(size: int, s: State, accepted: seq<Message>, m: Message)
    requires Offering(size, s, accepted, m) && !s.prod.PIdle?
    ensures Offering(size, ProducerStep(size, s), accepted, m)
    ensures OfferLeft(ProducerStep(size, s).prod) < OfferLeft(s.prod)
  {
    hide Stream, ConsumerOk, Holds, LE32, WriteIndex;
    ProducerKeeps(size, s);
    if s.prod.PLeftEnd? {
      LeftSizeCorrect(s.prod.leftBegin, s.sinceLeft + Used(s), size);
    }
  }

  /** Whatever the consumer takes leaves room. */
  lemma ConsumerFrees(size: int, s: State)
    requires size > 0 && Inv(size, s)
    ensures var s' := ConsumerStep(size, s);
            && s'.prod == s.prod && s'.accepted == s.accepted && Used(s') <= Used(s)
            && s'.sinceLeft + Used(s') == s.sinceLeft + Used(s)
  {
    hide ProducerOk, Holds, LE32, Pending;
    if s.cons.CBody? && |s.cons.buf| == s.cons.len {
      DeliverEffect(size, s);
      DeliverRing(size, s, ConsumerStep(size, s));
    } else {
      ConsumerKeeps(size, s);
      NothingTaken(size, s);
    }
  }

  lemma NothingTaken(size: int, s: State)
    requires size > 0 && Inv(size, s) && !(s.cons.CBody? && |s.cons.buf| == s.cons.len)
    ensures var s' := ConsumerStep(size, s);
            && s'.prod == s.prod && s'.accepted == s.accepted && s'.delivered == s.delivered && s'.sinceLeft == s.sinceLeft
  {
    hide Stream, Holds, Pending;
    if s.cons.CHeader? && |s.cons.header| == 4 {
      LengthRead(size, s);
    }
  }

  lemma StepOffers(size: int, s: State, a: Action, accepted: seq<Message>, m: Message)
    requires Offering(size, s, accepted, m) && !a.Offer? && !a.ProducerDies?
    ensures var s' := Step(size, s, a);
            Offering(size, s', accepted, m)
            && OfferLeft(s'.prod) <= OfferLeft(s.prod) - if a.Produce? && !s.prod.PIdle? then 1 else 0
  {
    hide Inv, ConsumerStep, ProducerStep, OfferLeft, Stream, Unread;
    StepKeeps(size, s, a);
    if a.Produce? {
      if !s.prod.PIdle? {
        ProducerOffers(size, s, accepted, m);
      } else {
        ProducerRests(size, s);
      }
    } else if a.Consume? {
      ConsumerFrees(size, s);
    } else {
      SameUnread(s, Step(size, s, a));
    }
  }

  lemma SameUnread(s: State, s': State)
    requires s'.accepted == s.accepted && s'.delivered == s.delivered
    ensures Used(s') == Used(s)
  {
    hide Stream;
  }

  lemma ProducerRests(size: int, s: State)
    requires size > 0 && s.prod.PIdle?
    ensures ProducerStep(size, s) == s
  {
  }

  lemma OfferWhileBusy(size: int, s: State, accepted: seq<Message>, m: Message)
    requires Offering(size, s, accepted, m)
    ensures OfferLeft(s.prod) >= 0 && (OfferLeft(s.prod) == 0 <==> s.prod.PIdle?)
    ensures size > 0
  {
    hide RingOk, ConsumerOk, Stream, Pending, Holds, LE32;
  }

  lemma {:induction false} RunOffers(size: int, s: State, actions: seq<Action>, accepted: seq<Message>, m: Message)
    requires Offering(size, s, accepted, m) && OfferUndisturbed(actions)
    requires OfferLeft(s.prod) <= Produces(actions)
    ensures Offering(size, Run(size, s, actions), accepted, m) && Run(size, s, actions).prod.PIdle?
    decreases |actions|
  {
    hide Offering, Step;
    OfferWhileBusy(size, s, accepted, m);
    if actions != [] {
      StepOffers(size, s, actions[0], accepted, m);
      RunOffers(size, Step(size, s, actions[0]), actions[1..], accepted, m);
    }
  }

  /** A message that fits beside what is unread when it is offered is published, exactly as it
      is, whatever the consumer does meanwhile. */
  lemma OfferIsPublished(size: int, s: State, m: Message, actions: seq<Action>)
    requires Reachable(size, s) && s.prod.PIdle? && 4 + |m| <= size - 1 - Used(s)
    requires OfferUndisturbed(actions) && Produces(actions) >= 10 + |m|
    ensures var s' := Run(size, s, [Offer(m)] + actions);
            s'.prod.PIdle? && s'.accepted == s.accepted + [m]
  {
    hide RingOk, ConsumerOk, ProducerStep, Stream, Pending, Unread;
    ReachableInv(size, s);
    StepKeeps(size, s, Offer(m));
    SameUnread(s, Step(size, s, Offer(m)));
    assert ([Offer(m)] + actions)[1..] == actions;
    InvSize(size, s);
    RunOffers(size, Step(size, s, Offer(m)), actions, s.accepted, m);
  }
}
