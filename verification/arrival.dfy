/** The order in which the replies to a session's queries arrive. */
module Arrival {
  import opened Shared
  import opened Sessions
  import opened MessageBases
  import opened MessageHandlers

  /** A reply that the session accepts. */
  ghost predicate Usable(init: Key -> Value, processs: seq<DBProcess>, r: Response) {
    r.QueryRsp? && r.result == Success && ParseData(init, r.datas).Some? && Find(processs, r.uid) >= 0
  }

  function Loaded(init: Key -> Value, p: DBProcess, r: Response): DBProcess
    requires r.QueryRsp? && ParseData(init, r.datas).Some?
  {
    p.(player := Some(Player(r.uid, ParseData(init, r.datas).value)))
  }

  function Arrive(init: Key -> Value, processs: seq<DBProcess>, r: Response): seq<DBProcess>
    requires Usable(init, processs, r)
  {
    var i := Find(processs, r.uid);
    processs[i := Loaded(init, processs[i], r)]
  }

  lemma SameUids(a: seq<DBProcess>, b: seq<DBProcess>)
    requires |a| == |b| && forall i :: 0 <= i < |a| ==> a[i].uid == b[i].uid
    ensures forall uid :: Find(a, uid) == Find(b, uid)
  {
    forall uid
      ensures Find(a, uid) == Find(b, uid)
    {
      assert forall i :: 0 <= i < |a| ==> (a[i].uid == uid <==> b[i].uid == uid);
    }
  }

  /** The data after the replies `rs`, in that order. */
  ghost function ArriveAll(init: Key -> Value, processs: seq<DBProcess>, rs: seq<Response>): (after: seq<DBProcess>)
    requires forall r :: r in rs ==> Usable(init, processs, r)
    ensures |after| == |processs| && forall i :: 0 <= i < |processs| ==> after[i].uid == processs[i].uid
    decreases |rs|
  {
    if rs == [] then processs
    else
      var before := ArriveAll(init, processs, rs[..|rs| - 1]);
      SameUids(before, processs);
      assert Usable(init, processs, rs[|rs| - 1]);
      Arrive(init, before, rs[|rs| - 1])
  }

  ghost predicate FromDifferentUids(rs: seq<Response>) {
    && (forall r :: r in rs ==> r.QueryRsp?)
    && (forall i, j :: 0 <= i < j < |rs| && rs[i].QueryRsp? && rs[j].QueryRsp? ==> rs[i].uid != rs[j].uid)
  }

  /** What the last reply does to one uid. */
  lemma LastReply(init: Key -> Value, processs: seq<DBProcess>, rs: seq<Response>, i: nat)
    requires UidsDistinct(processs) && rs != [] && i < |processs|
    requires forall r :: r in rs ==> Usable(init, processs, r)
    ensures (forall r :: r in rs[..|rs| - 1] ==> Usable(init, processs, r)) && Usable(init, processs, rs[|rs| - 1])
    ensures var before, last := ArriveAll(init, processs, rs[..|rs| - 1])[i], rs[|rs| - 1];
            ArriveAll(init, processs, rs)[i] == if last.uid == processs[i].uid then Loaded(init, before, last) else before
  {
    hide Usable, Loaded, UidsDistinct;
    var front, last := rs[..|rs| - 1], rs[|rs| - 1];
    assert rs == front + [last] && last in rs;
    var before := ArriveAll(init, processs, front);
    SameUids(before, processs);
    ArriveAt(init, processs, before, last, i);
  }

  lemma ArriveAt(init: Key -> Value, processs: seq<DBProcess>, before: seq<DBProcess>, r: Response, i: nat)
    requires UidsDistinct(processs) && Usable(init, processs, r) && i < |processs| == |before|
    requires (forall uid :: Find(before, uid) == Find(processs, uid)) && before[i].uid == processs[i].uid
    ensures Usable(init, before, r)
    ensures Arrive(init, before, r)[i] == if r.uid == processs[i].uid then Loaded(init, before[i], r) else before[i]
  {
    hide Loaded;
    if r.uid == processs[i].uid {
      FindIs(processs, r.uid, i);
    }
  }

  /** A uid that has no reply is as before. */
  lemma {:induction false} NoReply(init: Key -> Value, processs: seq<DBProcess>, rs: seq<Response>, i: nat)
    requires UidsDistinct(processs) && i < |processs|
    requires forall r :: r in rs ==> Usable(init, processs, r)
    requires forall j :: 0 <= j < |rs| && rs[j].QueryRsp? ==> rs[j].uid != processs[i].uid
    ensures ArriveAll(init, processs, rs)[i] == processs[i]
    decreases |rs|
  {
    if rs != [] {
      LastReply(init, processs, rs, i);
      NoReply(init, processs, rs[..|rs| - 1], i);
    }
  }

  /** A uid that has a reply has the data of that one. */
  lemma {:induction false} OwnReply(init: Key -> Value, processs: seq<DBProcess>, rs: seq<Response>, i: nat, j: nat)
    requires UidsDistinct(processs) && FromDifferentUids(rs) && i < |processs| && j < |rs|
    requires forall r :: r in rs ==> Usable(init, processs, r)
    requires rs[j] in rs && rs[j].uid == processs[i].uid
    ensures ArriveAll(init, processs, rs)[i] == Loaded(init, processs[i], rs[j])
    decreases |rs|
  {
    var front := rs[..|rs| - 1];
    LastReply(init, processs, rs, i);
    assert forall k :: 0 <= k < |front| ==> front[k] == rs[k];
    if j == |rs| - 1 {
      NoReply(init, processs, front, i);
    } else {
      OwnReply(init, processs, front, i, j);
    }
  }

  ghost predicate Missing(processs: seq<DBProcess>, rs: seq<Response>, i: nat)
    requires i < |processs|
  {
    processs[i].player.None? && forall j :: 0 <= j < |rs| && rs[j].QueryRsp? ==> rs[j].uid != processs[i].uid
  }

  /** The data is complete exactly when every uid had it or has had its reply. */
  lemma CompleteIff(init: Key -> Value, processs: seq<DBProcess>, rs: seq<Response>)
    requires UidsDistinct(processs) && FromDifferentUids(rs)
    requires forall r :: r in rs ==> Usable(init, processs, r)
    ensures HaveAll(ArriveAll(init, processs, rs)) <==> forall i :: 0 <= i < |processs| ==> !Missing(processs, rs, i)
  {
    forall i | 0 <= i < |processs|
      ensures ArriveAll(init, processs, rs)[i].player.Some? <==> !Missing(processs, rs, i)
    {
      if j :| 0 <= j < |rs| && rs[j].QueryRsp? && rs[j].uid == processs[i].uid {
        OwnReply(init, processs, rs, i, j);
      } else {
        NoReply(init, processs, rs, i);
      }
    }
  }

  lemma NoneInOther(rs: seq<Response>, qs: seq<Response>, uid: nat)
    requires forall r :: r in rs <==> r in qs
    requires forall j :: 0 <= j < |rs| && rs[j].QueryRsp? ==> rs[j].uid != uid
    ensures forall k :: 0 <= k < |qs| && qs[k].QueryRsp? ==> qs[k].uid != uid
  {
    forall k | 0 <= k < |qs| && qs[k].QueryRsp?
      ensures qs[k].uid != uid
    {
      assert qs[k] in rs;
    }
  }

  lemma OrderDoesNotMatter(init: Key -> Value, processs: seq<DBProcess>, rs: seq<Response>, qs: seq<Response>)
    requires UidsDistinct(processs) && FromDifferentUids(rs) && FromDifferentUids(qs)
    requires forall r :: r in rs <==> r in qs
    requires forall r :: r in rs ==> Usable(init, processs, r)
    ensures ArriveAll(init, processs, rs) == ArriveAll(init, processs, qs)
  {
    forall i | 0 <= i < |processs|
      ensures ArriveAll(init, processs, rs)[i] == ArriveAll(init, processs, qs)[i]
    {
      if j :| 0 <= j < |rs| && rs[j].QueryRsp? && rs[j].uid == processs[i].uid {
        assert rs[j] in qs;
        var k :| 0 <= k < |qs| && qs[k] == rs[j];
        OwnReply(init, processs, rs, i, j);
        OwnReply(init, processs, qs, i, k);
      } else {
        NoneInOther(rs, qs, processs[i].uid);
        NoReply(init, processs, rs, i);
        NoReply(init, processs, qs, i);
      }
    }
  }

  // ---------------------------------------------------------------------------------------
  // The calls of `Process` that the replies cause
  // ---------------------------------------------------------------------------------------

  function Responses(calls: seq<(Hooks, Response)>): seq<Response> {
    seq(|calls|, i requires 0 <= i < |calls| => calls[i].1)
  }

  /** The session waits for its queries, and `calls` bring usable replies to some of them, one
      for each uid. */
  ghost predicate Answers(init: Key -> Value, d: SessionData, calls: seq<(Hooks, Response)>) {
    && d.state == WaitQuery && UidsDistinct(d.processs) && FromDifferentUids(Responses(calls))
    && (forall c :: c in calls ==> Terminates(c.0) && c.0.init == init && Usable(init, d.processs, c.1))
    && (forall c :: c in calls && Find(d.processs, c.1.uid) >= 0 ==> d.processs[Find(d.processs, c.1.uid)].player.None?)
  }

  lemma {:induction false} AnswersUsable(init: Key -> Value, d: SessionData, calls: seq<(Hooks, Response)>)
    requires Answers(init, d, calls)
    ensures forall r :: r in Responses(calls) ==> Usable(init, d.processs, r)
  {
    forall r | r in Responses(calls)
      ensures Usable(init, d.processs, r)
    {
      var i :| 0 <= i < |calls| && Responses(calls)[i] == r;
      assert calls[i] in calls;
    }
  }

  lemma {:induction false} AnswersPrefix(init: Key -> Value, d: SessionData, calls: seq<(Hooks, Response)>, k: nat)
    requires Answers(init, d, calls) && k <= |calls|
    ensures Answers(init, d, calls[..k]) && Responses(calls[..k]) == Responses(calls)[..k]
  {
    var rs, front := Responses(calls), calls[..k];
    assert Responses(front) == rs[..k];
    assert forall c :: c in front ==> c in calls;
    PrefixFromDifferentUids(rs, k);
  }

  lemma PrefixFromDifferentUids(rs: seq<Response>, k: nat)
    requires FromDifferentUids(rs) && k <= |rs|
    ensures FromDifferentUids(rs[..k])
  {
    assert forall i :: 0 <= i < k ==> rs[..k][i] == rs[i];
  }

  /** The session's data after the replies of `calls`, before any handler has run. */
  ghost function Received(init: Key -> Value, d: SessionData, calls: seq<(Hooks, Response)>): SessionData
    requires Answers(init, d, calls)
  {
    AnswersUsable(init, d, calls);
    d.(processs := ArriveAll(init, d.processs, Responses(calls)))
  }

  /** One more reply: it starts the logic if it completes the data, and is waited on otherwise. */
  lemma {:induction false} OneMoreReply(init: Key -> Value, d: SessionData, calls: seq<(Hooks, Response)>)
    requires Answers(init, d, calls) && calls != []
    ensures Answers(init, d, calls[..|calls| - 1])
    ensures var before, x := Received(init, d, calls[..|calls| - 1]), Received(init, d, calls);
            var (h, r) := calls[|calls| - 1];
            FirstStep(h, before, r) == if HaveAll(x.processs) then h.onQuerySuccess(x) else (x, Hup)
  {
    var n := |calls| - 1;
    AnswersPrefix(init, d, calls, n);
    AnswersUsable(init, d, calls);
    AnswersUsable(init, d, calls[..n]);
    assert calls[n] in calls;
    SameUids(ArriveAll(init, d.processs, Responses(calls[..n])), d.processs);
    assert Responses(calls)[n] == calls[n].1;
  }

  /** While a reply is still to come, its uid is missing. */
  lemma {:induction false} StillMissing(init: Key -> Value, d: SessionData, calls: seq<(Hooks, Response)>, k: nat)
    requires Answers(init, d, calls) && k < |calls|
    ensures Answers(init, d, calls[..k]) && !HaveAll(Received(init, d, calls[..k]).processs)
  {
    AnswersPrefix(init, d, calls, k);
    AnswersUsable(init, d, calls[..k]);
    assert calls[k] in calls;
    var i := Find(d.processs, calls[k].1.uid);
    assert forall j :: 0 <= j < k ==> Responses(calls[..k])[j] == Responses(calls)[j];
    assert Responses(calls)[k] == calls[k].1;
    CompleteIff(init, d.processs, Responses(calls[..k]));
    assert Missing(d.processs, Responses(calls[..k]), i);
  }

  /** As long as a reply is still to come the session stays suspended: no handler has run and
      nothing was sent, whatever the handlers are. */
  lemma {:induction false} WaitsForTheRest(init: Key -> Value, d: SessionData, calls: seq<(Hooks, Response)>, k: nat)
    requires Answers(init, d, calls) && k < |calls|
    ensures Answers(init, d, calls[..k])
    ensures Serve(Waiting(d), calls[..k]) == Waiting(Received(init, d, calls[..k]))
    decreases k
  {
    hide Answers, Received;
    AnswersPrefix(init, d, calls, k);
    if k == 0 {
      NothingReceived(init, d, calls[..0]);
    } else {
      WaitsForTheRest(init, d, calls, k - 1);
      StillMissing(init, d, calls, k);
      assert calls[..k][..k - 1] == calls[..k - 1];
      LastCall(init, d, calls[..k]);
    }
  }

  lemma {:induction false} NothingReceived(init: Key -> Value, d: SessionData, calls: seq<(Hooks, Response)>)
    requires Answers(init, d, calls) && calls == []
    ensures Received(init, d, calls) == d
  {
    assert Responses(calls) == [];
  }

  /** The last of a series of calls. */
  lemma {:induction false} LastCall(init: Key -> Value, d: SessionData, calls: seq<(Hooks, Response)>)
    requires Answers(init, d, calls) && calls != [] && Answers(init, d, calls[..|calls| - 1])
    requires Serve(Waiting(d), calls[..|calls| - 1]) == Waiting(Received(init, d, calls[..|calls| - 1]))
    ensures var h, x := calls[|calls| - 1].0, Received(init, d, calls);
            Terminates(h)
            && Serve(Waiting(d), calls) == if HaveAll(x.processs) then Loop(h, h.onQuerySuccess(x).0, h.onQuerySuccess(x).1) else Waiting(x)
  {
    hide Usable, HaveAll, FirstStep, FromDifferentUids;
    var n := |calls| - 1;
    var before := Received(init, d, calls[..n]);
    assert calls == calls[..n] + [calls[n]] && calls[n] in calls;
    ServeAppend(Waiting(d), calls[..n], [calls[n]]);
    assert [calls[n]][1..] == [];
    assert Serve(Waiting(before), [calls[n]]) == ProcessOnce(calls[n].0, before, calls[n].1);
    OneMoreReply(init, d, calls);
  }

  /** The logic runs exactly when the last missing uid arrives: every earlier reply leaves the
      session waiting, and the last one runs the logic, once, on the data of all of them, or
      leaves the session waiting if uids are missing that nobody has answered for. */
  lemma {:induction false} LogicRunsWithTheLastReply(init: Key -> Value, d: SessionData, calls: seq<(Hooks, Response)>)
    requires Answers(init, d, calls) && calls != []
    ensures forall k :: 0 <= k < |calls| ==>
              Answers(init, d, calls[..k]) && Serve(Waiting(d), calls[..k]) == Waiting(Received(init, d, calls[..k]))
    ensures var h, x := calls[|calls| - 1].0, Received(init, d, calls);
            && Terminates(h)
            && (HaveAll(x.processs) <==> forall i :: 0 <= i < |d.processs| ==> !Missing(d.processs, Responses(calls), i))
            && Serve(Waiting(d), calls) == if HaveAll(x.processs) then Loop(h, h.onQuerySuccess(x).0, h.onQuerySuccess(x).1) else Waiting(x)
  {
    forall k | 0 <= k < |calls|
      ensures Answers(init, d, calls[..k]) && Serve(Waiting(d), calls[..k]) == Waiting(Received(init, d, calls[..k]))
    {
      WaitsForTheRest(init, d, calls, k);
    }
    LastCall(init, d, calls);
    AnswersUsable(init, d, calls);
    CompleteIff(init, d.processs, Responses(calls));
  }

  /** Whatever the order in which the same replies arrive, the session ends up the same. */
  lemma {:induction false} ArrivalOrder(init: Key -> Value, d: SessionData, calls: seq<(Hooks, Response)>, calls': seq<(Hooks, Response)>)
    requires Answers(init, d, calls) && Answers(init, d, calls') && calls != [] && calls' != []
    requires forall r :: r in Responses(calls) <==> r in Responses(calls')
    requires calls[|calls| - 1].0 == calls'[|calls'| - 1].0
    ensures Serve(Waiting(d), calls) == Serve(Waiting(d), calls')
  {
    LogicRunsWithTheLastReply(init, d, calls);
    LogicRunsWithTheLastReply(init, d, calls');
    AnswersUsable(init, d, calls);
    OrderDoesNotMatter(init, d.processs, Responses(calls), Responses(calls'));
  }
}
