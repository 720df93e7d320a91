/** The course of a session over many calls: from the queries it sends to its logic, and from
    one uid to the next. */
module SessionCourse {
  import opened Shared
  import opened Sessions
  import opened MessageBases
  import opened MessageHandlers
  import opened KVStores
  import opened Dispatch
  import A = Arrival
  import R = Redo

  // ---------------------------------------------------------------------------------------
  // From the queries to the logic
  // ---------------------------------------------------------------------------------------

  /** A call that ends by sending queries sends exactly those for the data that is missing. */
  lemma QueriesLeft(h: Hooks, d: SessionData, reply: Response) returns (missing: seq<nat>)
    requires Terminates(h)
    requires ProcessOnce(h, d, reply).sent != [] && ProcessOnce(h, d, reply).sent[0].QueryReq?
    ensures var o := ProcessOnce(h, d, reply);
            MissingAre(o.data.processs, missing) && Asks(o.data.processs, missing, o.sent)
  {
    hide ProcessOnce, StartsWith, Answered, MissingAre, Asks;
    var runs := OneCall(h, d, reply);
    missing := QueriesAnswered(runs[|runs| - 1].0, runs[|runs| - 1].1, ProcessOnce(h, d, reply));
  }

  lemma QueriesAnswered(d: SessionData, r: HandlerResult, o: Outcome) returns (missing: seq<nat>)
    requires Answered(d, r, o) && o.sent != [] && o.sent[0].QueryReq?
    ensures MissingAre(o.data.processs, missing) && Asks(o.data.processs, missing, o.sent)
  {
    hide MissingAre, Asks, SaveKeys, R.SavedSoFar, R.Submits;
    missing :| MissingAre(d.processs, missing) && Asks(d.processs, missing, o.sent);
  }

  ghost predicate HasReply(rs: seq<Response>, uid: nat) {
    exists r :: r in rs && r.QueryRsp? && r.uid == uid
  }

  /** Every request in `sent` has had a reply. */
  ghost predicate AllAnswered(sent: seq<Request>, calls: seq<(Hooks, Response)>) {
    forall j :: 0 <= j < |sent| ==> HasReply(A.Responses(calls), sent[j].uid)
  }

  lemma {:induction false} NoneMissing(processs: seq<DBProcess>, missing: seq<nat>, sent: seq<Request>, calls: seq<(Hooks, Response)>, i: nat)
    requires MissingAre(processs, missing) && Asks(processs, missing, sent) && AllAnswered(sent, calls) && i < |processs|
    ensures !A.Missing(processs, A.Responses(calls), i)
  {
    if processs[i].player.None? {
      assert i in missing;
      var j :| 0 <= j < |missing| && missing[j] == i;
      var r :| r in A.Responses(calls) && r.QueryRsp? && r.uid == sent[j].uid;
    }
  }

  lemma {:induction false} RequestAnswered(processs: seq<DBProcess>, missing: seq<nat>, sent: seq<Request>, calls: seq<(Hooks, Response)>, j: nat)
    requires MissingAre(processs, missing) && Asks(processs, missing, sent) && j < |sent|
    requires forall i :: 0 <= i < |processs| ==> !A.Missing(processs, A.Responses(calls), i)
    ensures HasReply(A.Responses(calls), sent[j].uid)
  {
    var rs := A.Responses(calls);
    assert missing[j] in missing;
    assert !A.Missing(processs, rs, missing[j]);
    var k :| 0 <= k < |rs| && rs[k].QueryRsp? && rs[k].uid == processs[missing[j]].uid;
    assert rs[k] in rs;
  }

  lemma {:induction false} CompleteWhenAnswered(processs: seq<DBProcess>, missing: seq<nat>, sent: seq<Request>, calls: seq<(Hooks, Response)>)
    requires MissingAre(processs, missing) && Asks(processs, missing, sent)
    ensures AllAnswered(sent, calls) <==> forall i :: 0 <= i < |processs| ==> !A.Missing(processs, A.Responses(calls), i)
  {
    hide A.Missing, HasReply;
    if AllAnswered(sent, calls) {
      forall i | 0 <= i < |processs|
        ensures !A.Missing(processs, A.Responses(calls), i)
      {
        NoneMissing(processs, missing, sent, calls, i);
      }
    } else if forall i :: 0 <= i < |processs| ==> !A.Missing(processs, A.Responses(calls), i) {
      forall j | 0 <= j < |sent|
        ensures HasReply(A.Responses(calls), sent[j].uid)
      {
        RequestAnswered(processs, missing, sent, calls, j);
      }
      assert false;
    }
  }

  /** A session has sent its queries.  Once every one of them has had a usable reply, whatever
      the order, the logic runs on the complete data; until then the session waits. */
  lemma {:induction false} LogicRunsWhenAllAnswered(h: Hooks, d: SessionData, reply: Response, init: Key -> Value, calls: seq<(Hooks, Response)>)
    returns (runs: seq<Ran>)
    requires Terminates(h) && calls != []
    requires var o := ProcessOnce(h, d, reply); o.fate == Suspended && o.sent != [] && o.sent[0].QueryReq?
    requires A.Answers(init, ProcessOnce(h, d, reply).data, calls)
    ensures var o := ProcessOnce(h, d, reply);
            var x, h' := A.Received(init, o.data, calls), calls[|calls| - 1].0;
            && (HaveAll(x.processs) <==> AllAnswered(o.sent, calls))
            && (forall c :: c in calls ==> Terminates(c.0))
            && if AllAnswered(o.sent, calls) then InTurn(h', runs, Serve(o, calls)) && runs[0] == h'.onQuerySuccess(x)
               else Serve(o, calls) == Waiting(x)
  {
    hide InTurn, ProcessOnce, AllAnswered;
    var o := ProcessOnce(h, d, reply);
    var x, h' := A.Received(init, o.data, calls), calls[|calls| - 1].0;
    var missing := QueriesLeft(h, d, reply);
    A.LogicRunsWithTheLastReply(init, o.data, calls);
    CompleteWhenAnswered(o.data.processs, missing, o.sent, calls);
    assert Serve(o, calls) == Serve(Waiting(o.data), calls);
    runs := LoopInTurn(h', h'.onQuerySuccess(x).0, h'.onQuerySuccess(x).1);
  }

  /** A store that holds known keys only gives a usable reply to every query of the session. */
  lemma {:induction false} StoreReplyIsUsable(init: Key -> Value, cells: Cells, processs: seq<DBProcess>, uid: nat, keys: seq<Key>)
    requires (forall loc :: loc in cells ==> Known(loc.key)) && Find(processs, uid) >= 0
    ensures A.Usable(init, processs, QueryReply(cells, uid, keys))
    decreases |keys|
  {
    if keys != [] {
      var front := keys[..|keys| - 1];
      StoreReplyIsUsable(init, cells, processs, uid, front);
      assert LookupAll(cells, uid, keys)[..|keys| - 1] == LookupAll(cells, uid, front);
    }
  }

  // ---------------------------------------------------------------------------------------
  // From one uid to the next
  // ---------------------------------------------------------------------------------------

  function Uids(d: SessionData): seq<nat> {
    seq(|d.processs|, i requires 0 <= i < |d.processs| => d.processs[i].uid)
  }

  /** All uids have their data and were asked for known keys. */
  ghost predicate Complete(d: SessionData) {
    && UidsDistinct(d.processs)
    && forall i :: 0 <= i < |d.processs| ==>
         var p := d.processs[i];
         p.keys != [] && (forall k :: k in p.keys ==> Known(k)) && p.player.Some? && p.player.value.uid == p.uid
  }

  ghost predicate SameList(d: SessionData, d': SessionData) {
    Uids(d') == Uids(d) && d'.processIndex == d.processIndex && (Complete(d) ==> Complete(d'))
  }

  /** The current uid has a modification to save. */
  ghost predicate Modified(d: SessionData)
    requires Complete(d) && d.processIndex < |d.processs|
  {
    var p := d.processs[d.processIndex];
    exists k :: k in p.keys && R.Submits(p.player.value.entries, k)
  }

  /** Handlers for several uids: the logic changes the current uid and asks for a save, and each
      accepted save asks for the next uid. */
  ghost predicate WorksThrough(h: Hooks) {
    && Terminates(h)
    && (forall d :: Complete(d) && d.processIndex < |d.processs| ==>
          h.onQuerySuccess(d).1 == Save && SameList(d, h.onQuerySuccess(d).0) && |h.onQuerySuccess(d).0.processs| == |d.processs|
          && Modified(h.onQuerySuccess(d).0))
    && (forall d :: Complete(d) ==> h.onSaveSuccess(d).1 == Next && SameList(d, h.onSaveSuccess(d).0))
  }

  /** The save for the uid at place `i` is on its way. */
  ghost predicate AtUid(o: Outcome, uids: seq<nat>, i: nat) {
    && o.fate == Suspended && o.data.state == WaitSave && Complete(o.data) && Uids(o.data) == uids && o.data.processIndex == i < |uids|
    && |o.sent| == 1 && o.sent[0].SaveReq? && o.sent[0].uid == uids[i] && o.sent[0].items != []
  }

  lemma SaveGoesOut(d: SessionData, o: Outcome)
    requires Complete(d) && d.processIndex < |d.processs| && Modified(d) && Answered(d, Save, o)
    ensures AtUid(o, Uids(d), d.processIndex)
  {
    hide Complete, Modified, Saves, SaveKeys;
    CompleteIs(d);
    var process := d.processs[d.processIndex];
    SaveSent(d, o.data, o.sent);
    SamePlaces(d, o.data, SaveKeys(process.player.value.entries, process.keys).entries);
  }

  lemma SaveSent(d: SessionData, d': SessionData, sent: seq<Request>)
    requires Saves(d, d', sent) && d.processIndex < |d.processs|
    requires var p := d.processs[d.processIndex];
             && p.player.Some? && (forall k :: k in p.keys ==> Known(k))
             && exists k :: k in p.keys && R.Submits(p.player.value.entries, k)
    ensures var p := d.processs[d.processIndex];
            var after := SaveKeys(p.player.value.entries, p.keys);
            && sent == [SaveReq(p.player.value.uid, after.items)] && after.items != []
            && d'.processs == d.processs[d.processIndex := p.(player := Some(p.player.value.(entries := after.entries)))]
            && d'.processIndex == d.processIndex && d'.state == WaitSave
  {
    hide SaveKeys, R.EntriesAre, R.Submits;
    var p := d.processs[d.processIndex];
    var k :| k in p.keys && R.Submits(p.player.value.entries, k);
    assert k in ItemKeys(SaveKeys(p.player.value.entries, p.keys).items);
  }

  lemma CompleteIs(d: SessionData)
    requires Complete(d) && d.processIndex < |d.processs| && Modified(d)
    ensures var p := d.processs[d.processIndex];
            && p.player.Some? && p.player.value.uid == p.uid && (forall k :: k in p.keys ==> Known(k))
            && exists k :: k in p.keys && R.Submits(p.player.value.entries, k)
  {
  }

  lemma SamePlaces(d: SessionData, d': SessionData, entries: map<Key, Entry>)
    requires Complete(d) && d.processIndex < |d.processs|
    requires var p := d.processs[d.processIndex];
             d'.processs == d.processs[d.processIndex := p.(player := Some(CurrentPlayer(p).(entries := entries)))]
    ensures Complete(d') && Uids(d') == Uids(d)
  {
    assert forall i :: 0 <= i < |d.processs| ==> d'.processs[i].uid == d.processs[i].uid;
  }

  /** The logic runs for the uid at the current place. */
  lemma UidProcessed(h: Hooks, x: SessionData, o: Outcome, runs: seq<Ran>)
    requires WorksThrough(h) && Complete(x) && x.processIndex < |x.processs|
    requires InTurn(h, runs, o) && runs[0] == h.onQuerySuccess(x)
    ensures AtUid(o, Uids(x), x.processIndex)
  {
    hide WorksThrough, Complete, Modified, Answered, AtUid;
    LogicSaves(h, x);
    OnlyRun(h, runs, o);
    SaveGoesOut(h.onQuerySuccess(x).0, o);
  }

  lemma LogicSaves(h: Hooks, x: SessionData)
    requires WorksThrough(h) && Complete(x) && x.processIndex < |x.processs|
    ensures var (d, r) := h.onQuerySuccess(x);
            && r == Save && Complete(d) && d.processIndex == x.processIndex < |d.processs| && Modified(d)
            && Uids(d) == Uids(x)
  {
    hide Complete, Modified;
  }

  lemma OnlyRun(h: Hooks, runs: seq<Ran>, o: Outcome)
    requires runs != [] && runs[0].1 != Next && InTurn(h, runs, o)
    ensures Answered(runs[0].0, runs[0].1, o)
  {
    hide Answered;
    if |runs| > 1 {
      SecondRun(h, runs, o);
      assert false;
    }
  }

  /** The reply to a save: success, or a conflict after which the logic is run again. */
  ghost predicate Continues(h: Hooks, d: SessionData, r: Response) {
    WorksThrough(h) && r.SaveRsp? && (r.result == Success || Reruns(h, d, r))
  }

  lemma RerunComplete(h: Hooks, d: SessionData, r: Response)
    requires Complete(d) && Reruns(h, d, r) && r.SaveRsp?
    ensures Complete(RerunInput(h, d, r)) && Uids(RerunInput(h, d, r)) == Uids(d)
    ensures RerunInput(h, d, r).processIndex == d.processIndex
  {
    hide ParseData;
  }

  /** After an accepted save. */
  lemma Accepted(o: Outcome, uids: seq<nat>, i: nat, h: Hooks, r: Response)
    requires AtUid(o, uids, i) && WorksThrough(h) && r.SaveRsp? && r.result == Success
    ensures var o' := ProcessOnce(h, o.data, r);
            if i + 1 < |uids| then AtUid(o', uids, i + 1) else o'.fate.Finished? && o'.sent == []
  {
    hide Complete, ProcessOnce, InTurn, StartsWith;
    var d, o' := o.data, ProcessOnce(h, o.data, r);
    NextStays(h, d);
    var runs := OneCall(h, d, r);
    HasFirst(h, runs, o');
    AcceptedRuns(h, d, r, runs[0]);
    AfterNext(h, runs, o');
    if i + 1 < |uids| {
      UidProcessed(h, Advanced(h.onSaveSuccess(d).0), o', runs[1..]);
    }
  }

  lemma HasFirst(h: Hooks, runs: seq<Ran>, o: Outcome)
    requires InTurn(h, runs, o)
    ensures runs != []
  {
  }

  /** What follows a first answer `Next`. */
  lemma AfterNext(h: Hooks, runs: seq<Ran>, o: Outcome)
    requires InTurn(h, runs, o) && runs[0].1 == Next
    ensures var d := runs[0].0;
            if d.processIndex + 1 < |d.processs| then |runs| > 1 && InTurn(h, runs[1..], o) && runs[1] == h.onQuerySuccess(Advanced(d))
            else o.fate.Finished? && o.sent == []
  {
    hide Answered;
    var d := runs[0].0;
    if d.processIndex + 1 < |d.processs| {
      DropFirst(h, runs, o);
    } else if |runs| > 1 {
      SecondRun(h, runs, o);
      assert false;
    }
  }

  lemma AcceptedRuns(h: Hooks, d: SessionData, r: Response, ran: Ran)
    requires d.state == WaitSave && r.SaveRsp? && r.result == Success && StartsWith(h, d, r, ran)
    ensures ran == h.onSaveSuccess(d)
  {
  }

  lemma NextStays(h: Hooks, d: SessionData)
    requires Complete(d) && WorksThrough(h)
    ensures var (d1, r) := h.onSaveSuccess(d);
            && r == Next && Complete(Advanced(d1)) && Uids(Advanced(d1)) == Uids(d)
            && |d1.processs| == |Uids(d)| && d1.processIndex == d.processIndex
  {
    hide Modified;
    var d1 := h.onSaveSuccess(d).0;
    assert SameList(d, d1);
    assert Uids(Advanced(d1)) == Uids(d1);
    assert |Uids(d1)| == |d1.processs|;
  }

  lemma SecondRun(h: Hooks, runs: seq<Ran>, o: Outcome)
    requires InTurn(h, runs, o) && |runs| > 1
    ensures var (d, r) := runs[0]; r == Next && d.processIndex + 1 < |d.processs| && runs[1] == h.onQuerySuccess(Advanced(d))
  {
    hide EndsWith;
    assert GoesOn(h, runs[0], runs[1]);
  }

  lemma DropFirst(h: Hooks, runs: seq<Ran>, o: Outcome)
    requires InTurn(h, runs, o) && runs[0].1 == Next && runs[0].0.processIndex + 1 < |runs[0].0.processs|
    ensures |runs| > 1 && InTurn(h, runs[1..], o) && runs[1] == h.onQuerySuccess(Advanced(runs[0].0))
  {
    hide Answered;
    SecondRun(h, runs, o);
    RestInTurn(h, runs, o);
  }

  lemma RestInTurn(h: Hooks, runs: seq<Ran>, o: Outcome)
    requires InTurn(h, runs, o) && |runs| > 1
    ensures InTurn(h, runs[1..], o)
  {
    hide GoesOn, EndsWith;
    var rest := runs[1..];
    forall k | 0 < k < |rest|
      ensures GoesOn(h, rest[k - 1], rest[k])
    {
      assert rest[k - 1] == runs[k] && rest[k] == runs[k + 1];
    }
  }

  /** After a conflict that the session survives. */
  lemma Conflicted(o: Outcome, uids: seq<nat>, i: nat, h: Hooks, r: Response)
    requires AtUid(o, uids, i) && WorksThrough(h) && r.SaveRsp? && Reruns(h, o.data, r)
    ensures AtUid(ProcessOnce(h, o.data, r), uids, i)
  {
    hide Complete, ProcessOnce, Answered, StartsWith, Reruns;
    var d := o.data;
    var runs := OneCall(h, d, r);
    RerunComplete(h, d, r);
    ConflictReruns(h, d, r, runs[0]);
    UidProcessed(h, RerunInput(h, d, r), ProcessOnce(h, d, r), runs);
  }

  lemma ConflictReruns(h: Hooks, d: SessionData, r: Response, ran: Ran)
    requires d.state == WaitSave && r.SaveRsp? && Reruns(h, d, r) && StartsWith(h, d, r, ran)
    ensures ran == h.onQuerySuccess(RerunInput(h, d, r))
  {
    hide ParseData;
    assert d.processs[Find(d.processs, r.uid)].uid == r.uid;
  }

  lemma OneReply(o: Outcome, uids: seq<nat>, i: nat, h: Hooks, r: Response)
    requires AtUid(o, uids, i) && Continues(h, o.data, r)
    ensures var o' := ProcessOnce(h, o.data, r);
            var j := if r.result == Success then i + 1 else i;
            if j < |uids| then AtUid(o', uids, j) else o'.fate.Finished? && o'.sent == []
  {
    hide AtUid, ProcessOnce, WorksThrough, Reruns;
    Out(o, uids, i);
    if r.result == Success {
      Accepted(o, uids, i, h, r);
    } else {
      Conflicted(o, uids, i, h, r);
    }
  }

  /** Each call of `Process` brings such a reply, as long as the session is there. */
  ghost predicate Course(o: Outcome, calls: seq<(Hooks, Response)>)
    decreases |calls|
  {
    calls != [] && o.fate == Suspended ==>
      Continues(calls[0].0, o.data, calls[0].1) && Course(ProcessOnce(calls[0].0, o.data, calls[0].1), calls[1..])
  }

  function Successes(calls: seq<(Hooks, Response)>): nat
    decreases |calls|
  {
    if calls == [] then 0
    else Successes(calls[1..]) + if calls[0].1.SaveRsp? && calls[0].1.result == Success then 1 else 0
  }

  /** The requests sent by a session from `o` on. */
  ghost function AllSent(o: Outcome, calls: seq<(Hooks, Response)>): seq<Request>
    requires forall c :: c in calls ==> Terminates(c.0)
    decreases |calls|
  {
    if calls == [] || o.fate != Suspended then o.sent
    else
      assert calls[0] in calls;
      o.sent + AllSent(ProcessOnce(calls[0].0, o.data, calls[0].1), calls[1..])
  }

  /** Whatever conflicts happen on the way, the save that is out after `n` accepted ones is for
      the uid at place `n` of the list, and with the last of them accepted the session finishes. */
  lemma {:induction false} UidsInOrder(o: Outcome, uids: seq<nat>, i: nat, calls: seq<(Hooks, Response)>)
    requires AtUid(o, uids, i) && Course(o, calls) && forall c :: c in calls ==> Terminates(c.0)
    ensures var n := i + Successes(calls);
            if n < |uids| then AtUid(Serve(o, calls), uids, n) else Serve(o, calls).fate.Finished?
    decreases |calls|
  {
    hide AtUid, ProcessOnce, Continues;
    if calls != [] {
      Out(o, uids, i);
      var (h, r) := calls[0];
      assert calls[0] in calls;
      OneReply(o, uids, i, h, r);
      ReplyKind(h, o.data, r);
      var o' := ProcessOnce(h, o.data, r);
      var j := if r.result == Success then i + 1 else i;
      if j < |uids| {
        UidsInOrder(o', uids, j, calls[1..]);
      }
    } else {
      Out(o, uids, i);
    }
  }

  lemma Out(o: Outcome, uids: seq<nat>, i: nat)
    requires AtUid(o, uids, i)
    ensures o.fate == Suspended && i < |uids| && |o.sent| == 1 && o.sent[0].SaveReq? && o.sent[0].uid == uids[i]
  {
  }

  lemma ReplyKind(h: Hooks, d: SessionData, r: Response)
    requires Continues(h, d, r)
    ensures r.SaveRsp?
  {
  }

  /** Without conflicts: one save for each uid, in list order, and the last one's acceptance
      finishes the session. */
  lemma {:induction false} OneSavePerUid(o: Outcome, uids: seq<nat>, i: nat, calls: seq<(Hooks, Response)>)
    requires AtUid(o, uids, i) && Course(o, calls) && |calls| == |uids| - i
    requires forall c :: c in calls ==> Terminates(c.0) && c.1.SaveRsp? && c.1.result == Success
    ensures var sent := AllSent(o, calls);
            && |sent| == |uids| - i
            && (forall k :: 0 <= k < |sent| ==> sent[k].SaveReq? && sent[k].uid == uids[i + k])
            && Serve(o, calls).fate.Finished?
    decreases |calls|
  {
    hide AtUid, ProcessOnce, Continues;
    Out(o, uids, i);
    var (h, r) := calls[0];
    assert calls[0] in calls;
    OneReply(o, uids, i, h, r);
    var o' := ProcessOnce(h, o.data, r);
    if i + 1 < |uids| {
      OneSavePerUid(o', uids, i + 1, calls[1..]);
    } else {
      assert AllSent(o', calls[1..]) == [];
    }
  }

  /** From complete data to the end: the session whose logic starts on `x` saves once for each
      uid of its list, from the first to the last, and then it finishes. */
  lemma EveryUidIsSaved(h: Hooks, x: SessionData, o: Outcome, runs: seq<Ran>, calls: seq<(Hooks, Response)>)
    requires WorksThrough(h) && Complete(x) && x.processIndex == 0 && |calls| == |x.processs| > 0
    requires InTurn(h, runs, o) && runs[0] == h.onQuerySuccess(x) && Course(o, calls)
    requires forall c :: c in calls ==> Terminates(c.0) && c.1.SaveRsp? && c.1.result == Success
    ensures var sent := AllSent(o, calls);
            && |sent| == |x.processs|
            && (forall k :: 0 <= k < |sent| ==> sent[k].SaveReq? && sent[k].uid == x.processs[k].uid)
            && Serve(o, calls).fate.Finished?
  {
    hide InTurn, WorksThrough, Complete, Course, AtUid;
    UidProcessed(h, x, o, runs);
    OneSavePerUid(o, Uids(x), 0, calls);
  }

  // ---------------------------------------------------------------------------------------
  // Such handlers exist
  // ---------------------------------------------------------------------------------------

  predicate Ready(d: SessionData) {
    && d.processIndex < |d.processs| && d.processs[d.processIndex].keys != []
    && d.processs[d.processIndex].player.Some?
  }

  /** Empties the first key of the current uid. */
  function Cleared(d: SessionData): SessionData
    requires Ready(d)
  {
    var p := d.processs[d.processIndex];
    var player, key := p.player.value, p.keys[0];
    var entries := player.entries[key := EntryAt(player, key).(value := [], dirty := true)];
    d.(processs := d.processs[d.processIndex := p.(player := Some(player.(entries := entries)))])
  }

  function ClearAndSave(d: SessionData): Ran {
    if Ready(d) then (Cleared(d), Save) else (d, Fail)
  }

  function GoOn(d: SessionData): Ran {
    (d, Next)
  }

  function Stop(d: SessionData): Ran {
    (d, Fail)
  }

  function NoValue(key: Key): Value {
    []
  }

  lemma SuchHandlersExist()
    ensures WorksThrough(Hooks(NoValue, Stop, Stop, ClearAndSave, GoOn, Stop, Stop))
  {
    var h := Hooks(NoValue, Stop, Stop, ClearAndSave, GoOn, Stop, Stop);
    forall d | Complete(d) && d.processIndex < |d.processs|
      ensures h.onQuerySuccess(d).1 == Save && SameList(d, h.onQuerySuccess(d).0)
      ensures |h.onQuerySuccess(d).0.processs| == |d.processs| && Modified(h.onQuerySuccess(d).0)
    {
      ClearedIsModified(d);
    }
  }

  lemma ClearedIsModified(d: SessionData)
    requires Complete(d) && d.processIndex < |d.processs|
    ensures Ready(d) && SameList(d, Cleared(d)) && |Cleared(d).processs| == |d.processs| && Modified(Cleared(d))
  {
    var d', i := Cleared(d), d.processIndex;
    assert Uids(d') == Uids(d);
    assert d'.processs[i].keys[0] in d'.processs[i].keys;
    assert R.Submits(d'.processs[i].player.value.entries, d'.processs[i].keys[0]);
  }
}
