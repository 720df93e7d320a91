/** What one call of `Process` does, said without its loop: which handler runs in each state,
    what becomes of each answer, which queries and saves go out, and which uid comes next. */
module Dispatch {
  import opened Shared
  import opened Sessions
  import opened MessageBases
  import opened MessageHandlers
  import opened KVStores
  import A = Arrival
  import R = Redo

  // ---------------------------------------------------------------------------------------
  // The requests
  // ---------------------------------------------------------------------------------------

  /** `missing` lists, in order, the processes without data. */
  ghost predicate MissingAre(processs: seq<DBProcess>, missing: seq<nat>) {
    && (forall a, b :: 0 <= a < b < |missing| ==> missing[a] < missing[b])
    && (forall i: nat :: i in missing <==> i < |processs| && processs[i].player.None?)
  }

  /** One request for each process in `missing`, with its uid and all its keys. */
  ghost predicate Asks(processs: seq<DBProcess>, missing: seq<nat>, sent: seq<Request>) {
    && |sent| == |missing|
    && forall j :: 0 <= j < |missing| && missing[j] < |processs| ==>
         sent[j] == QueryReq(processs[missing[j]].uid, processs[missing[j]].keys)
  }

  /** Each process without data is asked for exactly once, under its uid and with all its keys,
      in list order, and nothing else is asked for. */
  lemma {:induction false} QueriesExact(processs: seq<DBProcess>) returns (missing: seq<nat>)
    ensures MissingAre(processs, missing) && Asks(processs, missing, Queries(processs))
    decreases |processs|
  {
    if processs == [] {
      missing := [];
    } else {
      var front, p := processs[..|processs| - 1], processs[|processs| - 1];
      missing := QueriesExact(front);
      assert processs == front + [p];
      OneMoreProcess(front, p, missing, Queries(front));
      missing := if p.player.None? then missing + [|front|] else missing;
    }
  }

  lemma OneMoreProcess(front: seq<DBProcess>, p: DBProcess, missing: seq<nat>, sent: seq<Request>)
    requires MissingAre(front, missing) && Asks(front, missing, sent)
    ensures var after := if p.player.None? then missing + [|front|] else missing;
            MissingAre(front + [p], after)
            && Asks(front + [p], after, sent + if p.player.Some? then [] else [QueryReq(p.uid, p.keys)])
  {
    hide MissingAre;
    MissingSnoc(front, p, missing);
    MissingBelow(front, missing);
  }

  lemma MissingBelow(processs: seq<DBProcess>, missing: seq<nat>)
    requires MissingAre(processs, missing)
    ensures forall a :: 0 <= a < |missing| ==> missing[a] < |processs|
  {
    assert forall a :: 0 <= a < |missing| ==> missing[a] in missing;
  }

  lemma MissingSnoc(front: seq<DBProcess>, p: DBProcess, missing: seq<nat>)
    requires MissingAre(front, missing)
    ensures MissingAre(front + [p], if p.player.None? then missing + [|front|] else missing)
  {
    var processs := front + [p];
    var after := if p.player.None? then missing + [|front|] else missing;
    MissingBelow(front, missing);
    forall i: nat
      ensures i in after <==> i < |processs| && processs[i].player.None?
    {
      assert i in after <==> i in missing || (i == |front| && p.player.None?);
    }
  }

  /** What `SendSaveToDBProxy` does: if all keys of the current process are known and one of them
      at least was modified and is not too long, one save goes out with exactly those keys. */
  ghost predicate Saves(d: SessionData, d': SessionData, sent: seq<Request>) {
    if d.processIndex >= |d.processs| then sent == [] && d' == d
    else
      var process, after := d.processs[d.processIndex], SaveKeys(CurrentPlayer(d.processs[d.processIndex]).entries, d.processs[d.processIndex].keys);
      var player := CurrentPlayer(process);
      var d1 := d.(processs := d.processs[d.processIndex := process.(player := Some(player.(entries := after.entries)))]);
      if !(forall k :: k in process.keys ==> Known(k)) then sent == [] && d' == d1
      else
        && R.SavedSoFar(player.entries, process.keys, after)
        && if exists k :: k in process.keys && R.Submits(player.entries, k)
           then sent == [SaveReq(player.uid, after.items)] && d' == d1.(state := WaitSave)
           else sent == [] && d' == d1
  }

  lemma {:induction false} KnownIff(entries: map<Key, Entry>, keys: seq<Key>)
    ensures SaveKeys(entries, keys).known <==> forall k :: k in keys ==> Known(k)
    decreases |keys|
  {
    if keys != [] {
      var front, key := keys[..|keys| - 1], keys[|keys| - 1];
      KnownIff(entries, front);
      assert keys == front + [key];
    }
  }

  lemma SaveExact(d: SessionData)
    ensures Saves(d, SaveOne(d).0, SaveOne(d).1)
  {
    if d.processIndex < |d.processs| {
      var process := d.processs[d.processIndex];
      var player := CurrentPlayer(process);
      var sv := SaveKeys(player.entries, process.keys);
      KnownIff(player.entries, process.keys);
      if sv.known {
        R.SubmittedKeys(player.entries, process.keys);
        if sv.items == [] {
          assert ItemKeys(sv.items) == [];
        } else {
          assert ItemKeys(sv.items)[0] in ItemKeys(sv.items);
        }
      }
    }
  }

  // ---------------------------------------------------------------------------------------
  // One call
  // ---------------------------------------------------------------------------------------

  /** What becomes of an answer other than `Next` that left the session as `d`. */
  ghost predicate Answered(d: SessionData, r: HandlerResult, o: Outcome) {
    match r
    case Done => o == Outcome(d, [], Finished(d.events))
    case Fail => o == Outcome(d, [], Aborted)
    case Hup => o == Outcome(d, [], Suspended)
    case Query =>
      (exists missing :: MissingAre(d.processs, missing) && Asks(d.processs, missing, o.sent))
      && (if HaveAll(d.processs) then o == Outcome(d, [], Aborted) else o == Outcome(d.(state := WaitQuery), o.sent, Suspended))
    case Save => Saves(d, o.data, o.sent) && o.fate == if o.sent == [] then Aborted else Suspended
    case Next => false
  }

  lemma AnsweredOnce(h: Hooks, d: SessionData, r: HandlerResult)
    requires Terminates(h) && r != Next
    ensures Answered(d, r, Loop(h, d, r))
  {
    hide SaveOne, Saves;
    if r == Query {
      var missing := QueriesExact(d.processs);
      var sent := Queries(d.processs);
      if sent == [] {
        assert forall i: nat :: i < |d.processs| ==> i !in missing;
      } else {
        assert missing[0] in missing;
      }
    } else if r == Save {
      SaveExact(d);
    }
  }

  /** A handler run: the session it left, and its answer. */
  type Ran = (SessionData, HandlerResult)

  /** The next uid's turn. */
  function Advanced(d: SessionData): SessionData {
    d.(processIndex := d.processIndex + 1)
  }

  /** After the answer `Next`, `onQuerySuccess` runs for the process one further. */
  ghost predicate GoesOn(h: Hooks, ran: Ran, next: Ran) {
    var (d, r) := ran;
    r == Next && d.processIndex + 1 < |d.processs| && next == h.onQuerySuccess(Advanced(d))
  }

  /** The last run: there is no further process, or it gave another answer. */
  ghost predicate EndsWith(ran: Ran, o: Outcome) {
    var (d, r) := ran;
    if r == Next then d.processIndex + 1 >= |d.processs| && o == Outcome(Advanced(d), [], Finished(d.events))
    else Answered(d, r, o)
  }

  /** The handler runs of one call. */
  ghost predicate InTurn(h: Hooks, runs: seq<Ran>, o: Outcome) {
    && runs != []
    && (forall k :: 0 < k < |runs| ==> GoesOn(h, runs[k - 1], runs[k]))
    && EndsWith(runs[|runs| - 1], o)
  }

  lemma {:induction false} LoopInTurn(h: Hooks, d: SessionData, r: HandlerResult) returns (runs: seq<Ran>)
    requires Terminates(h)
    ensures InTurn(h, runs, Loop(h, d, r)) && runs[0] == (d, r)
    decreases LoopMeasure(d, r)
  {
    hide Answered;
    runs := [(d, r)];
    if r != Next {
      AnsweredOnce(h, d, r);
    } else if d.processIndex + 1 < |d.processs| {
      var (d', r') := h.onQuerySuccess(Advanced(d));
      NextDecreases(h, d);
      var more := LoopInTurn(h, d', r');
      RunBefore(h, (d, r), more, Loop(h, d', r'));
      runs := [(d, r)] + more;
    }
  }

  lemma RunBefore(h: Hooks, ran: Ran, more: seq<Ran>, o: Outcome)
    requires InTurn(h, more, o) && GoesOn(h, ran, more[0])
    ensures InTurn(h, [ran] + more, o)
  {
    hide GoesOn, EndsWith;
    var runs := [ran] + more;
    forall k | 0 < k < |runs|
      ensures GoesOn(h, runs[k - 1], runs[k])
    {
      if k > 1 {
        assert runs[k - 1] == more[k - 2] && runs[k] == more[k - 1];
      }
    }
  }

  /** The handler that a call starts with: by the state of the session, and while it waits, by
      the reply.  A reply of another kind reads as an empty success. */
  ghost predicate StartsWith(h: Hooks, d: SessionData, reply: Response, ran: Ran) {
    match d.state
    case OnMessage => ran == h.onMessage(d)
    case WaitResponse => ran == h.onServerResponse(d)
    case WaitQuery =>
      var query := if reply.QueryRsp? then reply else QueryRsp(Success, 0, []);
      if A.Usable(h.init, d.processs, query) then
        var x := d.(processs := A.Arrive(h.init, d.processs, query));
        ran == if HaveAll(x.processs) then h.onQuerySuccess(x) else (x, Hup)
      else ran == h.onQueryFailed(d)
    case WaitSave =>
      var save := if reply.SaveRsp? then reply else SaveRsp(Success, 0, []);
      match save.result
      case Success => ran == h.onSaveSuccess(d)
      case Failed => ran == h.onSaveFailed(d)
      case VerDiff =>
        if d.redoCount < 4 && ParseData(h.init, save.datas).Some? && exists i :: 0 <= i < |d.processs| && d.processs[i].uid == save.uid
        then ran == h.onQuerySuccess(RerunInput(h, d, save))
        else ran == h.onSaveFailed(d.(redoCount := d.redoCount + 1))
  }

  /** One call of `Process`: the state and the reply choose the first handler, each `Next` goes
      on with the next uid, and the last answer decides what is sent and how the call ends. */
  lemma OneCall(h: Hooks, d: SessionData, reply: Response) returns (runs: seq<Ran>)
    requires Terminates(h)
    ensures InTurn(h, runs, ProcessOnce(h, d, reply)) && StartsWith(h, d, reply, runs[0])
  {
    hide InTurn, Loop;
    var (d', r) := FirstStep(h, d, reply);
    runs := LoopInTurn(h, d', r);
    FirstHandler(h, d, reply);
  }

  lemma FirstHandler(h: Hooks, d: SessionData, reply: Response)
    ensures StartsWith(h, d, reply, FirstStep(h, d, reply))
  {
    var query := if reply.QueryRsp? then reply else QueryRsp(Success, 0, []);
    assert A.Usable(h.init, d.processs, query) <==>
      query.result == Success && ParseData(h.init, query.datas).Some? && Find(d.processs, query.uid) >= 0;
  }

  /** A save accepted, and the handler goes on: `onQuerySuccess` runs on the session with the
      index one further if there is such a process, and otherwise the session finishes. */
  lemma NextUid(h: Hooks, d: SessionData, reply: Response)
    requires Terminates(h) && d.state == WaitSave && reply.SaveRsp? && reply.result == Success
    requires h.onSaveSuccess(d).1 == Next
    ensures var d1 := h.onSaveSuccess(d).0;
            var x := d1.(processIndex := d1.processIndex + 1);
            if x.processIndex < |x.processs| then
              h.onQuerySuccess(x).1 != Next ==> Answered(h.onQuerySuccess(x).0, h.onQuerySuccess(x).1, ProcessOnce(h, d, reply))
            else ProcessOnce(h, d, reply) == Outcome(x, [], Finished(x.events))
  {
    hide Answered;
    var runs := OneCall(h, d, reply);
    if |runs| > 1 {
      assert GoesOn(h, runs[0], runs[1]);
      if |runs| > 2 {
        assert GoesOn(h, runs[1], runs[2]);
      }
    }
  }
}
