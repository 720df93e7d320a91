/** The state machine that drives a session: asynchronous query and save replies, handlers
    supplied by each message type, and redo when a save loses a race. */
module MessageHandlers {
  import opened Shared
  import opened Sessions
  import opened MessageBases

  const MAX_DB_REDO_TIME: nat := 5

  datatype HandlerResult = Done | Hup | Next | Fail | Query | Save

  /** What a message type supplies.  A handler may do anything to the session it is given;
      handlers also depend on things outside the session, so a different `Hooks` value may be
      in force at every call. */
  datatype Hooks = Hooks(
    init: Key -> Value,
    onMessage: SessionData -> (SessionData, HandlerResult),
    onServerResponse: SessionData -> (SessionData, HandlerResult),
    onQuerySuccess: SessionData -> (SessionData, HandlerResult),
    onSaveSuccess: SessionData -> (SessionData, HandlerResult),
    onQueryFailed: SessionData -> (SessionData, HandlerResult),
    onSaveFailed: SessionData -> (SessionData, HandlerResult))

  /** How a call of `Process` ends: waiting for a reply, released with its events posted, or
      released without. */
  datatype Fate = Suspended | Finished(posted: seq<Event>) | Aborted

  datatype Outcome = Outcome(data: SessionData, sent: seq<Request>, fate: Fate)

  /** `ss_rsp_query()` of a reply of another kind is all defaults, and the default result is
      success. */
  function QueryPart(r: Response): (KVResult, nat, seq<KVData>) {
    if r.QueryRsp? then (r.result, r.uid, r.datas) else (Success, 0, [])
  }

  function SavePart(r: Response): (KVResult, nat, seq<KVData>) {
    if r.SaveRsp? then (r.result, r.uid, r.datas) else (Success, 0, [])
  }

  /** Replaces everything known about one uid. */
  function SetPlayer(d: SessionData, i: int, p: Player): SessionData
    requires 0 <= i < |d.processs|
  {
    d.(processs := d.processs[i := d.processs[i].(player := Some(p))])
  }

  function QueryResponse(h: Hooks, d: SessionData, r: Response): (SessionData, HandlerResult) {
    var (result, uid, datas) := QueryPart(r);
    var entries, i := ParseData(h.init, datas), Find(d.processs, uid);
    if result != Success || entries.None? || i < 0 then h.onQueryFailed(d)
    else
      var d' := SetPlayer(d, i, Player(uid, entries.value));
      if HaveAll(d'.processs) then h.onQuerySuccess(d') else (d', Hup)
  }

  function SaveResponse(h: Hooks, d: SessionData, r: Response): (SessionData, HandlerResult) {
    var (result, uid, datas) := SavePart(r);
    match result
    case Success => h.onSaveSuccess(d)
    case Failed => h.onSaveFailed(d)
    case VerDiff =>
      var d1 := d.(redoCount := d.redoCount + 1);
      var entries, i := ParseData(h.init, datas), Find(d.processs, uid);
      if d1.redoCount >= MAX_DB_REDO_TIME || entries.None? || i < 0 then h.onSaveFailed(d1)
      else h.onQuerySuccess(SetPlayer(d1, i, Player(uid, entries.value)).(events := []))
  }

  function FirstStep(h: Hooks, d: SessionData, r: Response): (SessionData, HandlerResult) {
    match d.state
    case OnMessage => h.onMessage(d)
    case WaitResponse => h.onServerResponse(d)
    case WaitQuery => QueryResponse(h, d, r)
    case WaitSave => SaveResponse(h, d, r)
  }

  /** Uids still to process, counting the current one. */
  function Remaining(d: SessionData): int {
    |d.processs| - d.processIndex
  }

  /** A handler that asks for the next uid leaves no more of them ahead than it found. */
  ghost predicate Terminates(h: Hooks) {
    forall d :: h.onQuerySuccess(d).1 == Next ==> Remaining(h.onQuerySuccess(d).0) <= Remaining(d)
  }

  function ProcessNext(h: Hooks, d: SessionData): (SessionData, HandlerResult) {
    var d' := d.(processIndex := d.processIndex + 1);
    if d'.processIndex < |d'.processs| then h.onQuerySuccess(d') else (d', Done)
  }

  function LoopMeasure(d: SessionData, r: HandlerResult): nat {
    if r != Next then 0 else if Remaining(d) < 0 then 1 else Remaining(d) + 2
  }

  lemma NextDecreases(h: Hooks, d: SessionData)
    requires Terminates(h)
    ensures var (d', r) := ProcessNext(h, d); LoopMeasure(d', r) < LoopMeasure(d, Next)
  {
  }

  ghost function Loop(h: Hooks, d: SessionData, r: HandlerResult): Outcome
    requires Terminates(h)
    decreases LoopMeasure(d, r)
  {
    match r
    case Query =>
      var sent := Queries(d.processs);
      if sent != [] then Outcome(d.(state := WaitQuery), sent, Suspended) else Outcome(d, [], Aborted)
    case Save =>
      var (d', sent) := SaveOne(d);
      Outcome(d', sent, if sent != [] then Suspended else Aborted)
    case Next => var (d', r') := ProcessNext(h, d); Loop(h, d', r')
    case Done => Outcome(d, [], Finished(d.events))
    case Fail => Outcome(d, [], Aborted)
    case Hup => Outcome(d, [], Suspended)
  }

  ghost function ProcessOnce(h: Hooks, d: SessionData, r: Response): Outcome
    requires Terminates(h)
  {
    var (d', result) := FirstStep(h, d, r);
    Loop(h, d', result)
  }

  class MessageHandler {
    const hooks: Hooks

    constructor (hooks: Hooks)
      ensures this.hooks == hooks
    {
      this.hooks := hooks;
    }

    /** Runs handlers until the session waits for a reply or is released; it always gets there. */
    method Process(s: Session, reply: Response) returns (sent: seq<Request>, fate: Fate)
      requires Terminates(hooks)
      modifies s
      ensures Outcome(s.View(), sent, fate) == ProcessOnce(hooks, old(s.View()), reply)
    {
      hide QueryResponse, SaveResponse, ProcessNext, LoopMeasure, Queries, SaveOne, Terminates;
      var result;
      match s.state {
        case OnMessage =>
          var (d, r) := hooks.onMessage(s.View());
          s.Load(d);
          result := r;
        case WaitResponse =>
          var (d, r) := hooks.onServerResponse(s.View());
          s.Load(d);
          result := r;
        case WaitQuery => result := HandleQueryResponse(s, reply);
        case WaitSave => result := HandleSaveResponse(s, reply);
      }
      ghost var start, first := s.View(), result;
      while true
        invariant Loop(hooks, s.View(), result) == Loop(hooks, start, first)
        decreases LoopMeasure(s.View(), result)
      {
        match result {
          case Query =>
            var get;
            get, sent := SendQueryToDBProxy(s);
            return sent, if get then Suspended else Aborted;
          case Save =>
            var save;
            save, sent := SendSaveToDBProxy(s);
            return sent, if save then Suspended else Aborted;
          case Next =>
            NextDecreases(hooks, s.View());
            result := HandleNext(s);
          case Done => return [], Finished(s.events);
          case Fail => return [], Aborted;
          case Hup => return [], Suspended;
        }
      }
    }

    method HandleNext(s: Session) returns (result: HandlerResult)
      modifies s
      ensures (s.View(), result) == ProcessNext(hooks, old(s.View()))
    {
      s.processIndex := s.processIndex + 1;
      if s.processIndex < |s.processs| {
        var (d, r) := hooks.onQuerySuccess(s.View());
        s.Load(d);
        result := r;
      } else {
        result := Done;
      }
    }

    method HandleQueryResponse(s: Session, reply: Response) returns (result: HandlerResult)
      modifies s
      ensures (s.View(), result) == QueryResponse(hooks, old(s.View()), reply)
    {
      var (status, uid, datas) := QueryPart(reply);
      if status == Success {
        var entries := ParseDBData(hooks.init, datas);
        var index := s.GetDBProcessIndex(uid);
        if entries.Some? && index != -1 {
          s.processs := s.processs[index := s.processs[index].(player := Some(Player(uid, entries.value)))];
          var all := s.HaveAllDBData();
          if all {
            var (d, r) := hooks.onQuerySuccess(s.View());
            s.Load(d);
            return r;
          } else {
            return Hup;
          }
        }
      }
      var (d, r) := hooks.onQueryFailed(s.View());
      s.Load(d);
      return r;
    }

    method HandleSaveResponse(s: Session, reply: Response) returns (result: HandlerResult)
      modifies s
      ensures (s.View(), result) == SaveResponse(hooks, old(s.View()), reply)
    {
      var (status, uid, datas) := SavePart(reply);
      if status == Success {
        var (d, r) := hooks.onSaveSuccess(s.View());
        s.Load(d);
        return r;
      } else if status == VerDiff {
        s.redoCount := s.redoCount + 1;
        if s.redoCount < MAX_DB_REDO_TIME {
          var entries := ParseDBData(hooks.init, datas);
          var index := s.GetDBProcessIndex(uid);
          if entries.Some? && index != -1 {
            s.processs := s.processs[index := s.processs[index].(player := Some(Player(uid, entries.value)))];
            s.events := [];
            var (d, r) := hooks.onQuerySuccess(s.View());
            s.Load(d);
            return r;
          }
        }
      }
      var (d, r) := hooks.onSaveFailed(s.View());
      s.Load(d);
      return r;
    }
  }

  // ---------------------------------------------------------------------------------------
  // How often the logic is re-run
  // ---------------------------------------------------------------------------------------

  ghost predicate KeepsRedoCount(h: Hooks) {
    && (forall d :: h.onMessage(d).0.redoCount == d.redoCount)
    && (forall d :: h.onServerResponse(d).0.redoCount == d.redoCount)
    && (forall d :: h.onQuerySuccess(d).0.redoCount == d.redoCount)
    && (forall d :: h.onSaveSuccess(d).0.redoCount == d.redoCount)
    && (forall d :: h.onQueryFailed(d).0.redoCount == d.redoCount)
    && (forall d :: h.onSaveFailed(d).0.redoCount == d.redoCount)
  }

  /** The reply makes the handler run again on fresh data. */
  predicate Reruns(h: Hooks, d: SessionData, r: Response) {
    var (result, uid, datas) := SavePart(r);
    && d.state == WaitSave && result == VerDiff && d.redoCount + 1 < MAX_DB_REDO_TIME
    && ParseData(h.init, datas).Some? && Find(d.processs, uid) >= 0
  }

  /** The session on which the logic is run again. */
  function RerunInput(h: Hooks, d: SessionData, r: Response): SessionData
    requires Reruns(h, d, r)
  {
    SetPlayer(d.(redoCount := d.redoCount + 1), Find(d.processs, r.uid),
              Player(r.uid, ParseData(h.init, r.datas).value)).(events := [])
  }

  /** Reruns over a whole session, however many uids it covers. */
  ghost function RerunCount(d: SessionData, calls: seq<(Hooks, Response)>): nat
    requires forall c :: c in calls ==> Terminates(c.0)
    decreases |calls|
  {
    if calls == [] then 0
    else
      var (h, r) := calls[0];
      assert calls[0] in calls;
      var o := ProcessOnce(h, d, r);
      (if Reruns(h, d, r) then 1 else 0) + if o.fate == Suspended then RerunCount(o.data, calls[1..]) else 0
  }

  lemma {:induction false} LoopKeepsRedoCount(h: Hooks, d: SessionData, r: HandlerResult)
    requires Terminates(h) && KeepsRedoCount(h)
    ensures Loop(h, d, r).data.redoCount == d.redoCount
    decreases LoopMeasure(d, r)
  {
    if r == Next {
      var (d', r') := ProcessNext(h, d);
      LoopKeepsRedoCount(h, d', r');
    }
  }

  /** A session re-runs its logic at most four times in all. */
  lemma {:induction false} AtMostFourReruns(d: SessionData, calls: seq<(Hooks, Response)>)
    requires forall c :: c in calls ==> Terminates(c.0) && KeepsRedoCount(c.0)
    ensures RerunCount(d, calls) <= if d.redoCount < 4 then 4 - d.redoCount else 0
    decreases |calls|
  {
    if calls != [] {
      var (h, r) := calls[0];
      assert calls[0] in calls;
      var (d', result) := FirstStep(h, d, r);
      LoopKeepsRedoCount(h, d', result);
      AtMostFourReruns(ProcessOnce(h, d, r).data, calls[1..]);
    }
  }

  // ---------------------------------------------------------------------------------------
  // A session's life
  // ---------------------------------------------------------------------------------------

  /** Successive calls of `Process`, each with the handlers and the reply of that moment, for as
      long as the session is suspended. */
  ghost function Serve(o: Outcome, calls: seq<(Hooks, Response)>): Outcome
    requires forall c :: c in calls ==> Terminates(c.0)
    decreases |calls|
  {
    if calls == [] || o.fate != Suspended then o
    else
      assert calls[0] in calls;
      Serve(ProcessOnce(calls[0].0, o.data, calls[0].1), calls[1..])
  }

  lemma {:induction false} ServeAppend(o: Outcome, calls: seq<(Hooks, Response)>, more: seq<(Hooks, Response)>)
    requires (forall c :: c in calls ==> Terminates(c.0)) && (forall c :: c in more ==> Terminates(c.0))
    ensures Serve(o, calls + more) == Serve(Serve(o, calls), more)
    decreases |calls|
  {
    if calls == [] {
      assert calls + more == more;
    } else if o.fate == Suspended {
      assert calls[0] in calls && (calls + more)[0] == calls[0];
      ServeAppend(ProcessOnce(calls[0].0, o.data, calls[0].1), calls[1..], more);
      assert (calls + more)[1..] == calls[1..] + more;
    }
  }

  ghost function Waiting(d: SessionData): Outcome {
    Outcome(d, [], Suspended)
  }

  // ---------------------------------------------------------------------------------------
  // Which keys a parsed reply has
  // ---------------------------------------------------------------------------------------

  predicate HasInit(key: Key) {
    key in {K_BASE, K_GOLD, K_M_BASE, K_M_LIPSTICK, K_G_LIP_PRIZE}
  }

  lemma {:induction false} ParsedKeys(init: Key -> Value, datas: seq<KVData>, key: Key)
    requires ParseData(init, datas).Some?
    ensures key in ParseData(init, datas).value <==>
              exists k :: 0 <= k < |datas| && datas[k].key == key && (datas[k].value.Some? || HasInit(key))
    decreases |datas|
  {
    if datas != [] {
      var front, n := datas[..|datas| - 1], |datas| - 1;
      ParsedKeys(init, front, key);
      assert forall k :: 0 <= k < n ==> front[k] == datas[k];
      if datas[n].key == key && (datas[n].value.Some? || HasInit(key)) {
        assert key in ParseData(init, datas).value;
      } else {
        assert key in ParseData(init, datas).value <==> key in ParseData(init, front).value;
      }
    }
  }

  /** An item that gives its key an entry: it has a value, or its key has an initial one. */
  predicate Gives(data: KVData, key: Key) {
    data.key == key && (data.value.Some? || HasInit(key))
  }

  /** The last item that gives a key an entry decides which: the value and the version that the
      item has, or the initial value. */
  lemma {:induction false} LastItemWins(init: Key -> Value, datas: seq<KVData>, j: nat)
    requires ParseData(init, datas).Some? && j < |datas| && Gives(datas[j], datas[j].key)
    requires forall k :: j < k < |datas| ==> !Gives(datas[k], datas[j].key)
    ensures var d, entries := datas[j], ParseData(init, datas).value;
            && d.key in entries
            && entries[d.key] == if d.value.Some? then Entry(d.version, d.value.value, false, d.value.value)
                                 else Entry(0, init(d.key), d.key == 10 || d.key == 11, init(d.key))
    decreases |datas|
  {
    var n := |datas| - 1;
    if j < n {
      var front := datas[..n];
      assert forall k :: 0 <= k < n ==> front[k] == datas[k];
      LastItemWins(init, front, j);
      assert !Gives(datas[n], datas[j].key);
    }
  }
}
