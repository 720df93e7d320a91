/** One update from end to end: a message type that changes one key of one uid, alone and in a
    race with another session. */
module Update {
  import opened Shared
  import opened Sessions
  import opened MessageBases
  import opened MessageHandlers
  import opened KVStores
  import opened StoreProtocol
  import opened StoreResults
  import R = Redo

  /** The change that a save asks for. */
  datatype Job = Job(init: Key -> Value, uid: nat, key: Key, f: Value -> Value)

  ghost predicate JobOk(j: Job) {
    Known(j.key) && HasInit(j.key) && forall v :: |j.f(v)| <= MAX_KVDB_BUF_LEN
  }

  predicate CanModify(d: SessionData, key: Key) {
    && d.processIndex < |d.processs| && key in d.processs[d.processIndex].keys
    && d.processs[d.processIndex].player.Some? && key in d.processs[d.processIndex].player.value.entries
  }

  function Modify(d: SessionData, j: Job): SessionData
    requires CanModify(d, j.key)
  {
    var p := d.processs[d.processIndex];
    var e := p.player.value.entries[j.key];
    var player := p.player.value.(entries := p.player.value.entries[j.key := e.(value := j.f(e.value), dirty := true)]);
    d.(processs := d.processs[d.processIndex := p.(player := Some(player))])
  }

  function FailHandler(d: SessionData): (SessionData, HandlerResult) {
    (d, Fail)
  }

  function DoneHandler(d: SessionData): (SessionData, HandlerResult) {
    (d, Done)
  }

  function ModifyHandler(j: Job, d: SessionData): (SessionData, HandlerResult) {
    if CanModify(d, j.key) then (Modify(d, j), Save) else (d, Fail)
  }

  /** The message type: asks for the key, changes it, saves it, and is done. */
  function Updater(j: Job): Hooks {
    Hooks(
      j.init,
      (d: SessionData) => (d.(processs := AddKey(d.processs, j.uid, j.key)), Query),
      FailHandler,
      (d: SessionData) => ModifyHandler(j, d),
      DoneHandler, FailHandler, FailHandler)
  }

  /** What the store protocol knows about it. */
  ghost function LawOf(j: Job): Law {
    OneUpdate(j.init, j.f)
  }

  lemma UpdaterIsGood(j: Job)
    requires JobOk(j)
    ensures GoodHooks(LawOf(j), Updater(j)) && LawOk(LawOf(j))
  {
    var law, h := LawOf(j), Updater(j);
    forall d
      ensures Allowed(law, d, h.onMessage(d).0, h.onMessage(d).1)
    {
      AskingIsAllowed(j, d);
    }
    forall d
      ensures Allowed(law, d, h.onQuerySuccess(d).0, h.onQuerySuccess(d).1)
    {
      ModifyingIsAllowed(j, d);
    }
    forall d, r
      ensures Allowed(law, d, d, r)
    {
      NothingIsAllowed(j, d, r);
    }
  }

  lemma NothingIsAllowed(j: Job, d: SessionData, r: HandlerResult)
    ensures Allowed(LawOf(j), d, d, r)
  {
  }

  lemma AskingIsAllowed(j: Job, d: SessionData)
    ensures Allowed(LawOf(j), d, d.(processs := AddKey(d.processs, j.uid, j.key)), Query)
  {
    if ProcesssOk(d.processs) {
      AddKeyKeepsDistinct(d.processs, j.uid, j.key);
    }
  }

  lemma ModifyingIsAllowed(j: Job, d: SessionData)
    requires JobOk(j)
    ensures var (d', r) := ModifyHandler(j, d); Allowed(LawOf(j), d, d', r)
  {
  }

  // ---------------------------------------------------------------------------------------
  // The session, call by call
  // ---------------------------------------------------------------------------------------

  /** The session while it waits for its query. */
  function Asking(j: Job): SessionData {
    SessionData(WaitQuery, [DBProcess(j.uid, [j.key], None)], 0, 0, [], 0)
  }

  /** The session while it waits for its save: the value is submitted under version `n`. */
  function Submitted(j: Job, n: nat, v: Value, redo: nat): SessionData {
    SessionData(WaitSave, [DBProcess(j.uid, [j.key], Some(Player(j.uid, map[j.key := Entry(n, v, false, v)])))], 0, redo, [], 0)
  }

  function Item(j: Job, n: nat, v: Value): SaveItem {
    SaveItem(j.key, j.f(v), n + 1, v)
  }

  lemma FirstCall(j: Job)
    requires Terminates(Updater(j))
    ensures ProcessOnce(Updater(j), SessionData(OnMessage, [], 0, 0, [], 0), OtherRsp)
         == Outcome(Asking(j), [QueryReq(j.uid, [j.key])], Suspended)
  {
    hide AddKey, Queries;
    OneProcess(j.uid, j.key);
    var d := SessionData(OnMessage, [], 0, 0, [], 0);
    assert FirstStep(Updater(j), d, OtherRsp) == (d.(processs := Asking(j).processs), Query);
  }

  lemma OneProcess(uid: nat, key: Key)
    ensures AddKey([], uid, key) == [DBProcess(uid, [key], None)]
    ensures Queries([DBProcess(uid, [key], None)]) == [QueryReq(uid, [key])]
  {
    var ps := [DBProcess(uid, [key], None)];
    assert ps[..0] == [];
    assert Queries(ps) == Queries([]) + [QueryReq(uid, [key])];
  }

  /** The player that a reply about the key stands for. */
  function Fetched(j: Job, data: KVData): Entry {
    if data.value.Some? then Entry(data.version, data.value.value, false, data.value.value) else R.Initial(j.init, j.key)
  }

  lemma Parsed(j: Job, data: KVData)
    requires JobOk(j) && data.key == j.key
    ensures ParseData(j.init, [data]) == Some(map[j.key := Fetched(j, data)])
  {
    assert [data][..0] == [];
  }

  /** The logic runs on the value fetched and asks for the save. */
  lemma LogicRuns(j: Job, x: SessionData, e: Entry)
    requires JobOk(j) && Terminates(Updater(j))
    requires x.processs == [DBProcess(j.uid, [j.key], Some(Player(j.uid, map[j.key := e])))] && x.processIndex == 0
    requires x.events == [] && x.logicState == 0 && e.base == e.value
    ensures var (d, r) := Updater(j).onQuerySuccess(x);
            Loop(Updater(j), d, r) == Outcome(Submitted(j, e.version + 1, j.f(e.value), x.redoCount),
                                              [SaveReq(j.uid, [Item(j, e.version, e.value)])], Suspended)
  {
    var d := Modify(x, j);
    assert CanModify(x, j.key) && Updater(j).onQuerySuccess(x) == (d, Save);
    var entries := d.processs[0].player.value.entries;
    assert entries == map[j.key := Entry(e.version, j.f(e.value), true, e.value)];
    OneKeySaves(j, entries, e);
  }

  lemma OneKeySaves(j: Job, entries: map<Key, Entry>, e: Entry)
    requires JobOk(j) && entries == map[j.key := Entry(e.version, j.f(e.value), true, e.value)]
    ensures SaveKeys(entries, [j.key])
         == Saving(true, map[j.key := Entry(e.version + 1, j.f(e.value), false, j.f(e.value))], [Item(j, e.version, e.value)])
  {
    var keys := [j.key];
    assert keys[..0] == [];
    assert |j.f(e.value)| <= MAX_KVDB_BUF_LEN;
    assert SaveKeys(entries, keys) == SaveKey(SaveKeys(entries, []), j.key);
  }

  lemma QueryReplyCall(j: Job, data: KVData)
    requires JobOk(j) && Terminates(Updater(j)) && data.key == j.key
    ensures var e := Fetched(j, data);
            ProcessOnce(Updater(j), Asking(j), QueryRsp(Success, j.uid, [data]))
            == Outcome(Submitted(j, e.version + 1, j.f(e.value), 0), [SaveReq(j.uid, [Item(j, e.version, e.value)])], Suspended)
  {
    Parsed(j, data);
    var e := Fetched(j, data);
    var x := SetPlayer(Asking(j), 0, Player(j.uid, map[j.key := e]));
    assert Find(Asking(j).processs, j.uid) == 0;
    assert FirstStep(Updater(j), Asking(j), QueryRsp(Success, j.uid, [data])) == Updater(j).onQuerySuccess(x);
    LogicRuns(j, x, e);
  }

  lemma ConflictCall(j: Job, n: nat, v: Value, redo: nat, data: KVData)
    requires JobOk(j) && Terminates(Updater(j)) && data.key == j.key && redo < 4
    ensures var e := Fetched(j, data);
            ProcessOnce(Updater(j), Submitted(j, n, v, redo), SaveRsp(VerDiff, j.uid, [data]))
            == Outcome(Submitted(j, e.version + 1, j.f(e.value), redo + 1), [SaveReq(j.uid, [Item(j, e.version, e.value)])], Suspended)
  {
    Parsed(j, data);
    var e, d := Fetched(j, data), Submitted(j, n, v, redo);
    assert Find(d.processs, j.uid) == 0;
    var x := SetPlayer(d.(redoCount := redo + 1), 0, Player(j.uid, map[j.key := e])).(events := []);
    assert FirstStep(Updater(j), d, SaveRsp(VerDiff, j.uid, [data])) == Updater(j).onQuerySuccess(x);
    LogicRuns(j, x, e);
  }

  lemma AcceptedCall(j: Job, n: nat, v: Value, redo: nat)
    requires Terminates(Updater(j))
    ensures ProcessOnce(Updater(j), Submitted(j, n, v, redo), SaveRsp(Success, 0, []))
         == Outcome(Submitted(j, n, v, redo), [], Finished([]))
  {
  }

  // ---------------------------------------------------------------------------------------
  // The steps of the world
  // ---------------------------------------------------------------------------------------

  /** Ids still to be given out are not in use. */
  ghost predicate Fresh(w: World) {
    && (forall mid :: mid in w.net ==> mid < w.nextMid)
    && (forall sid :: sid in w.live ==> sid < w.nextSid)
  }

  function LocOf(j: Job): Loc {
    Loc(j.uid, j.key)
  }

  lemma LaunchOne(net: map<nat, Flight>, mid: nat, sid: nat, r: Request)
    ensures Launch(net, mid, sid, [r]) == net[mid := ToFlight(sid, r)]
  {
    assert [r][..0] == [];
  }

  lemma BeginStep(j: Job, w: World)
    requires JobOk(j) && ActionOk(LawOf(j), Begin(Updater(j)))
    ensures Step(LawOf(j), w, Begin(Updater(j)))
         == w.(live := w.live[w.nextSid := Asking(j)], net := w.net[w.nextMid := QueryOut(w.nextSid, j.uid, [j.key])],
               nextSid := w.nextSid + 1, nextMid := w.nextMid + 1)
  {
    FirstCall(j);
    LaunchOne(w.net, w.nextMid, w.nextSid, QueryReq(j.uid, [j.key]));
  }

  /** What the store now has for the key, as a session would take it. */
  function Stored(j: Job, cells: Cells): Entry {
    Fetched(j, Lookup(cells, LocOf(j)))
  }

  lemma LookupOne(cells: Cells, uid: nat, key: Key)
    ensures LookupAll(cells, uid, [key]) == [Lookup(cells, Loc(uid, key))]
  {
  }

  lemma DeliverQueryStep(j: Job, w: World, mid: nat, sid: nat, data: KVData)
    requires JobOk(j) && ActionOk(LawOf(j), Deliver(mid, Updater(j))) && data.key == j.key
    requires mid in w.net && w.net[mid] == QueryBack(sid, j.uid, QueryRsp(Success, j.uid, [data]))
    requires sid in w.live && w.live[sid] == Asking(j)
    ensures var e := Fetched(j, data);
            Step(LawOf(j), w, Deliver(mid, Updater(j)))
            == w.(live := w.live[sid := Submitted(j, e.version + 1, j.f(e.value), 0)],
                  net := (w.net - {mid})[w.nextMid := SaveOut(sid, j.uid, [Item(j, e.version, e.value)])], nextMid := w.nextMid + 1)
  {
    var e := Fetched(j, data);
    QueryReplyCall(j, data);
    LaunchOne(w.net - {mid}, w.nextMid, sid, SaveReq(j.uid, [Item(j, e.version, e.value)]));
  }

  lemma DeliverConflictStep(j: Job, w: World, mid: nat, sid: nat, n: nat, v: Value, redo: nat, items: seq<SaveItem>, data: KVData)
    requires JobOk(j) && ActionOk(LawOf(j), Deliver(mid, Updater(j))) && data.key == j.key && redo < 4
    requires mid in w.net && w.net[mid] == SaveBack(sid, j.uid, SaveRsp(VerDiff, j.uid, [data]), items)
    requires sid in w.live && w.live[sid] == Submitted(j, n, v, redo)
    ensures var e := Fetched(j, data);
            Step(LawOf(j), w, Deliver(mid, Updater(j)))
            == w.(live := w.live[sid := Submitted(j, e.version + 1, j.f(e.value), redo + 1)],
                  net := (w.net - {mid})[w.nextMid := SaveOut(sid, j.uid, [Item(j, e.version, e.value)])], nextMid := w.nextMid + 1)
  {
    var e := Fetched(j, data);
    ConflictCall(j, n, v, redo, data);
    LaunchOne(w.net - {mid}, w.nextMid, sid, SaveReq(j.uid, [Item(j, e.version, e.value)]));
  }

  lemma DeliverSuccessStep(j: Job, w: World, mid: nat, sid: nat, n: nat, v: Value, redo: nat, items: seq<SaveItem>)
    requires JobOk(j) && ActionOk(LawOf(j), Deliver(mid, Updater(j)))
    requires mid in w.net && w.net[mid] == SaveBack(sid, j.uid, SaveRsp(Success, 0, []), items)
    requires sid in w.live && w.live[sid] == Submitted(j, n, v, redo)
    ensures Step(LawOf(j), w, Deliver(mid, Updater(j))) == w.(live := w.live - {sid}, net := w.net - {mid})
  {
    AcceptedCall(j, n, v, redo);
  }

  /** The store's answer to a query for the key. */
  lemma StoreAnswers(j: Job, w: World, mid: nat, sid: nat)
    requires mid in w.net && w.net[mid] == QueryOut(sid, j.uid, [j.key])
    ensures Step(LawOf(j), w, StoreHandles(mid))
         == w.(net := w.net[mid := QueryBack(sid, j.uid, QueryRsp(Success, j.uid, [Lookup(w.cells, LocOf(j))]))])
  {
    LookupOne(w.cells, j.uid, j.key);
  }

  /** A save computed from the value now stored is accepted: the value is replaced under the next
      version, and nothing else changes. */
  lemma StoreAccepts(j: Job, w: World, mid: nat, sid: nat)
    requires var e := Stored(j, w.cells); mid in w.net && w.net[mid] == SaveOut(sid, j.uid, [Item(j, e.version, e.value)])
    ensures var e := Stored(j, w.cells);
            var w', items := Step(LawOf(j), w, StoreHandles(mid)), [Item(j, e.version, e.value)];
            w' == w.(net := w.net[mid := SaveBack(sid, j.uid, SaveRsp(Success, 0, []), items)],
                     cells := w.cells[LocOf(j) := Cell(e.version + 1, j.f(e.value))], hist := w'.hist)
  {
    var e := Stored(j, w.cells);
    var items := [Item(j, e.version, e.value)];
    assert items[..0] == [];
    assert Accepts(w.cells, j.uid, items);
    assert ApplyItems(w.cells, j.uid, items) == w.cells[LocOf(j) := Cell(e.version + 1, j.f(e.value))];
  }

  /** A save computed from an older version is refused, and answered with what is stored. */
  lemma StoreRefuses(j: Job, w: World, mid: nat, sid: nat, n: nat, v: Value)
    requires mid in w.net && w.net[mid] == SaveOut(sid, j.uid, [Item(j, n, v)]) && Stored(j, w.cells).version != n
    ensures Step(LawOf(j), w, StoreHandles(mid))
         == w.(net := w.net[mid := SaveBack(sid, j.uid, SaveRsp(VerDiff, j.uid, [Lookup(w.cells, LocOf(j))]), [Item(j, n, v)])])
  {
    var items := [Item(j, n, v)];
    assert !Accepts(w.cells, j.uid, items) by {
      assert items[0].version == n + 1;
    }
    assert ItemKeys(items) == [j.key];
    LookupOne(w.cells, j.uid, j.key);
  }

  // ---------------------------------------------------------------------------------------
  // Alone
  // ---------------------------------------------------------------------------------------

  /** The store answers request `mid`, and the answer reaches its session. */
  ghost function Exchange(j: Job, w: World, mid: nat): World
    requires GoodHooks(LawOf(j), Updater(j))
  {
    Step(LawOf(j), Step(LawOf(j), w, StoreHandles(mid)), Deliver(mid, Updater(j)))
  }

  /** The save of session `sid` is on its way, computed from version `n` with value `v`. */
  ghost predicate SaveIsOut(j: Job, w: World, mid: nat, sid: nat, n: nat, v: Value, redo: nat) {
    && mid in w.net && w.net[mid] == SaveOut(sid, j.uid, [Item(j, n, v)])
    && sid in w.live && w.live[sid] == Submitted(j, n + 1, j.f(v), redo)
  }

  /** From the answer to the query to the save. */
  lemma Fetches(j: Job, w: World, mid: nat, sid: nat)
    requires JobOk(j) && GoodHooks(LawOf(j), Updater(j)) && Fresh(w)
    requires mid in w.net && w.net[mid] == QueryOut(sid, j.uid, [j.key]) && sid in w.live && w.live[sid] == Asking(j)
    ensures var w', e := Exchange(j, w, mid), Stored(j, w.cells);
            w' == w.(live := w.live[sid := Submitted(j, e.version + 1, j.f(e.value), 0)],
                     net := (w.net - {mid})[w.nextMid := SaveOut(sid, j.uid, [Item(j, e.version, e.value)])], nextMid := w.nextMid + 1)
  {
    hide Step, GoodHooks, Fetched, Asking, Submitted, Item;
    var w1 := Step(LawOf(j), w, StoreHandles(mid));
    StoreAnswers(j, w, mid, sid);
    DeliverQueryStep(j, w1, mid, sid, Lookup(w.cells, LocOf(j)));
    assert w1.net - {mid} == w.net - {mid};
  }

  /** From a save computed from the current version to the end of the session. */
  lemma Commits(j: Job, w: World, mid: nat, sid: nat, redo: nat)
    requires JobOk(j) && GoodHooks(LawOf(j), Updater(j))
    requires SaveIsOut(j, w, mid, sid, Stored(j, w.cells).version, Stored(j, w.cells).value, redo)
    ensures var w', e := Exchange(j, w, mid), Stored(j, w.cells);
            w' == w.(live := w.live - {sid}, net := w.net - {mid}, hist := w'.hist,
                     cells := w.cells[LocOf(j) := Cell(e.version + 1, j.f(e.value))])
  {
    hide Step, GoodHooks, Fetched, Stored, Submitted, Item;
    var w1, e := Step(LawOf(j), w, StoreHandles(mid)), Stored(j, w.cells);
    StoreAccepts(j, w, mid, sid);
    DeliverSuccessStep(j, w1, mid, sid, e.version + 1, j.f(e.value), redo, [Item(j, e.version, e.value)]);
    assert w1.net - {mid} == w.net - {mid};
  }

  /** From a save computed from an older version to the next attempt. */
  lemma Conflicts(j: Job, w: World, mid: nat, sid: nat, n: nat, v: Value, redo: nat)
    requires JobOk(j) && GoodHooks(LawOf(j), Updater(j)) && redo < 4
    requires SaveIsOut(j, w, mid, sid, n, v, redo) && Stored(j, w.cells).version != n
    ensures var w', e := Exchange(j, w, mid), Stored(j, w.cells);
            w' == w.(live := w.live[sid := Submitted(j, e.version + 1, j.f(e.value), redo + 1)],
                     net := (w.net - {mid})[w.nextMid := SaveOut(sid, j.uid, [Item(j, e.version, e.value)])], nextMid := w.nextMid + 1)
  {
    hide Step, GoodHooks, Fetched, Submitted, Item;
    var w1 := Step(LawOf(j), w, StoreHandles(mid));
    StoreRefuses(j, w, mid, sid, n, v);
    DeliverConflictStep(j, w1, mid, sid, n + 1, j.f(v), redo, [Item(j, n, v)], Lookup(w.cells, LocOf(j)));
    assert w1.net - {mid} == w.net - {mid};
  }

  lemma Begins(j: Job, w: World)
    requires JobOk(j) && GoodHooks(LawOf(j), Updater(j)) && Fresh(w)
    ensures var w' := Step(LawOf(j), w, Begin(Updater(j)));
            && w' == w.(live := w.live[w.nextSid := Asking(j)], net := w.net[w.nextMid := QueryOut(w.nextSid, j.uid, [j.key])],
                        nextSid := w.nextSid + 1, nextMid := w.nextMid + 1)
            && Fresh(w') && w.nextSid !in w.live && w.nextMid !in w.net
  {
    hide Step, GoodHooks, Asking;
    BeginStep(j, w);
  }

  /** In any world, the message gets a session, the store answers its query and accepts its save,
      and the session ends: the stored value is `f` of what it was, under the next version, every
      other key is as it was, and nothing is left in flight. */
  lemma UpdateIsStored(j: Job, w: World)
    requires JobOk(j) && Fresh(w)
    ensures GoodHooks(LawOf(j), Updater(j))
    ensures var m, e := w.nextMid, Stored(j, w.cells);
            var w' := Exchange(j, Exchange(j, Step(LawOf(j), w, Begin(Updater(j))), m), m + 1);
            && w'.cells == w.cells[LocOf(j) := Cell(e.version + 1, j.f(e.value))]
            && w'.live == w.live && w'.net == w.net
  {
    hide Step, Exchange, GoodHooks, Stored, Asking, Submitted, Item;
    UpdaterIsGood(j);
    var m, sid := w.nextMid, w.nextSid;
    var w1 := Step(LawOf(j), w, Begin(Updater(j)));
    Begins(j, w);
    var w2 := Exchange(j, w1, m);
    Fetches(j, w1, m, sid);
    assert w1.net - {m} == w.net;
    Commits(j, w2, m + 1, sid, 0);
    assert w2.net - {m + 1} == w.net && w2.live - {sid} == w.live;
  }

  // ---------------------------------------------------------------------------------------
  // In a race
  // ---------------------------------------------------------------------------------------

  lemma NetWhileFetching<T>(net: map<nat, T>, m: nat, a: T, b: T, c: T, d: T)
    requires forall k :: k in net ==> k < m
    ensures ((net[m := a][m + 1 := b] - {m})[m + 2 := c] - {m + 1})[m + 3 := d] == net[m + 2 := c][m + 3 := d]
  {
  }

  lemma NetWhileSaving<T>(net: map<nat, T>, m: nat, a: T, b: T, c: T)
    requires forall k :: k in net ==> k < m
    ensures ((net[m := a][m + 1 := b] - {m}) - {m + 1})[m + 2 := c] - {m + 2} == net
  {
  }

  lemma LiveWhileFetching<T>(live: map<nat, T>, s: nat, a: T, b: T)
    ensures live[s := a][s + 1 := a][s := b][s + 1 := b] == live[s := b][s + 1 := b]
  {
  }

  lemma LiveWhileSaving<T>(live: map<nat, T>, s: nat, a: T, b: T)
    requires forall k :: k in live ==> k < s
    ensures (live[s := a][s + 1 := a] - {s})[s + 1 := b] - {s + 1} == live
  {
  }

  /** The save of a session that fetched version `n` with value `v`. */
  function Out(j: Job, sid: nat, n: nat, v: Value): Flight {
    SaveOut(sid, j.uid, [Item(j, n, v)])
  }

  /** Two sessions have fetched version `n` with value `v`, and both saves are on their way. */
  ghost predicate BothOut(j: Job, w: World, w': World, n: nat, v: Value) {
    var m, sid := w.nextMid, w.nextSid;
    && w'.cells == w.cells && w'.nextMid == m + 4
    && w'.live == w.live[sid := Submitted(j, n + 1, j.f(v), 0)][sid + 1 := Submitted(j, n + 1, j.f(v), 0)]
    && w'.net == w.net[m + 2 := Out(j, sid, n, v)][m + 3 := Out(j, sid + 1, n, v)]
  }

  lemma BothBegin(j: Job, w: World)
    requires JobOk(j) && GoodHooks(LawOf(j), Updater(j)) && Fresh(w)
    ensures var m, sid, w2 := w.nextMid, w.nextSid, Step(LawOf(j), Step(LawOf(j), w, Begin(Updater(j))), Begin(Updater(j)));
            && Fresh(w2)
            && w2 == w.(live := w.live[sid := Asking(j)][sid + 1 := Asking(j)], nextSid := sid + 2, nextMid := m + 2,
                        net := w.net[m := QueryOut(sid, j.uid, [j.key])][m + 1 := QueryOut(sid + 1, j.uid, [j.key])])
  {
    hide Step, GoodHooks, Asking, Fresh;
    Begins(j, w);
    Begins(j, Step(LawOf(j), w, Begin(Updater(j))));
  }

  lemma FreshIs(w: World)
    requires Fresh(w)
    ensures (forall mid :: mid in w.net ==> mid < w.nextMid) && (forall sid :: sid in w.live ==> sid < w.nextSid)
  {
  }

  lemma StaysFresh(w: World, w': World, mid: nat, sid: nat)
    requires Fresh(w) && sid in w.live && w'.nextSid == w.nextSid && w'.nextMid == w.nextMid + 1
    requires sid in w'.live && w'.live == w.live[sid := w'.live[sid]]
    requires w.nextMid in w'.net && w'.net == (w.net - {mid})[w.nextMid := w'.net[w.nextMid]]
    ensures Fresh(w')
  {
  }

  lemma BothFetch(j: Job, w: World)
    requires JobOk(j) && GoodHooks(LawOf(j), Updater(j)) && Fresh(w)
    ensures var m, e := w.nextMid, Stored(j, w.cells);
            var begun := Step(LawOf(j), Step(LawOf(j), w, Begin(Updater(j))), Begin(Updater(j)));
            BothOut(j, w, Exchange(j, Exchange(j, begun, m), m + 1), e.version, e.value)
  {
    hide Step, Exchange, GoodHooks, Stored, Asking, Submitted, Item, Fresh;
    var m, sid, e := w.nextMid, w.nextSid, Stored(j, w.cells);
    var w2 := Step(LawOf(j), Step(LawOf(j), w, Begin(Updater(j))), Begin(Updater(j)));
    BothBegin(j, w);
    FreshIs(w);
    Fetches(j, w2, m, sid);
    StaysFresh(w2, Exchange(j, w2, m), m, sid);
    Fetches(j, Exchange(j, w2, m), m + 1, sid + 1);
    NetWhileFetching(w.net, m, QueryOut(sid, j.uid, [j.key]), QueryOut(sid + 1, j.uid, [j.key]),
                     Out(j, sid, e.version, e.value), Out(j, sid + 1, e.version, e.value));
    LiveWhileFetching(w.live, sid, Asking(j), Submitted(j, e.version + 1, j.f(e.value), 0));
  }

  /** The first save is accepted, the second refused. */
  ghost predicate SecondOut(j: Job, w: World, w': World, n: nat, v: Value) {
    var m, sid := w.nextMid, w.nextSid;
    && w'.cells == w.cells[LocOf(j) := Cell(n + 1, j.f(v))] && w'.nextMid == m + 5
    && w'.live == (w.live[sid := Submitted(j, n + 1, j.f(v), 0)][sid + 1 := Submitted(j, n + 1, j.f(v), 0)] - {sid})
                  [sid + 1 := Submitted(j, n + 2, j.f(j.f(v)), 1)]
    && w'.net == (w.net[m + 2 := Out(j, sid, n, v)][m + 3 := Out(j, sid + 1, n, v)] - {m + 2} - {m + 3})
                 [m + 4 := Out(j, sid + 1, n + 1, j.f(v))]
  }

  lemma StoredIs(j: Job, cells: Cells, n: nat, v: Value)
    ensures Stored(j, cells[LocOf(j) := Cell(n, v)]) == Entry(n, v, false, v)
  {
  }

  lemma OneWins(j: Job, w: World, fetched: World)
    requires JobOk(j) && GoodHooks(LawOf(j), Updater(j)) && Fresh(w)
    requires BothOut(j, w, fetched, Stored(j, w.cells).version, Stored(j, w.cells).value)
    ensures var m, e := w.nextMid, Stored(j, w.cells);
            SecondOut(j, w, Exchange(j, Exchange(j, fetched, m + 2), m + 3), e.version, e.value)
  {
    hide Step, Exchange, GoodHooks, Stored, Submitted, Item, SaveIsOut, Fresh;
    var m, sid, e := w.nextMid, w.nextSid, Stored(j, w.cells);
    var w1 := Exchange(j, fetched, m + 2);
    SavesAreOut(j, w, fetched, e.version, e.value);
    Commits(j, fetched, m + 2, sid, 0);
    OtherStillOut(j, fetched, w1, m + 2, sid, e.version, e.value);
    StoredIs(j, w.cells, e.version + 1, j.f(e.value));
    Conflicts(j, w1, m + 3, sid + 1, e.version, e.value, 0);
  }

  lemma SavesAreOut(j: Job, w: World, fetched: World, n: nat, v: Value)
    requires BothOut(j, w, fetched, n, v)
    ensures SaveIsOut(j, fetched, w.nextMid + 2, w.nextSid, n, v, 0)
    ensures SaveIsOut(j, fetched, w.nextMid + 3, w.nextSid + 1, n, v, 0)
  {
    hide Submitted, Item;
  }

  lemma OtherStillOut(j: Job, w: World, w': World, m: nat, sid: nat, n: nat, v: Value)
    requires SaveIsOut(j, w, m + 1, sid + 1, n, v, 0) && w'.live == w.live - {sid} && w'.net == w.net - {m}
    ensures SaveIsOut(j, w', m + 1, sid + 1, n, v, 0)
  {
    hide Submitted, Item;
  }

  lemma SecondIsOut(j: Job, w: World, w1: World, n: nat, v: Value)
    requires SecondOut(j, w, w1, n, v)
    ensures SaveIsOut(j, w1, w.nextMid + 4, w.nextSid + 1, n + 1, j.f(v), 1)
  {
    hide Submitted, Item;
  }

  lemma NothingLeft(j: Job, w: World, w1: World, n: nat, v: Value)
    requires Fresh(w) && SecondOut(j, w, w1, n, v)
    ensures w1.live - {w.nextSid + 1} == w.live && w1.net - {w.nextMid + 4} == w.net
  {
    hide Submitted, Out;
    var m, sid := w.nextMid, w.nextSid;
    NetWhileSaving(w.net, m + 2, Out(j, sid, n, v), Out(j, sid + 1, n, v), Out(j, sid + 1, n + 1, j.f(v)));
    LiveWhileSaving(w.live, sid, Submitted(j, n + 1, j.f(v), 0), Submitted(j, n + 2, j.f(j.f(v)), 1));
  }

  lemma SecondCells(j: Job, w: World, w1: World, n: nat, v: Value)
    requires SecondOut(j, w, w1, n, v)
    ensures Stored(j, w1.cells) == Entry(n + 1, j.f(v), false, j.f(v))
    ensures w1.cells[LocOf(j) := Cell(n + 2, j.f(j.f(v)))] == w.cells[LocOf(j) := Cell(n + 2, j.f(j.f(v)))]
  {
    StoredIs(j, w.cells, n + 1, j.f(v));
  }

  lemma SecondWins(j: Job, w: World, w1: World)
    requires JobOk(j) && GoodHooks(LawOf(j), Updater(j)) && Fresh(w)
    requires SecondOut(j, w, w1, Stored(j, w.cells).version, Stored(j, w.cells).value)
    ensures var e, w' := Stored(j, w.cells), Exchange(j, w1, w.nextMid + 4);
            && w'.cells == w.cells[LocOf(j) := Cell(e.version + 2, j.f(j.f(e.value)))]
            && w'.live == w.live && w'.net == w.net
  {
    hide Exchange, GoodHooks, Stored, SecondOut, SaveIsOut, Fresh;
    var e := Stored(j, w.cells);
    SecondIsOut(j, w, w1, e.version, e.value);
    SecondCells(j, w, w1, e.version, e.value);
    NothingLeft(j, w, w1, e.version, e.value);
    Commits(j, w1, w.nextMid + 4, w.nextSid + 1, 1);
  }

  /** Two sessions fetch the same version and both save.  The first save is accepted; the second
      is refused, its logic runs again on what the first one stored, and its next save is
      accepted: `f` was applied twice, and neither update is lost. */
  lemma BothUpdatesAreStored(j: Job, w: World)
    requires JobOk(j) && Fresh(w)
    ensures GoodHooks(LawOf(j), Updater(j))
    ensures var m, e := w.nextMid, Stored(j, w.cells);
            var begun := Step(LawOf(j), Step(LawOf(j), w, Begin(Updater(j))), Begin(Updater(j)));
            var fetched := Exchange(j, Exchange(j, begun, m), m + 1);
            var w' := Exchange(j, Exchange(j, Exchange(j, fetched, m + 2), m + 3), m + 4);
            && w'.cells == w.cells[LocOf(j) := Cell(e.version + 2, j.f(j.f(e.value)))]
            && w'.live == w.live && w'.net == w.net
  {
    hide Step, Exchange, GoodHooks, BothOut, SecondOut, Stored;
    UpdaterIsGood(j);
    BothFetch(j, w);
    var begun := Step(LawOf(j), Step(LawOf(j), w, Begin(Updater(j))), Begin(Updater(j)));
    var fetched := Exchange(j, Exchange(j, begun, w.nextMid), w.nextMid + 1);
    OneWins(j, w, fetched);
    SecondWins(j, w, Exchange(j, Exchange(j, fetched, w.nextMid + 2), w.nextMid + 3));
  }

  // ---------------------------------------------------------------------------------------
  // Several keys in one save
  // ---------------------------------------------------------------------------------------

  /** The version that the store has for a key; a key that was never stored has version 0. */
  function StoredVersion(cells: Cells, loc: Loc): nat {
    if loc in cells then cells[loc].version else 0
  }

  /** A player's data is saved under a store with contents `cells`. */
  ghost predicate SavedOrRefused(player: Player, keys: seq<Key>, items: seq<SaveItem>, cells: Cells) {
    var current := forall k :: k in keys && R.Submits(player.entries, k) ==>
                     player.entries[k].version == StoredVersion(cells, Loc(player.uid, k));
    if current then
      var cells' := ApplyItems(cells, player.uid, items);
      && SaveReply(cells, player.uid, items) == SaveRsp(Success, 0, [])
      && (forall k :: k in keys && R.Submits(player.entries, k) ==>
            var loc := Loc(player.uid, k);
            loc in cells' && cells'[loc] == Cell(player.entries[k].version + 1, player.entries[k].value))
      && (forall loc: Loc :: !(loc.uid == player.uid && loc.key in keys && R.Submits(player.entries, loc.key)) ==>
            (loc in cells' <==> loc in cells) && (loc in cells ==> cells'[loc] == cells[loc]))
    else SaveReply(cells, player.uid, items) == SaveRsp(VerDiff, player.uid, LookupAll(cells, player.uid, ItemKeys(items)))
  }

  lemma AcceptedIff(entries: map<Key, Entry>, uid: nat, keys: seq<Key>, items: seq<SaveItem>, cells: Cells)
    requires R.ItemsAre(entries, keys, items)
    ensures Accepts(cells, uid, items)
       <==> forall k :: k in keys && R.Submits(entries, k) ==> entries[k].version == StoredVersion(cells, Loc(uid, k))
  {
    forall j | 0 <= j < |items|
      ensures items[j].key in keys && R.Submits(entries, items[j].key) && items[j].version == entries[items[j].key].version + 1
    {
      assert ItemKeys(items)[j] in ItemKeys(items);
    }
    if Accepts(cells, uid, items) {
      forall k | k in keys && R.Submits(entries, k)
        ensures entries[k].version == StoredVersion(cells, Loc(uid, k))
      {
        assert k in ItemKeys(items);
        var j :| 0 <= j < |items| && ItemKeys(items)[j] == k;
      }
    }
  }

  /** A save is accepted if and only if every modified key still has, in the store, the version
      that the session holds; then all of them get their new values and nothing else changes. */
  lemma SaveIsAcceptedIff(player: Player, keys: seq<Key>, cells: Cells)
    requires SaveKeys(player.entries, keys).known
    ensures SavedOrRefused(player, keys, SaveKeys(player.entries, keys).items, cells)
  {
    hide SaveKeys, Accepts, ApplyItems, R.ItemsAre;
    var items := SaveKeys(player.entries, keys).items;
    R.SubmittedKeys(player.entries, keys);
    AcceptedIff(player.entries, player.uid, keys, items, cells);
    Applied(player, keys, items, cells);
  }

  lemma Applied(player: Player, keys: seq<Key>, items: seq<SaveItem>, cells: Cells)
    requires R.ItemsAre(player.entries, keys, items)
    ensures var cells' := ApplyItems(cells, player.uid, items);
            && (forall k :: k in keys && R.Submits(player.entries, k) ==>
                  var loc := Loc(player.uid, k);
                  loc in cells' && cells'[loc] == Cell(player.entries[k].version + 1, player.entries[k].value))
            && (forall loc: Loc :: !(loc.uid == player.uid && loc.key in keys && R.Submits(player.entries, loc.key)) ==>
                  (loc in cells' <==> loc in cells) && (loc in cells ==> cells'[loc] == cells[loc]))
  {
    hide ApplyItems;
    AcceptIs(cells, map[], 0, player.uid, items);
    forall k | k in keys && R.Submits(player.entries, k)
      ensures exists j :: 0 <= j < |items| && items[j] == R.ItemFor(player.entries, k)
    {
      assert k in ItemKeys(items);
      var j :| 0 <= j < |items| && ItemKeys(items)[j] == k;
      assert items[j] == R.ItemFor(player.entries, k);
    }
  }

  /** What was fetched from a store and then changed is accepted by that store. */
  lemma {:induction false} FetchedIsCurrent(init: Key -> Value, cells: Cells, uid: nat, fetched: seq<Key>, player: Player, keys: seq<Key>)
    requires ParseData(init, LookupAll(cells, uid, fetched)).Some? && player.uid == uid && SaveKeys(player.entries, keys).known
    requires var before := ParseData(init, LookupAll(cells, uid, fetched)).value;
             forall k :: k in player.entries ==> k in before && player.entries[k].version == before[k].version
    ensures SaveReply(cells, uid, SaveKeys(player.entries, keys).items) == SaveRsp(Success, 0, [])
  {
    hide SaveKeys, ParseData;
    forall k | k in player.entries
      ensures player.entries[k].version == StoredVersion(cells, Loc(uid, k))
    {
      R.ParsedLookup(init, cells, uid, fetched, k);
    }
    SaveIsAcceptedIff(player, keys, cells);
  }
}
