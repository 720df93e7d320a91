/** Any number of sessions and one store, with messages in flight between them: requests and
    replies may be delayed, reordered and lost, and sessions may expire while their requests
    are still on the way. */
module StoreProtocol {
  import opened Shared
  import opened Sessions
  import opened MessageBases
  import opened MessageHandlers
  import opened KVStores

  /** What is known about the handlers: the initial values, and two relations between the value
      a sub-message was loaded with and the value a handler leaves in it.  `rest` holds whenever
      a handler stops without asking for a save, `made` between a submitted value and the one it
      was computed from. */
  datatype Law = Law(init: Key -> Value, rest: (Key, Value, Value) -> bool, made: (Key, Value, Value) -> bool)

  ghost predicate LawOk(law: Law) {
    (forall k, v :: law.rest(k, v, v)) && (forall k, a, b :: law.rest(k, a, b) ==> law.made(k, a, b))
  }

  datatype Flight =
    | QueryOut(sid: nat, uid: nat, keys: seq<Key>)
    | QueryBack(sid: nat, uid: nat, reply: Response)
    | SaveOut(sid: nat, uid: nat, items: seq<SaveItem>)
    | SaveBack(sid: nat, uid: nat, reply: Response, items: seq<SaveItem>)

  /** One key of an accepted save: the message that brought it, the value it was computed from,
      and the value it stored. */
  datatype Write = Write(mid: nat, basis: Value, value: Value)

  type History = map<Loc, seq<Write>>

  /** `cells` is the store, `live` the sessions of all servers, `net` what is in flight.  No
      process reads `hist`: every write ever accepted, per uid and key, in order. */
  datatype World = World(
    cells: Cells, hist: History,
    live: map<nat, SessionData>, net: map<nat, Flight>, nextSid: nat, nextMid: nat)

  datatype Action =
    | Begin(h: Hooks)              // a message arrives and gets a session
    | StoreHandles(mid: nat)       // the store answers a request
    | Deliver(mid: nat, h: Hooks)  // a reply reaches its session, if that still exists
    | ServerReplies(sid: nat, h: Hooks)
    | Lose(mid: nat)
    | Expire(sid: nat)

  const INIT: World := World(map[], map[], map[], map[], 0, 0)

  function HistAt(hist: History, loc: Loc): seq<Write> {
    if loc in hist then hist[loc] else []
  }

  function AppendItems(hist: History, mid: nat, uid: nat, items: seq<SaveItem>): History {
    if items == [] then hist
    else
      var it := items[|items| - 1];
      var h := AppendItems(hist, mid, uid, items[..|items| - 1]);
      h[Loc(uid, it.key) := HistAt(h, Loc(uid, it.key)) + [Write(mid, it.basis, it.value)]]
  }

  function ToFlight(sid: nat, r: Request): Flight {
    match r
    case QueryReq(uid, keys) => QueryOut(sid, uid, keys)
    case SaveReq(uid, items) => SaveOut(sid, uid, items)
  }

  function Launch(net: map<nat, Flight>, nextMid: nat, sid: nat, sent: seq<Request>): map<nat, Flight> {
    if sent == [] then net
    else Launch(net, nextMid, sid, sent[..|sent| - 1])[nextMid + |sent| - 1 := ToFlight(sid, sent[|sent| - 1])]
  }

  /** One call of `Process` for session `sid`. */
  ghost function Resume(w: World, sid: nat, d: SessionData, h: Hooks, r: Response): World
    requires Terminates(h)
  {
    Install(w, sid, ProcessOnce(h, d, r))
  }

  function Install(w: World, sid: nat, o: Outcome): World {
    w.(live := if o.fate == Suspended then w.live[sid := o.data] else w.live - {sid},
       net := Launch(w.net, w.nextMid, sid, o.sent), nextMid := w.nextMid + |o.sent|)
  }

  function StoreStep(w: World, mid: nat): World {
    if mid !in w.net then w
    else
      match w.net[mid]
      case QueryOut(sid, uid, keys) =>
        w.(net := w.net[mid := QueryBack(sid, uid, QueryReply(w.cells, uid, keys))])
      case SaveOut(sid, uid, items) =>
        var w1 := w.(net := w.net[mid := SaveBack(sid, uid, SaveReply(w.cells, uid, items), items)]);
        if Accepts(w.cells, uid, items) then
          w1.(cells := ApplyItems(w.cells, uid, items), hist := AppendItems(w.hist, mid, uid, items))
        else w1
      case _ => w
  }

  ghost predicate ActionOk(law: Law, a: Action) {
    match a
    case Begin(h) => GoodHooks(law, h)
    case Deliver(_, h) => GoodHooks(law, h)
    case ServerReplies(_, h) => GoodHooks(law, h)
    case _ => true
  }

  ghost function Step(law: Law, w: World, a: Action): World
    requires ActionOk(law, a)
  {
    match a
    case Begin(h) =>
      Resume(w.(nextSid := w.nextSid + 1), w.nextSid, SessionData(OnMessage, [], 0, 0, [], 0), h, OtherRsp)
    case StoreHandles(mid) => StoreStep(w, mid)
    case Deliver(mid, h) =>
      if mid in w.net && (w.net[mid].QueryBack? || w.net[mid].SaveBack?) then
        var w1, f := w.(net := w.net - {mid}), w.net[mid];
        if f.sid in w.live then Resume(w1, f.sid, w.live[f.sid], h, f.reply) else w1
      else w
    case ServerReplies(sid, h) =>
      if sid in w.live && w.live[sid].state == WaitResponse then Resume(w, sid, w.live[sid], h, OtherRsp) else w
    case Lose(mid) => w.(net := w.net - {mid})
    case Expire(sid) => w.(live := w.live - {sid})
  }

  ghost function Run(law: Law, w: World, actions: seq<Action>): World
    requires forall a :: a in actions ==> ActionOk(law, a)
    decreases |actions|
  {
    if actions == [] then w
    else
      assert actions[0] in actions;
      Run(law, Step(law, w, actions[0]), actions[1..])
  }

  // ---------------------------------------------------------------------------------------
  // What handlers may do
  // ---------------------------------------------------------------------------------------

  /** A setter changes a value, never its version.  Whatever a handler changes beyond `rest` it
      must be about to save: a key of the current uid that was fetched, is marked as modified,
      and is not too long. */
  ghost predicate EntryStep(law: Law, k: Key, e: Entry, e': Entry, saving: bool) {
    && e'.version == e.version && e'.base == e.base
    && (law.rest(k, e.base, e.value) ==>
          law.rest(k, e.base, e'.value) || (saving && e'.dirty && |e'.value| <= MAX_KVDB_BUF_LEN && law.made(k, e.base, e'.value)))
  }

  ghost predicate PlayerStep(law: Law, p: Player, p': Player, saved: set<Key>) {
    p'.uid == p.uid && forall k :: k in p'.entries ==> EntryStep(law, k, EntryAt(p, k), p'.entries[k], k in saved)
  }

  /** The keys that a handler with this result may be about to save for process `i`. */
  ghost function Saved(d: SessionData, i: int, r: HandlerResult): set<Key>
    requires 0 <= i < |d.processs|
  {
    if r == Save && i == d.processIndex then set k | k in d.processs[i].keys else {}
  }

  /** A handler changes values of players already fetched, may add query keys, and leaves the
      bookkeeping of the state machine alone; one that hangs up may wait for another server. */
  ghost predicate Allowed(law: Law, d: SessionData, d': SessionData, r: HandlerResult) {
    && (ProcesssOk(d.processs) ==> ProcesssOk(d'.processs))
    && |d'.processs| >= |d.processs|
    && (forall i :: 0 <= i < |d.processs| ==>
          && d'.processs[i].uid == d.processs[i].uid
          && (d'.processs[i].player.Some? <==> d.processs[i].player.Some?)
          && (d.processs[i].player.Some? && d'.processs[i].player.Some? ==>
                PlayerStep(law, d.processs[i].player.value, d'.processs[i].player.value, Saved(d', i, r))))
    && (forall i :: |d.processs| <= i < |d'.processs| ==> d'.processs[i].player.None?)
    && d'.processIndex == d.processIndex && d'.redoCount == d.redoCount
    && (d'.state == d.state || (r == Hup && d'.state == WaitResponse))
  }

  ghost predicate GoodHooks(law: Law, h: Hooks) {
    && h.init == law.init && Terminates(h)
    && (forall d :: Allowed(law, d, h.onMessage(d).0, h.onMessage(d).1))
    && (forall d :: Allowed(law, d, h.onServerResponse(d).0, h.onServerResponse(d).1))
    && (forall d :: Allowed(law, d, h.onQuerySuccess(d).0, h.onQuerySuccess(d).1))
    && (forall d :: Allowed(law, d, h.onSaveSuccess(d).0, h.onSaveSuccess(d).1))
    && (forall d :: h.onQueryFailed(d).1 in {Done, Fail})
    && (forall d :: h.onSaveFailed(d).1 in {Done, Fail})
  }

  // ---------------------------------------------------------------------------------------
  // What a session knows
  // ---------------------------------------------------------------------------------------

  /** `b` is what version `n` of `loc` stands for.  Version 0 was never stored; it stands for
      the initial value, or for nothing if a conflict reply dropped the key. */
  ghost predicate ValueAt(law: Law, hist: History, loc: Loc, n: nat, b: Value) {
    if n == 0 then b == law.init(loc.key) || b == []
    else n <= |HistAt(hist, loc)| && HistAt(hist, loc)[n - 1].value == b
  }

  ghost predicate EntryOk(law: Law, hist: History, loc: Loc, e: Entry) {
    ValueAt(law, hist, loc, e.version, e.base) && law.rest(loc.key, e.base, e.value)
  }

  /** The entry is about to be submitted. */
  ghost predicate Ready(law: Law, hist: History, loc: Loc, e: Entry) {
    ValueAt(law, hist, loc, e.version, e.base) && law.made(loc.key, e.base, e.value) && e.dirty && |e.value| <= MAX_KVDB_BUF_LEN
  }

  /** The entry is what was just submitted for its key. */
  ghost predicate Sent(items: seq<SaveItem>, key: Key, e: Entry) {
    exists j :: 0 <= j < |items| && items[j].key == key && e == Entry(items[j].version, items[j].value, false, items[j].value)
  }

  ghost predicate PlayerOk(law: Law, hist: History, p: Player, uid: nat, items: seq<SaveItem>) {
    forall k :: k in p.entries ==>
      EntryOk(law, hist, Loc(p.uid, k), p.entries[k]) || (p.uid == uid && Sent(items, k, p.entries[k]))
  }

  /** Every entry of every player comes from its version, except those in the save of `items`
      for `uid` that is on its way. */
  ghost predicate DataOk(law: Law, hist: History, d: SessionData, uid: nat, items: seq<SaveItem>) {
    && ProcesssOk(d.processs)
    && forall i :: 0 <= i < |d.processs| && d.processs[i].player.Some? ==>
         d.processs[i].player.value.uid == d.processs[i].uid
         && PlayerOk(law, hist, d.processs[i].player.value, uid, items)
  }

  ghost predicate ItemOk(law: Law, hist: History, uid: nat, it: SaveItem) {
    it.version > 0 && ValueAt(law, hist, Loc(uid, it.key), it.version - 1, it.basis) && law.made(it.key, it.basis, it.value)
  }

  ghost predicate ItemsOk(law: Law, hist: History, uid: nat, items: seq<SaveItem>) {
    && KeysDistinct(ItemKeys(items))
    && forall j :: 0 <= j < |items| ==> ItemOk(law, hist, uid, items[j])
  }

  /** Each key in the reply is as it was at some time. */
  ghost predicate ReplyOk(hist: History, uid: nat, datas: seq<KVData>) {
    forall j :: 0 <= j < |datas| && datas[j].value.Some? ==>
      var loc := Loc(uid, datas[j].key);
      0 < datas[j].version <= |HistAt(hist, loc)| && HistAt(hist, loc)[datas[j].version - 1].value == datas[j].value.value
  }

  ghost predicate ItemsStored(hist: History, uid: nat, items: seq<SaveItem>) {
    forall j :: 0 <= j < |items| ==>
      var loc := Loc(uid, items[j].key);
      0 < items[j].version <= |HistAt(hist, loc)| && HistAt(hist, loc)[items[j].version - 1].value == items[j].value
  }

  ghost predicate FlightOk(law: Law, hist: History, f: Flight) {
    match f
    case QueryOut(sid, uid, keys) => true
    case QueryBack(sid, uid, reply) =>
      reply.QueryRsp? && reply.result == Success && reply.uid == uid && ReplyOk(hist, uid, reply.datas)
    case SaveOut(sid, uid, items) => ItemsOk(law, hist, uid, items)
    case SaveBack(sid, uid, reply, items) =>
      && reply.SaveRsp?
      && (reply.result == Success ==> ItemsStored(hist, uid, items))
      && (reply.result == VerDiff ==> reply.uid == uid && ReplyOk(hist, uid, reply.datas))
  }

  /** A flight and the session that waits for it. */
  ghost predicate Waits(law: Law, hist: History, d: SessionData, f: Flight) {
    if f.QueryOut? || f.QueryBack? then
      && d.state == WaitQuery && DataOk(law, hist, d, 0, []) && Find(d.processs, f.uid) >= 0
      && forall i :: 0 <= i < |d.processs| && d.processs[i].uid == f.uid ==> d.processs[i].player.None?
    else d.state == WaitSave && DataOk(law, hist, d, f.uid, f.items)
  }

  ghost predicate StoreOk(law: Law, cells: Cells, hist: History) {
    && (forall loc: Loc :: HistAt(hist, loc) == [] <==> loc !in cells)
    && (forall loc :: loc in cells ==>
          |HistAt(hist, loc)| > 0 && cells[loc] == Cell(|HistAt(hist, loc)|, HistAt(hist, loc)[|HistAt(hist, loc)| - 1].value))
    && (forall loc: Loc :: Chain(law, loc.key, HistAt(hist, loc)))
  }

  /** Each write was computed from the value stored just before it, the first from the initial
      value or from nothing, and is what handlers make of that. */
  ghost predicate Chain(law: Law, key: Key, h: seq<Write>) {
    && (h != [] ==> h[0].basis == law.init(key) || h[0].basis == [])
    && (forall i :: 0 < i < |h| ==> h[i].basis == h[i - 1].value)
    && (forall i :: 0 <= i < |h| ==> law.made(key, h[i].basis, h[i].value))
  }

  ghost predicate NetOk(law: Law, w: World) {
    && (forall mid :: mid in w.net ==> mid < w.nextMid && w.net[mid].sid < w.nextSid && FlightOk(law, w.hist, w.net[mid]))
    && (forall mid :: mid in w.net && w.net[mid].sid in w.live ==> Waits(law, w.hist, w.live[w.net[mid].sid], w.net[mid]))
    && (forall m, n :: m in w.net && n in w.net && m != n && w.net[m].sid == w.net[n].sid && w.net[m].sid in w.live ==>
          w.net[m].uid != w.net[n].uid && !w.net[m].SaveOut? && !w.net[m].SaveBack?)
  }

  ghost predicate Inv(law: Law, w: World) {
    && StoreOk(law, w.cells, w.hist) && NetOk(law, w)
    && (forall sid :: sid in w.live ==> sid < w.nextSid)
    && (forall sid :: sid in w.live && w.live[sid].state == WaitResponse ==> DataOk(law, w.hist, w.live[sid], 0, []))
  }

  // ---------------------------------------------------------------------------------------
  // One call of `Process`
  // ---------------------------------------------------------------------------------------

  /** The data after a handler with result `r`: sound, or about to be saved. */
  ghost predicate HandledOk(law: Law, hist: History, d: SessionData, r: HandlerResult) {
    && ProcesssOk(d.processs)
    && forall i :: 0 <= i < |d.processs| && d.processs[i].player.Some? ==>
         d.processs[i].player.value.uid == d.processs[i].uid
         && ReadyPlayer(law, hist, d.processs[i].player.value, Saved(d, i, r))
  }

  ghost predicate ReadyPlayer(law: Law, hist: History, p: Player, saved: set<Key>) {
    forall k :: k in p.entries ==>
      EntryOk(law, hist, Loc(p.uid, k), p.entries[k]) || (k in saved && Ready(law, hist, Loc(p.uid, k), p.entries[k]))
  }

  lemma AllowedKeeps(law: Law, hist: History, d: SessionData, d': SessionData, r: HandlerResult)
    requires LawOk(law) && DataOk(law, hist, d, 0, []) && Allowed(law, d, d', r)
    ensures HandledOk(law, hist, d', r)
  {
    forall i | 0 <= i < |d'.processs| && d'.processs[i].player.Some?
      ensures d'.processs[i].player.value.uid == d'.processs[i].uid
      ensures ReadyPlayer(law, hist, d'.processs[i].player.value, Saved(d', i, r))
    {
      assert i < |d.processs| && d.processs[i].player.Some?;
      PlayerStepKeeps(law, hist, d.processs[i].player.value, d'.processs[i].player.value, Saved(d', i, r));
    }
  }

  lemma PlayerStepKeeps(law: Law, hist: History, p: Player, p': Player, saved: set<Key>)
    requires LawOk(law) && PlayerOk(law, hist, p, 0, []) && PlayerStep(law, p, p', saved)
    ensures ReadyPlayer(law, hist, p', saved)
  {
    forall k | k in p'.entries
      ensures EntryOk(law, hist, Loc(p'.uid, k), p'.entries[k]) || (k in saved && Ready(law, hist, Loc(p'.uid, k), p'.entries[k]))
    {
      var e, e' := EntryAt(p, k), p'.entries[k];
      assert !Sent([], k, e);
      assert EntryOk(law, hist, Loc(p.uid, k), e);
    }
  }

  /** A handler that does not ask for a save leaves sound data. */
  lemma NotSavingIsOk(law: Law, hist: History, d: SessionData, r: HandlerResult)
    requires HandledOk(law, hist, d, r) && r != Save
    ensures DataOk(law, hist, d, 0, [])
  {
    forall i | 0 <= i < |d.processs| && d.processs[i].player.Some?
      ensures PlayerOk(law, hist, d.processs[i].player.value, 0, [])
    {
      assert ReadyPlayer(law, hist, d.processs[i].player.value, Saved(d, i, r));
    }
  }

  /** Before and after each key: those already looked at are sound or submitted, the others are
      as they were. */
  ghost predicate SavingOk(law: Law, hist: History, p: Player, keys: seq<Key>, sv: Saving) {
    && ItemsOk(law, hist, p.uid, sv.items)
    && (forall j :: 0 <= j < |sv.items| ==> sv.items[j].key in keys)
    && (forall k :: k !in keys ==> (k in sv.entries <==> k in p.entries) && (k in p.entries ==> sv.entries[k] == p.entries[k]))
    && (sv.known ==> forall k :: k in keys && k in sv.entries ==>
          EntryOk(law, hist, Loc(p.uid, k), sv.entries[k]) || Sent(sv.items, k, sv.entries[k]))
  }

  lemma {:induction false} SaveKeysOk(law: Law, hist: History, p: Player, keys: seq<Key>, saved: set<Key>)
    requires LawOk(law) && ReadyPlayer(law, hist, p, saved) && KeysDistinct(keys)
    ensures SavingOk(law, hist, p, keys, SaveKeys(p.entries, keys))
    decreases |keys|
  {
    if keys != [] {
      var front, key := keys[..|keys| - 1], keys[|keys| - 1];
      assert keys == front + [key];
      assert forall i :: 0 <= i < |front| ==> front[i] == keys[i];
      SaveKeysOk(law, hist, p, front, saved);
      assert key !in front;
      SaveKeyOk(law, hist, p, front, SaveKeys(p.entries, front), key, saved);
    }
  }

  lemma SaveKeyOk(law: Law, hist: History, p: Player, front: seq<Key>, sv: Saving, key: Key, saved: set<Key>)
    requires LawOk(law) && ReadyPlayer(law, hist, p, saved) && SavingOk(law, hist, p, front, sv) && key !in front
    ensures SavingOk(law, hist, p, front + [key], SaveKey(sv, key))
  {
    hide ValueAt;
    var sv' := SaveKey(sv, key);
    if sv'.items != sv.items {
      var e := p.entries[key];
      var it := SaveItem(key, e.value, e.version + 1, e.base);
      assert sv'.items == sv.items + [it];
      assert ItemOk(law, hist, p.uid, it);
      SentGrows(sv.items, it);
      assert ItemKeys(sv'.items) == ItemKeys(sv.items) + [key];
      assert forall j :: 0 <= j < |sv.items| ==> ItemKeys(sv.items)[j] == sv.items[j].key;
    }
  }

  lemma SentGrows(items: seq<SaveItem>, it: SaveItem)
    ensures forall k, e :: Sent(items, k, e) ==> Sent(items + [it], k, e)
    ensures Sent(items + [it], it.key, Entry(it.version, it.value, false, it.value))
  {
    var items' := items + [it];
    assert items'[|items|] == it;
    forall k, e | Sent(items, k, e)
      ensures Sent(items', k, e)
    {
      var j :| 0 <= j < |items| && items[j].key == k && e == Entry(items[j].version, items[j].value, false, items[j].value);
      assert items'[j] == items[j];
    }
  }

  /** What the world must know about a session that `Process` leaves waiting. */
  ghost predicate OutcomeOk(law: Law, hist: History, o: Outcome) {
    o.fate == Suspended ==>
      if o.sent == [] then DataOk(law, hist, o.data, 0, [])
      else if o.sent[0].SaveReq? then
        && |o.sent| == 1 && o.data.state == WaitSave
        && ItemsOk(law, hist, o.sent[0].uid, o.sent[0].items)
        && DataOk(law, hist, o.data, o.sent[0].uid, o.sent[0].items)
      else
        && o.data.state == WaitQuery && DataOk(law, hist, o.data, 0, [])
        && QueriesOk(o.data.processs, o.sent)
  }

  /** Queries to different uids, none of which has data. */
  ghost predicate QueriesOk(processs: seq<DBProcess>, sent: seq<Request>) {
    && (forall j :: 0 <= j < |sent| ==> sent[j].QueryReq?)
    && (forall i, j :: 0 <= i < j < |sent| && sent[i].QueryReq? && sent[j].QueryReq? ==> sent[i].uid != sent[j].uid)
    && (forall i, j :: 0 <= i < |processs| && 0 <= j < |sent| && processs[i].uid == sent[j].uid ==> processs[i].player.None?)
    && (forall j :: 0 <= j < |sent| ==> Find(processs, sent[j].uid) >= 0)
  }

  lemma {:induction false} QuerySource(processs: seq<DBProcess>, n: nat, j: nat) returns (i: nat)
    requires n <= |processs| && j < |Queries(processs[..n])|
    ensures i < n && Queries(processs[..n])[j] == QueryReq(processs[i].uid, processs[i].keys)
    ensures processs[i].player.None?
  {
    assert processs[..n][..n - 1] == processs[..n - 1];
    if j < |Queries(processs[..n - 1])| {
      i := QuerySource(processs, n - 1, j);
    } else {
      i := n - 1;
    }
  }

  lemma {:induction false} QueriesAre(processs: seq<DBProcess>, n: nat)
    requires UidsDistinct(processs) && n <= |processs|
    ensures QueriesOk(processs, Queries(processs[..n]))
  {
    if n > 0 {
      QueriesAre(processs, n - 1);
      assert processs[..n][..n - 1] == processs[..n - 1];
      var before, after := Queries(processs[..n - 1]), Queries(processs[..n]);
      forall j | 0 <= j < |before|
        ensures before[j].QueryReq? && before[j].uid != processs[n - 1].uid
      {
        var i := QuerySource(processs, n - 1, j);
      }
      if processs[n - 1].player.None? {
        QueriesSnoc(processs, before, processs[n - 1]);
      }
    }
  }

  lemma QueriesSnoc(processs: seq<DBProcess>, before: seq<Request>, p: DBProcess)
    requires UidsDistinct(processs) && QueriesOk(processs, before) && p in processs && p.player.None?
    requires forall j :: 0 <= j < |before| ==> before[j].QueryReq? && before[j].uid != p.uid
    ensures QueriesOk(processs, before + [QueryReq(p.uid, p.keys)])
  {
  }

  lemma {:induction false} LoopOk(law: Law, h: Hooks, hist: History, d: SessionData, r: HandlerResult)
    requires LawOk(law) && GoodHooks(law, h) && HandledOk(law, hist, d, r)
    ensures OutcomeOk(law, hist, Loop(h, d, r))
    decreases LoopMeasure(d, r)
  {
    if r != Save {
      NotSavingIsOk(law, hist, d, r);
    }
    match r
    case Query =>
      QueriesAre(d.processs, |d.processs|);
      assert d.processs[..|d.processs|] == d.processs;
    case Save => SaveOutcomeOk(law, hist, d);
    case Next =>
      var d1 := d.(processIndex := d.processIndex + 1);
      var (d', r') := ProcessNext(h, d);
      if d1.processIndex < |d1.processs| {
        AllowedKeeps(law, hist, d1, d', r');
      } else {
        SoundIsHandled(law, hist, d1, r');
      }
      LoopOk(law, h, hist, d', r');
    case _ =>
  }

  lemma SoundIsHandled(law: Law, hist: History, d: SessionData, r: HandlerResult)
    requires DataOk(law, hist, d, 0, [])
    ensures HandledOk(law, hist, d, r)
  {
    forall i | 0 <= i < |d.processs| && d.processs[i].player.Some?
      ensures ReadyPlayer(law, hist, d.processs[i].player.value, Saved(d, i, r))
    {
      var p := d.processs[i].player.value;
      assert PlayerOk(law, hist, p, 0, []);
      assert forall k :: k in p.entries ==> !Sent([], k, p.entries[k]);
    }
  }

  lemma SaveOutcomeOk(law: Law, hist: History, d: SessionData)
    requires LawOk(law) && HandledOk(law, hist, d, Save)
    ensures var (d', sent) := SaveOne(d);
            OutcomeOk(law, hist, Outcome(d', sent, if sent != [] then Suspended else Aborted))
  {
    var (d', sent) := SaveOne(d);
    if sent != [] {
      var i := d.processIndex;
      var p, keys := CurrentPlayer(d.processs[i]), d.processs[i].keys;
      if d.processs[i].player.None? {
        NothingToSave(keys);
        assert false;
      } else {
        SaveKeysOk(law, hist, p, keys, Saved(d, i, Save));
        SavedPlayerOk(law, hist, p, keys, Saved(d, i, Save), SaveKeys(p.entries, keys));
        OthersOk(law, hist, d, d', i, sent[0].items);
      }
    }
  }

  lemma SavedPlayerOk(law: Law, hist: History, p: Player, keys: seq<Key>, saved: set<Key>, sv: Saving)
    requires ReadyPlayer(law, hist, p, saved) && saved == (set k | k in keys)
    requires SavingOk(law, hist, p, keys, sv) && sv.known
    ensures PlayerOk(law, hist, p.(entries := sv.entries), p.uid, sv.items)
  {
  }

  lemma {:induction false} NothingToSave(keys: seq<Key>)
    ensures SaveKeys(map[], keys).items == [] && SaveKeys(map[], keys).entries == map[]
  {
    if keys != [] {
      NothingToSave(keys[..|keys| - 1]);
    }
  }

  /** Changing one player's data within what is allowed for the save on its way. */
  lemma OthersOk(law: Law, hist: History, d: SessionData, d': SessionData, i: nat, items: seq<SaveItem>)
    requires HandledOk(law, hist, d, Save) && i == d.processIndex < |d.processs| && d.processs[i].player.Some?
    requires |d'.processs| == |d.processs|
    requires forall j :: 0 <= j < |d.processs| && j != i ==> d'.processs[j] == d.processs[j]
    requires d'.processs[i].uid == d.processs[i].uid && d'.processs[i].keys == d.processs[i].keys
    requires d'.processs[i].player.Some? && d'.processs[i].player.value.uid == d.processs[i].uid
    requires PlayerOk(law, hist, d'.processs[i].player.value, d.processs[i].uid, items)
    ensures DataOk(law, hist, d', d.processs[i].uid, items)
  {
    forall j | 0 <= j < |d.processs| && j != i && d.processs[j].player.Some?
      ensures PlayerOk(law, hist, d'.processs[j].player.value, d.processs[i].uid, items)
    {
      assert ReadyPlayer(law, hist, d.processs[j].player.value, Saved(d, j, Save));
    }
  }

  /** What a query or conflict reply is parsed into. */
  lemma {:induction false} ParsedOk(law: Law, hist: History, uid: nat, datas: seq<KVData>)
    requires LawOk(law) && ReplyOk(hist, uid, datas) && ParseData(law.init, datas).Some?
    ensures PlayerOk(law, hist, Player(uid, ParseData(law.init, datas).value), 0, [])
    decreases |datas|
  {
    if datas != [] {
      var front := datas[..|datas| - 1];
      assert forall j :: 0 <= j < |front| ==> front[j] == datas[j];
      ParsedOk(law, hist, uid, front);
      var before, after := ParseData(law.init, front).value, ParseData(law.init, datas).value;
      var key := datas[|datas| - 1].key;
      forall k | k in after
        ensures EntryOk(law, hist, Loc(uid, k), after[k])
      {
        if k != key || after == before {
          assert PlayerOk(law, hist, Player(uid, before), 0, []);
          assert !Sent([], k, before[k]);
        }
      }
    }
  }

  /** Replacing one player by a parsed reply also forgets the save that was refused. */
  lemma SetPlayerOk(law: Law, hist: History, d: SessionData, i: nat, p: Player, items: seq<SaveItem>)
    requires DataOk(law, hist, d, p.uid, items) && i < |d.processs| && d.processs[i].uid == p.uid
    requires PlayerOk(law, hist, p, 0, [])
    ensures DataOk(law, hist, SetPlayer(d, i, p), 0, [])
  {
    var d' := SetPlayer(d, i, p);
    forall j | 0 <= j < |d.processs| && j != i && d.processs[j].player.Some?
      ensures PlayerOk(law, hist, d'.processs[j].player.value, 0, [])
    {
      assert d.processs[j].uid != p.uid;
    }
  }

  /** Once the submitted items are stored, the session's entries are what the store holds. */
  lemma StoredOk(law: Law, hist: History, d: SessionData, uid: nat, items: seq<SaveItem>)
    requires LawOk(law) && DataOk(law, hist, d, uid, items) && ItemsStored(hist, uid, items)
    ensures DataOk(law, hist, d, 0, [])
  {
    forall i | 0 <= i < |d.processs| && d.processs[i].player.Some?
      ensures PlayerOk(law, hist, d.processs[i].player.value, 0, [])
    {
      var p := d.processs[i].player.value;
      forall k | k in p.entries
        ensures EntryOk(law, hist, Loc(p.uid, k), p.entries[k])
      {
        if p.uid == uid && Sent(items, k, p.entries[k]) {
          var j :| 0 <= j < |items| && items[j].key == k && p.entries[k] == Entry(items[j].version, items[j].value, false, items[j].value);
        }
      }
    }
  }

  // ---------------------------------------------------------------------------------------
  // Every step keeps the invariant
  // ---------------------------------------------------------------------------------------

  lemma {:induction false} LaunchIs(net: map<nat, Flight>, nextMid: nat, sid: nat, sent: seq<Request>)
    requires forall mid :: mid in net ==> mid < nextMid
    ensures var net' := Launch(net, nextMid, sid, sent);
            && (forall mid :: mid in net' ==> mid < nextMid + |sent|)
            && (forall mid :: mid in net ==> mid in net' && net'[mid] == net[mid])
            && (forall mid :: mid in net' && mid !in net ==> nextMid <= mid && net'[mid] == ToFlight(sid, sent[mid - nextMid]))
    decreases |sent|
  {
    if sent != [] {
      var front := sent[..|sent| - 1];
      assert forall j :: 0 <= j < |front| ==> front[j] == sent[j];
      LaunchIs(net, nextMid, sid, front);
    }
  }

  /** A session that nothing is in flight for gets new data and sends new requests. */
  lemma InstallKeeps(law: Law, w: World, sid: nat, o: Outcome)
    requires Inv(law, w.(live := w.live - {sid})) && sid < w.nextSid
    requires forall mid :: mid in w.net ==> w.net[mid].sid != sid
    requires OutcomeOk(law, w.hist, o) && (o.fate != Suspended ==> o.sent == [])
    ensures Inv(law, Install(w, sid, o))
  {
    hide Inv, OutcomeOk, Launch, ToFlight;
    MidsBelow(law, w.(live := w.live - {sid}));
    LaunchIs(w.net, w.nextMid, sid, o.sent);
    NewFlightsOk(law, w, sid, o, Install(w, sid, o));
  }

  lemma MidsBelow(law: Law, w: World)
    requires Inv(law, w)
    ensures forall mid :: mid in w.net ==> mid < w.nextMid
  {
    hide StoreOk, FlightOk, Waits, DataOk;
  }

  /** The situation after an install: old flights are as they were, new ones are `o.sent`. */
  ghost predicate Installed(law: Law, w: World, sid: nat, o: Outcome, w': World) {
    && Inv(law, w.(live := w.live - {sid})) && sid < w.nextSid
    && (forall mid :: mid in w.net ==> w.net[mid].sid != sid)
    && OutcomeOk(law, w.hist, o) && (o.fate != Suspended ==> o.sent == [])
    && w' == Install(w, sid, o)
    && (forall mid :: mid in w'.net ==> mid < w'.nextMid)
    && (forall mid :: mid in w.net ==> mid in w'.net && w'.net[mid] == w.net[mid])
    && (forall mid :: mid in w'.net && mid !in w.net ==>
          w.nextMid <= mid && mid - w.nextMid < |o.sent| && w'.net[mid] == ToFlight(sid, o.sent[mid - w.nextMid]))
  }

  lemma OldFlightOk(law: Law, w: World, sid: nat, o: Outcome, w': World, mid: nat)
    requires Installed(law, w, sid, o, w') && mid in w.net
    ensures mid < w'.nextMid && w'.net[mid].sid < w'.nextSid && FlightOk(law, w'.hist, w'.net[mid])
    ensures w'.net[mid].sid in w'.live ==> Waits(law, w'.hist, w'.live[w'.net[mid].sid], w'.net[mid])
  {
    var w0 := w.(live := w.live - {sid});
    assert w0.net[mid] == w'.net[mid];
  }

  lemma NewFlightOk(law: Law, w: World, sid: nat, o: Outcome, w': World, mid: nat)
    requires Installed(law, w, sid, o, w') && mid in w'.net && mid !in w.net
    ensures w'.net[mid].sid == sid && FlightOk(law, w'.hist, w'.net[mid])
    ensures Waits(law, w'.hist, w'.live[sid], w'.net[mid])
  {
    var j := mid - w.nextMid;
    assert o.sent != [] && (o.sent[0].SaveReq? ==> j == 0);
  }

  lemma TwoFlightsOk(law: Law, w: World, sid: nat, o: Outcome, w': World, m: nat, n: nat)
    requires Installed(law, w, sid, o, w') && m in w'.net && n in w'.net && m != n
    requires w'.net[m].sid == w'.net[n].sid && w'.net[m].sid in w'.live
    ensures w'.net[m].uid != w'.net[n].uid && !w'.net[m].SaveOut? && !w'.net[m].SaveBack?
  {
    var w0 := w.(live := w.live - {sid});
    if m in w.net && n in w.net {
      assert w0.net[m] == w'.net[m] && w0.net[n] == w'.net[n] && w0.net[m].sid in w0.live;
    } else {
      assert m !in w.net && n !in w.net;
      var i, j := m - w.nextMid, n - w.nextMid;
      assert i != j && o.sent[i].QueryReq? && o.sent[j].QueryReq?;
    }
  }

  lemma NewFlightsOk(law: Law, w: World, sid: nat, o: Outcome, w': World)
    requires Installed(law, w, sid, o, w')
    ensures Inv(law, w')
  {
    forall mid | mid in w'.net
      ensures w'.net[mid].sid < w'.nextSid && FlightOk(law, w'.hist, w'.net[mid])
      ensures w'.net[mid].sid in w'.live ==> Waits(law, w'.hist, w'.live[w'.net[mid].sid], w'.net[mid])
    {
      if mid in w.net {
        OldFlightOk(law, w, sid, o, w', mid);
      } else {
        NewFlightOk(law, w, sid, o, w', mid);
      }
    }
    forall m, n | m in w'.net && n in w'.net && m != n && w'.net[m].sid == w'.net[n].sid && w'.net[m].sid in w'.live
      ensures w'.net[m].uid != w'.net[n].uid && !w'.net[m].SaveOut? && !w'.net[m].SaveBack?
    {
      TwoFlightsOk(law, w, sid, o, w', m, n);
    }
    NewLiveOk(law, w, sid, o, w');
  }

  lemma NewLiveOk(law: Law, w: World, sid: nat, o: Outcome, w': World)
    requires Installed(law, w, sid, o, w')
    ensures forall s :: s in w'.live ==> s < w'.nextSid
    ensures forall s :: s in w'.live && w'.live[s].state == WaitResponse ==> DataOk(law, w'.hist, w'.live[s], 0, [])
  {
    var w0 := w.(live := w.live - {sid});
    assert forall s :: s in w'.live && s != sid ==> s in w0.live && w'.live[s] == w0.live[s];
  }

  lemma {:induction false} OnlySuspendedSends(h: Hooks, d: SessionData, r: HandlerResult)
    requires Terminates(h)
    ensures Loop(h, d, r).fate != Suspended ==> Loop(h, d, r).sent == []
    decreases LoopMeasure(d, r)
  {
    if r == Next {
      var (d', r') := ProcessNext(h, d);
      OnlySuspendedSends(h, d', r');
    }
  }

  /** A handler runs on sound data: whatever comes of it is sound. */
  lemma HandlerRunOk(law: Law, h: Hooks, hist: History, d: SessionData, d': SessionData, r: HandlerResult)
    requires LawOk(law) && GoodHooks(law, h) && DataOk(law, hist, d, 0, []) && Allowed(law, d, d', r)
    ensures OutcomeOk(law, hist, Loop(h, d', r))
  {
    AllowedKeeps(law, hist, d, d', r);
    LoopOk(law, h, hist, d', r);
  }

  /** A failure handler always ends the session. */
  lemma FailureEnds(law: Law, h: Hooks, hist: History, d: SessionData, r: HandlerResult)
    requires Terminates(h) && r in {Done, Fail}
    ensures OutcomeOk(law, hist, Loop(h, d, r))
  {
  }

  /** A save reply restores soundness before any handler runs. */
  lemma SaveReplyOk(law: Law, h: Hooks, hist: History, d: SessionData, f: Flight)
    requires LawOk(law) && GoodHooks(law, h) && f.SaveBack?
    requires FlightOk(law, hist, f) && Waits(law, hist, d, f)
    ensures OutcomeOk(law, hist, ProcessOnce(h, d, f.reply))
  {
    var r := f.reply;
    var (d', result) := FirstStep(h, d, r);
    match r.result
    case Success =>
      StoredOk(law, hist, d, f.uid, f.items);
      HandlerRunOk(law, h, hist, d, d', result);
    case Failed => FailureEnds(law, h, hist, d', result);
    case VerDiff =>
      var d1 := d.(redoCount := d.redoCount + 1);
      if Reruns(h, d, r) {
        var i := Find(d.processs, r.uid);
        ParsedOk(law, hist, r.uid, r.datas);
        SetPlayerOk(law, hist, d1, i, Player(r.uid, ParseData(h.init, r.datas).value), f.items);
        HandlerRunOk(law, h, hist, RerunInput(h, d, r), d', result);
      } else {
        FailureEnds(law, h, hist, d', result);
      }
  }

  /** A query reply: more replies are awaited, or a handler runs on sound data. */
  lemma QueryReplyOk(law: Law, h: Hooks, hist: History, d: SessionData, f: Flight)
    requires LawOk(law) && GoodHooks(law, h) && f.QueryBack?
    requires FlightOk(law, hist, f) && Waits(law, hist, d, f)
    ensures OutcomeOk(law, hist, ProcessOnce(h, d, f.reply))
    ensures var o := ProcessOnce(h, d, f.reply);
            o.fate != Suspended || OnlyMissing(d, f.uid) || (o.sent == [] && OnlyReceived(d, o.data, f.uid))
  {
    var r := f.reply;
    var (d', result) := FirstStep(h, d, r);
    var i := Find(d.processs, r.uid);
    if ParseData(h.init, r.datas).None? || i < 0 {
      FailureEnds(law, h, hist, d', result);
    } else {
      ParsedOk(law, hist, r.uid, r.datas);
      var d1 := SetPlayer(d, i, Player(r.uid, ParseData(h.init, r.datas).value));
      DataOkAnyUid(law, hist, d, r.uid);
      SetPlayerOk(law, hist, d, i, Player(r.uid, ParseData(h.init, r.datas).value), []);
      if HaveAll(d1.processs) {
        HandlerRunOk(law, h, hist, d1, d', result);
        forall j | 0 <= j < |d.processs| && d.processs[j].uid != f.uid
          ensures d.processs[j].player.Some?
        {
          assert d1.processs[j].player.Some?;
        }
      }
    }
  }

  lemma DataOkAnyUid(law: Law, hist: History, d: SessionData, uid: nat)
    requires DataOk(law, hist, d, 0, [])
    ensures DataOk(law, hist, d, uid, [])
  {
    forall i | 0 <= i < |d.processs| && d.processs[i].player.Some?
      ensures PlayerOk(law, hist, d.processs[i].player.value, uid, [])
    {
      var p := d.processs[i].player.value;
      assert forall k :: k in p.entries ==> !Sent([], k, p.entries[k]);
    }
  }

  lemma DeliverKeeps(law: Law, w: World, mid: nat, h: Hooks)
    requires LawOk(law) && GoodHooks(law, h) && Inv(law, w)
    requires mid in w.net && (w.net[mid].QueryBack? || w.net[mid].SaveBack?) && w.net[mid].sid in w.live
    ensures Inv(law, Step(law, w, Deliver(mid, h)))
  {
    hide Inv, ProcessOnce, Install;
    if w.net[mid].SaveBack? {
      SaveDelivered(law, w, mid, h);
    } else {
      QueryDelivered(law, w, mid, h);
    }
  }

  /** What the invariant says about a flight and about the session it belongs to. */
  lemma FlightKnown(law: Law, w: World, mid: nat)
    requires Inv(law, w) && mid in w.net
    ensures w.net[mid].sid < w.nextSid && FlightOk(law, w.hist, w.net[mid])
    ensures w.net[mid].sid in w.live ==> Waits(law, w.hist, w.live[w.net[mid].sid], w.net[mid])
  {
    hide StoreOk, FlightOk, Waits, DataOk;
  }

  /** A save in flight is the only flight of its session. */
  lemma OnlyFlight(law: Law, w: World, mid: nat)
    requires Inv(law, w) && mid in w.net && w.net[mid].SaveBack? && w.net[mid].sid in w.live
    ensures forall m :: m in w.net && m != mid ==> w.net[m].sid != w.net[mid].sid
  {
    hide StoreOk, FlightOk, Waits, DataOk;
  }

  lemma SaveDelivered(law: Law, w: World, mid: nat, h: Hooks)
    requires LawOk(law) && GoodHooks(law, h) && Inv(law, w)
    requires mid in w.net && w.net[mid].SaveBack? && w.net[mid].sid in w.live
    ensures Inv(law, Install(w.(net := w.net - {mid}), w.net[mid].sid, ProcessOnce(h, w.live[w.net[mid].sid], w.net[mid].reply)))
  {
    hide Inv, Install, OutcomeOk, FlightOk, Waits, GoodHooks;
    var f, w1 := w.net[mid], w.(net := w.net - {mid});
    var d := w.live[f.sid];
    NoHangWithRequests(law, h, d, f.reply);
    FlightKnown(law, w, mid);
    OnlyFlight(law, w, mid);
    SaveReplyOk(law, h, w.hist, d, f);
    DropFlight(law, w, mid);
    DropSession(law, w1, f.sid);
    InstallKeeps(law, w1, f.sid, ProcessOnce(h, d, f.reply));
  }

  lemma NoHangWithRequests(law: Law, h: Hooks, d: SessionData, r: Response)
    requires GoodHooks(law, h)
    ensures Terminates(h)
    ensures ProcessOnce(h, d, r).fate != Suspended ==> ProcessOnce(h, d, r).sent == []
  {
    OnlySuspendedSends(h, FirstStep(h, d, r).0, FirstStep(h, d, r).1);
  }

  lemma QueryDelivered(law: Law, w: World, mid: nat, h: Hooks)
    requires LawOk(law) && GoodHooks(law, h) && Inv(law, w)
    requires mid in w.net && w.net[mid].QueryBack? && w.net[mid].sid in w.live
    ensures Inv(law, Install(w.(net := w.net - {mid}), w.net[mid].sid, ProcessOnce(h, w.live[w.net[mid].sid], w.net[mid].reply)))
  {
    hide Inv, Install, OutcomeOk, FlightOk, Waits, GoodHooks;
    var f, w1 := w.net[mid], w.(net := w.net - {mid});
    var d := w.live[f.sid];
    NoHangWithRequests(law, h, d, f.reply);
    FlightKnown(law, w, mid);
    QueryReplyOk(law, h, w.hist, d, f);
    DropFlight(law, w, mid);
    if forall m :: m in w1.net ==> w1.net[m].sid != f.sid {
      DropSession(law, w1, f.sid);
      InstallKeeps(law, w1, f.sid, ProcessOnce(h, d, f.reply));
    } else {
      StillWaiting(law, w, w1, mid, ProcessOnce(h, d, f.reply));
    }
  }

  lemma DropFlight(law: Law, w: World, mid: nat)
    requires Inv(law, w)
    ensures Inv(law, w.(net := w.net - {mid}))
  {
  }

  lemma DropSession(law: Law, w: World, sid: nat)
    requires Inv(law, w)
    ensures Inv(law, w.(live := w.live - {sid}))
  {
  }

  /** Nothing but the data of `uid` has changed, and the session goes on waiting. */
  ghost predicate OnlyReceived(d: SessionData, d': SessionData, uid: nat) {
    && d'.state == WaitQuery && |d'.processs| == |d.processs|
    && forall i :: 0 <= i < |d.processs| ==>
         d'.processs[i].uid == d.processs[i].uid && (d.processs[i].uid != uid ==> d'.processs[i] == d.processs[i])
  }

  /** No data is missing but that of `uid`. */
  ghost predicate OnlyMissing(d: SessionData, uid: nat) {
    forall i :: 0 <= i < |d.processs| && d.processs[i].uid != uid ==> d.processs[i].player.Some?
  }

  /** Other queries of the same session are still out. */
  lemma StillWaiting(law: Law, w: World, w1: World, mid: nat, o: Outcome)
    requires Inv(law, w) && mid in w.net && w.net[mid].QueryBack? && w1 == w.(net := w.net - {mid})
    requires Inv(law, w1) && w.net[mid].sid in w.live
    requires exists m :: m in w1.net && w1.net[m].sid == w.net[mid].sid
    requires OutcomeOk(law, w.hist, o) && (o.fate != Suspended ==> o.sent == [])
    requires var f, d := w.net[mid], w.live[w.net[mid].sid];
             o.fate != Suspended || OnlyMissing(d, f.uid) || (o.sent == [] && OnlyReceived(d, o.data, f.uid))
    ensures Inv(law, Install(w1, w.net[mid].sid, o))
  {
    hide Inv;
    var f := w.net[mid];
    var d := w.live[f.sid];
    if o.fate != Suspended {
      DropSession(law, w1, f.sid);
    } else {
      var m :| m in w1.net && w1.net[m].sid == f.sid;
      OtherUidMissing(law, w, mid, m);
      GoesOnWaiting(law, w, w1, mid, o.data);
    }
  }

  /** The query of another flight is about another uid, whose data is missing. */
  lemma OtherUidMissing(law: Law, w: World, mid: nat, m: nat)
    requires Inv(law, w) && mid in w.net && w.net[mid].QueryBack? && w.net[mid].sid in w.live
    requires m in w.net && m != mid && w.net[m].sid == w.net[mid].sid
    ensures (w.net[m].QueryOut? || w.net[m].QueryBack?) && w.net[m].uid != w.net[mid].uid
    ensures !OnlyMissing(w.live[w.net[mid].sid], w.net[mid].uid)
  {
    hide StoreOk, FlightOk, DataOk;
    var d := w.live[w.net[mid].sid];
    FlightKnown(law, w, m);
    assert d.processs[Find(d.processs, w.net[m].uid)].player.None?;
  }

  /** A flight that a session waits for is still waited for when another uid's data arrives. */
  lemma StillWaits(law: Law, hist: History, d: SessionData, d': SessionData, uid: nat, f: Flight)
    requires Waits(law, hist, d, f) && (f.QueryOut? || f.QueryBack?) && f.uid != uid
    requires OnlyReceived(d, d', uid) && DataOk(law, hist, d', 0, [])
    ensures Waits(law, hist, d', f)
  {
    hide DataOk;
    var i := Find(d.processs, f.uid);
    assert d'.processs[i].uid == f.uid;
  }

  lemma GoesOnWaiting(law: Law, w: World, w1: World, mid: nat, d': SessionData)
    requires Inv(law, w) && mid in w.net && w.net[mid].QueryBack? && w1 == w.(net := w.net - {mid})
    requires Inv(law, w1) && w.net[mid].sid in w.live
    requires OnlyReceived(w.live[w.net[mid].sid], d', w.net[mid].uid) && DataOk(law, w.hist, d', 0, [])
    ensures Inv(law, w1.(live := w1.live[w.net[mid].sid := d']))
  {
    hide StoreOk, FlightOk, DataOk, Waits, OnlyReceived, OnlyMissing;
    var f := w.net[mid];
    var w' := w1.(live := w1.live[f.sid := d']);
    NowWaitsForQueries(w.live[f.sid], d', f.uid);
    forall m | m in w'.net && w'.net[m].sid in w'.live
      ensures Waits(law, w'.hist, w'.live[w'.net[m].sid], w'.net[m])
    {
      FlightKnown(law, w1, m);
      if w'.net[m].sid == f.sid {
        OtherUidMissing(law, w, mid, m);
        StillWaits(law, w.hist, w.live[f.sid], d', f.uid, w'.net[m]);
      }
    }
  }

  lemma NowWaitsForQueries(d: SessionData, d': SessionData, uid: nat)
    requires OnlyReceived(d, d', uid)
    ensures d'.state == WaitQuery
  {
  }

  // ---------------------------------------------------------------------------------------
  // The store
  // ---------------------------------------------------------------------------------------

  /** Histories only grow. */
  ghost predicate Extends(hist: History, hist': History) {
    forall loc: Loc :: HistAt(hist, loc) <= HistAt(hist', loc)
  }

  lemma DataStable(law: Law, hist: History, hist': History, d: SessionData, uid: nat, items: seq<SaveItem>)
    requires Extends(hist, hist') && DataOk(law, hist, d, uid, items)
    ensures DataOk(law, hist', d, uid, items)
  {
    forall i | 0 <= i < |d.processs| && d.processs[i].player.Some?
      ensures PlayerOk(law, hist', d.processs[i].player.value, uid, items)
    {
      var p := d.processs[i].player.value;
      assert PlayerOk(law, hist, p, uid, items);
      forall k | k in p.entries && EntryOk(law, hist, Loc(p.uid, k), p.entries[k])
        ensures EntryOk(law, hist', Loc(p.uid, k), p.entries[k])
      {
        assert HistAt(hist, Loc(p.uid, k)) <= HistAt(hist', Loc(p.uid, k));
      }
    }
  }

  lemma FlightStable(law: Law, hist: History, hist': History, f: Flight)
    requires Extends(hist, hist') && FlightOk(law, hist, f)
    ensures FlightOk(law, hist', f)
  {
    match f
    case SaveOut(_, uid, items) =>
      forall j | 0 <= j < |items|
        ensures ItemOk(law, hist', uid, items[j])
      {
        assert HistAt(hist, Loc(uid, items[j].key)) <= HistAt(hist', Loc(uid, items[j].key));
      }
    case _ =>
  }

  /** Accepting a save appends one value to each submitted key and touches nothing else. */
  lemma {:induction false} AcceptIs(cells: Cells, hist: History, mid: nat, uid: nat, items: seq<SaveItem>)
    requires KeysDistinct(ItemKeys(items))
    ensures var cells', hist' := ApplyItems(cells, uid, items), AppendItems(hist, mid, uid, items);
            && (forall j :: 0 <= j < |items| ==>
                  var loc := Loc(uid, items[j].key);
                  && loc in cells' && cells'[loc] == Cell(items[j].version, items[j].value)
                  && HistAt(hist', loc) == HistAt(hist, loc) + [Write(mid, items[j].basis, items[j].value)])
            && (forall loc: Loc :: (loc.uid != uid || loc.key !in ItemKeys(items)) ==>
                  && (loc in cells' <==> loc in cells) && (loc in cells ==> cells'[loc] == cells[loc])
                  && HistAt(hist', loc) == HistAt(hist, loc))
    decreases |items|
  {
    if items != [] {
      var front, it := items[..|items| - 1], items[|items| - 1];
      assert items == front + [it] && ItemKeys(items) == ItemKeys(front) + [it.key];
      forall j | 0 <= j < |front|
        ensures front[j].key != it.key
      {
        assert ItemKeys(items)[j] == items[j].key == front[j].key && ItemKeys(items)[|front|] == it.key;
      }
      assert forall j :: 0 <= j < |front| ==> ItemKeys(front)[j] == ItemKeys(items)[j];
      AcceptIs(cells, hist, mid, uid, front);
      assert it.key !in ItemKeys(front);
    }
  }

  lemma AcceptExtends(law: Law, w: World, mid: nat, uid: nat, items: seq<SaveItem>)
    requires StoreOk(law, w.cells, w.hist) && ItemsOk(law, w.hist, uid, items)
    ensures Extends(w.hist, AppendItems(w.hist, mid, uid, items))
  {
    AcceptIs(w.cells, w.hist, mid, uid, items);
    forall loc: Loc
      ensures HistAt(w.hist, loc) <= HistAt(AppendItems(w.hist, mid, uid, items), loc)
    {
      if loc.uid == uid && loc.key in ItemKeys(items) {
        var j :| 0 <= j < |items| && ItemKeys(items)[j] == loc.key;
        assert loc == Loc(uid, items[j].key);
      }
    }
  }

  /** The basis of an accepted item is the value stored just before it. */
  lemma BasisIsCurrent(law: Law, w: World, uid: nat, it: SaveItem)
    requires StoreOk(law, w.cells, w.hist) && ItemOk(law, w.hist, uid, it)
    requires Version(w.cells, Loc(uid, it.key)) + 1 == it.version
    ensures var loc := Loc(uid, it.key);
            if loc in w.cells then it.basis == w.cells[loc].value else it.basis == law.init(it.key) || it.basis == []
  {
    var loc := Loc(uid, it.key);
    assert loc !in w.cells ==> HistAt(w.hist, loc) == [];
  }

  ghost predicate CellOk(law: Law, cells: Cells, hist: History, loc: Loc) {
    var h := HistAt(hist, loc);
    && (h == [] <==> loc !in cells)
    && (loc in cells ==> |h| > 0 && cells[loc] == Cell(|h|, h[|h| - 1].value))
    && Chain(law, loc.key, h)
  }

  lemma AcceptedItemOk(law: Law, w: World, mid: nat, uid: nat, items: seq<SaveItem>, j: nat)
    requires StoreOk(law, w.cells, w.hist) && ItemsOk(law, w.hist, uid, items) && Accepts(w.cells, uid, items)
    requires j < |items|
    ensures var loc, hist' := Loc(uid, items[j].key), AppendItems(w.hist, mid, uid, items);
            && CellOk(law, ApplyItems(w.cells, uid, items), hist', loc)
            && items[j].version == |HistAt(hist', loc)| && HistAt(hist', loc)[items[j].version - 1] == Write(mid, items[j].basis, items[j].value)
  {
    var loc := Loc(uid, items[j].key);
    AcceptIs(w.cells, w.hist, mid, uid, items);
    BasisIsCurrent(law, w, uid, items[j]);
    assert Chain(law, loc.key, HistAt(w.hist, loc));
    ChainSnoc(law, loc.key, HistAt(w.hist, loc), Write(mid, items[j].basis, items[j].value));
  }

  lemma ChainSnoc(law: Law, key: Key, h: seq<Write>, v: Write)
    requires Chain(law, key, h) && law.made(key, v.basis, v.value)
    requires if h == [] then v.basis == law.init(key) || v.basis == [] else v.basis == h[|h| - 1].value
    ensures Chain(law, key, h + [v])
  {
  }

  lemma AcceptedCellOk(law: Law, w: World, mid: nat, uid: nat, items: seq<SaveItem>, loc: Loc)
    requires StoreOk(law, w.cells, w.hist) && ItemsOk(law, w.hist, uid, items) && Accepts(w.cells, uid, items)
    ensures CellOk(law, ApplyItems(w.cells, uid, items), AppendItems(w.hist, mid, uid, items), loc)
  {
    hide CellOk, Chain, Accepts, ApplyItems, AppendItems;
    if loc.uid == uid && loc.key in ItemKeys(items) {
      var j :| 0 <= j < |items| && ItemKeys(items)[j] == loc.key;
      assert loc == Loc(uid, items[j].key);
      AcceptedItemOk(law, w, mid, uid, items, j);
    } else {
      AcceptIs(w.cells, w.hist, mid, uid, items);
      OtherCellOk(law, w, ApplyItems(w.cells, uid, items), AppendItems(w.hist, mid, uid, items), loc);
    }
  }

  lemma OtherCellOk(law: Law, w: World, cells: Cells, hist: History, loc: Loc)
    requires StoreOk(law, w.cells, w.hist)
    requires (loc in cells <==> loc in w.cells) && (loc in w.cells ==> cells[loc] == w.cells[loc])
    requires HistAt(hist, loc) == HistAt(w.hist, loc)
    ensures CellOk(law, cells, hist, loc)
  {
    hide Chain;
    assert Chain(law, loc.key, HistAt(w.hist, loc));
  }

  lemma CellsOk(law: Law, cells: Cells, hist: History)
    requires forall loc: Loc :: CellOk(law, cells, hist, loc)
    ensures StoreOk(law, cells, hist)
  {
    forall loc: Loc
      ensures HistAt(hist, loc) == [] <==> loc !in cells
      ensures loc in cells ==> |HistAt(hist, loc)| > 0 && cells[loc] == Cell(|HistAt(hist, loc)|, HistAt(hist, loc)[|HistAt(hist, loc)| - 1].value)
      ensures Chain(law, loc.key, HistAt(hist, loc))
    {
      assert CellOk(law, cells, hist, loc);
    }
  }

  lemma AcceptKeepsStore(law: Law, w: World, mid: nat, uid: nat, items: seq<SaveItem>)
    requires StoreOk(law, w.cells, w.hist) && ItemsOk(law, w.hist, uid, items) && Accepts(w.cells, uid, items)
    ensures StoreOk(law, ApplyItems(w.cells, uid, items), AppendItems(w.hist, mid, uid, items))
    ensures ItemsStored(AppendItems(w.hist, mid, uid, items), uid, items)
  {
    forall loc: Loc
      ensures CellOk(law, ApplyItems(w.cells, uid, items), AppendItems(w.hist, mid, uid, items), loc)
    {
      AcceptedCellOk(law, w, mid, uid, items, loc);
    }
    CellsOk(law, ApplyItems(w.cells, uid, items), AppendItems(w.hist, mid, uid, items));
    forall j | 0 <= j < |items|
      ensures var h := HistAt(AppendItems(w.hist, mid, uid, items), Loc(uid, items[j].key));
              items[j].version == |h| && h[items[j].version - 1].value == items[j].value
    {
      AcceptedItemOk(law, w, mid, uid, items, j);
    }
  }

  lemma LookupOk(law: Law, cells: Cells, hist: History, uid: nat, keys: seq<Key>)
    requires StoreOk(law, cells, hist)
    ensures ReplyOk(hist, uid, LookupAll(cells, uid, keys))
  {
  }

  /** Growing the histories and answering one flight disturbs nothing else. */
  lemma AnswerKeeps(law: Law, w: World, mid: nat, f: Flight, cells: Cells, hist: History)
    requires Inv(law, w) && mid in w.net && Extends(w.hist, hist) && StoreOk(law, cells, hist)
    requires f.sid == w.net[mid].sid && f.uid == w.net[mid].uid && FlightOk(law, hist, f)
    requires if w.net[mid].QueryOut? then f.QueryBack? else w.net[mid].SaveOut? && f.SaveBack? && f.items == w.net[mid].items
    ensures Inv(law, w.(net := w.net[mid := f], cells := cells, hist := hist))
  {
    hide StoreOk, FlightOk, DataOk;
    var w' := w.(net := w.net[mid := f], cells := cells, hist := hist);
    forall m | m in w'.net
      ensures FlightOk(law, hist, w'.net[m])
      ensures w'.net[m].sid in w'.live ==> Waits(law, hist, w'.live[w'.net[m].sid], w'.net[m])
    {
      if m != mid {
        FlightStable(law, w.hist, hist, w.net[m]);
      }
      if w.net[m].sid in w.live {
        var d := w.live[w.net[m].sid];
        assert Waits(law, w.hist, d, w.net[m]);
        if w.net[m].QueryOut? || w.net[m].QueryBack? {
          DataStable(law, w.hist, hist, d, 0, []);
        } else {
          DataStable(law, w.hist, hist, d, w.net[m].uid, w.net[m].items);
        }
      }
    }
    forall sid | sid in w.live && w.live[sid].state == WaitResponse
      ensures DataOk(law, hist, w.live[sid], 0, [])
    {
      DataStable(law, w.hist, hist, w.live[sid], 0, []);
    }
  }

  lemma StoreStepKeeps(law: Law, w: World, mid: nat)
    requires LawOk(law) && Inv(law, w)
    ensures Inv(law, StoreStep(w, mid))
  {
    if mid in w.net {
      match w.net[mid]
      case QueryOut(sid, uid, keys) =>
        LookupOk(law, w.cells, w.hist, uid, keys);
        AnswerKeeps(law, w, mid, QueryBack(sid, uid, QueryReply(w.cells, uid, keys)), w.cells, w.hist);
      case SaveOut(sid, uid, items) =>
        var f := SaveBack(sid, uid, SaveReply(w.cells, uid, items), items);
        assert ItemsOk(law, w.hist, uid, items) by {
          assert FlightOk(law, w.hist, w.net[mid]);
        }
        if Accepts(w.cells, uid, items) {
          AcceptExtends(law, w, mid, uid, items);
          AcceptKeepsStore(law, w, mid, uid, items);
          AnswerKeeps(law, w, mid, f, ApplyItems(w.cells, uid, items), AppendItems(w.hist, mid, uid, items));
        } else {
          LookupOk(law, w.cells, w.hist, uid, ItemKeys(items));
          AnswerKeeps(law, w, mid, f, w.cells, w.hist);
        }
      case _ =>
    }
  }

  // ---------------------------------------------------------------------------------------
  // Runs
  // ---------------------------------------------------------------------------------------

  /** A session with nothing in flight calls `Process` on sound data through its handler. */
  lemma ResumeKeeps(law: Law, w: World, sid: nat, d: SessionData, h: Hooks)
    requires LawOk(law) && GoodHooks(law, h) && Inv(law, w) && sid < w.nextSid
    requires forall mid :: mid in w.net ==> w.net[mid].sid != sid
    requires DataOk(law, w.hist, d, 0, []) && (d.state == OnMessage || d.state == WaitResponse)
    ensures Inv(law, Resume(w, sid, d, h, OtherRsp))
  {
    var (d', result) := FirstStep(h, d, OtherRsp);
    HandlerRunOk(law, h, w.hist, d, d', result);
    OnlySuspendedSends(h, d', result);
    DropSession(law, w, sid);
    InstallKeeps(law, w, sid, ProcessOnce(h, d, OtherRsp));
  }

  lemma StepKeeps(law: Law, w: World, a: Action)
    requires LawOk(law) && ActionOk(law, a) && Inv(law, w)
    ensures Inv(law, Step(law, w, a))
  {
    match a
    case Begin(h) =>
      var w1 := w.(nextSid := w.nextSid + 1);
      assert Inv(law, w1);
      ResumeKeeps(law, w1, w.nextSid, SessionData(OnMessage, [], 0, 0, [], 0), h);
    case StoreHandles(mid) => StoreStepKeeps(law, w, mid);
    case Deliver(mid, h) =>
      if mid in w.net && (w.net[mid].QueryBack? || w.net[mid].SaveBack?) {
        if w.net[mid].sid in w.live {
          DeliverKeeps(law, w, mid, h);
        } else {
          DropFlight(law, w, mid);
        }
      }
    case ServerReplies(sid, h) =>
      if sid in w.live && w.live[sid].state == WaitResponse {
        forall mid | mid in w.net
          ensures w.net[mid].sid != sid
        {
          assert w.net[mid].sid in w.live ==> Waits(law, w.hist, w.live[w.net[mid].sid], w.net[mid]);
        }
        ResumeKeeps(law, w, sid, w.live[sid], h);
      }
    case Lose(mid) => DropFlight(law, w, mid);
    case Expire(sid) => DropSession(law, w, sid);
  }

  lemma {:induction false} RunKeeps(law: Law, w: World, actions: seq<Action>)
    requires LawOk(law) && (forall a :: a in actions ==> ActionOk(law, a)) && Inv(law, w)
    ensures Inv(law, Run(law, w, actions))
    decreases |actions|
  {
    if actions != [] {
      assert actions[0] in actions;
      StepKeeps(law, w, actions[0]);
      RunKeeps(law, Step(law, w, actions[0]), actions[1..]);
    }
  }

  /** In every run, whatever the sessions and the network do: every key's version counts the
      writes accepted for it, its value is that of the last one, and each write was computed
      from the value stored just before it: nothing stored in between is lost. */
  lemma StoredValuesAreAChain(law: Law, actions: seq<Action>, loc: Loc)
    requires LawOk(law) && forall a :: a in actions ==> ActionOk(law, a)
    ensures var w := Run(law, INIT, actions);
            var h := HistAt(w.hist, loc);
            && (loc in w.cells <==> h != [])
            && (h != [] ==> w.cells[loc] == Cell(|h|, h[|h| - 1].value))
            && (h != [] ==> h[0].basis == law.init(loc.key) || h[0].basis == [])
            && (forall i :: 0 < i < |h| ==> h[i].basis == h[i - 1].value)
            && (forall i :: 0 <= i < |h| ==> law.made(loc.key, h[i].basis, h[i].value))
  {
    RunKeeps(law, INIT, actions);
    assert Chain(law, loc.key, HistAt(Run(law, INIT, actions).hist, loc));
  }

  /** A save that the store accepts was computed, for every key in it, from the value stored at
      that moment; a refused save changes nothing. */
  lemma AcceptedSaveReadTheCurrentValue(law: Law, actions: seq<Action>, mid: nat, j: nat)
    requires LawOk(law) && forall a :: a in actions ==> ActionOk(law, a)
    requires var w := Run(law, INIT, actions); mid in w.net && w.net[mid].SaveOut? && j < |w.net[mid].items|
    ensures var w := Run(law, INIT, actions);
            var uid, it, w' := w.net[mid].uid, w.net[mid].items[j], StoreStep(w, mid);
            var loc := Loc(uid, it.key);
            if Accepts(w.cells, uid, w.net[mid].items) then
              && (if loc in w.cells then it.basis == w.cells[loc].value else it.basis == law.init(it.key) || it.basis == [])
              && law.made(it.key, it.basis, it.value)
              && loc in w'.cells && w'.cells[loc] == Cell(Version(w.cells, loc) + 1, it.value)
            else w'.cells == w.cells && w'.hist == w.hist
  {
    RunKeeps(law, INIT, actions);
    var w := Run(law, INIT, actions);
    var f := w.net[mid];
    assert FlightOk(law, w.hist, f);
    if Accepts(w.cells, f.uid, f.items) {
      BasisIsCurrent(law, w, f.uid, f.items[j]);
      AcceptIs(w.cells, w.hist, mid, f.uid, f.items);
    }
  }
}
