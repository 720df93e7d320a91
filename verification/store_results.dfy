/** What the store holds after any run: each acknowledged save exactly once, and all of them
    folded together in the order in which they were accepted. */
module StoreResults {
  import opened Shared
  import opened Sessions
  import opened MessageBases
  import opened MessageHandlers
  import opened KVStores
  import opened StoreProtocol

  // ---------------------------------------------------------------------------------------
  // An acknowledged save counts exactly once
  // ---------------------------------------------------------------------------------------

  /** No accepted write was brought by message `mid`. */
  ghost predicate Unknown(hist: History, mid: nat) {
    forall loc: Loc, i :: 0 <= i < |HistAt(hist, loc)| ==> HistAt(hist, loc)[i].mid != mid
  }

  /** Each item brought by message `mid` is written at the place of its version. */
  ghost predicate Booked(hist: History, mid: nat, uid: nat, items: seq<SaveItem>) {
    forall j :: 0 <= j < |items| ==>
      var h := HistAt(hist, Loc(uid, items[j].key));
      0 < items[j].version <= |h| && h[items[j].version - 1] == Write(mid, items[j].basis, items[j].value)
  }

  ghost predicate WritesDistinct(h: seq<Write>) {
    forall i, j :: 0 <= i < j < |h| ==> h[i].mid != h[j].mid
  }

  ghost predicate SettledOk(hist: History, mid: nat, f: Flight) {
    && (f.SaveOut? ==> Unknown(hist, mid))
    && (f.SaveBack? ==> if f.reply.SaveRsp? && f.reply.result == Success then Booked(hist, mid, f.uid, f.items) else Unknown(hist, mid))
  }

  ghost predicate OnceOk(w: World) {
    && (forall mid :: mid >= w.nextMid ==> Unknown(w.hist, mid))
    && (forall loc: Loc :: WritesDistinct(HistAt(w.hist, loc)))
    && (forall mid :: mid in w.net ==> SettledOk(w.hist, mid, w.net[mid]))
  }

  /** New requests bring messages that no write knows. */
  lemma InstallSettles(w: World, sid: nat, o: Outcome)
    requires OnceOk(w) && forall mid :: mid in w.net ==> mid < w.nextMid
    ensures OnceOk(Install(w, sid, o))
  {
    LaunchIs(w.net, w.nextMid, sid, o.sent);
    var w' := Install(w, sid, o);
    forall mid | mid in w'.net
      ensures SettledOk(w'.hist, mid, w'.net[mid])
    {
      if mid !in w.net {
        assert Unknown(w.hist, mid);
      }
    }
  }

  lemma AcceptedWrites(law: Law, w: World, mid: nat, uid: nat, items: seq<SaveItem>, loc: Loc)
    requires StoreOk(law, w.cells, w.hist) && ItemsOk(law, w.hist, uid, items)
    ensures var h, h' := HistAt(w.hist, loc), HistAt(AppendItems(w.hist, mid, uid, items), loc);
            h' == h || (|h'| == |h| + 1 && h' == h + [h'[|h|]] && h'[|h|].mid == mid)
  {
    AcceptIs(w.cells, w.hist, mid, uid, items);
    if loc.uid == uid && loc.key in ItemKeys(items) {
      var j :| 0 <= j < |items| && ItemKeys(items)[j] == loc.key;
      assert loc == Loc(uid, items[j].key);
    }
  }

  lemma OthersUnknown(law: Law, w: World, mid: nat, uid: nat, items: seq<SaveItem>, m: nat)
    requires StoreOk(law, w.cells, w.hist) && ItemsOk(law, w.hist, uid, items)
    requires Unknown(w.hist, m) && m != mid
    ensures Unknown(AppendItems(w.hist, mid, uid, items), m)
  {
    var hist' := AppendItems(w.hist, mid, uid, items);
    forall loc: Loc, i | 0 <= i < |HistAt(hist', loc)|
      ensures HistAt(hist', loc)[i].mid != m
    {
      AcceptedWrites(law, w, mid, uid, items, loc);
    }
  }

  lemma BookedStays(hist: History, hist': History, mid: nat, uid: nat, items: seq<SaveItem>)
    requires Extends(hist, hist') && Booked(hist, mid, uid, items)
    ensures Booked(hist', mid, uid, items)
  {
    forall j | 0 <= j < |items|
      ensures var h := HistAt(hist', Loc(uid, items[j].key));
              0 < items[j].version <= |h| && h[items[j].version - 1] == Write(mid, items[j].basis, items[j].value)
    {
      assert HistAt(hist, Loc(uid, items[j].key)) <= HistAt(hist', Loc(uid, items[j].key));
    }
  }

  lemma AcceptedIsBooked(law: Law, w: World, mid: nat, uid: nat, items: seq<SaveItem>)
    requires StoreOk(law, w.cells, w.hist) && ItemsOk(law, w.hist, uid, items) && Accepts(w.cells, uid, items)
    ensures Booked(AppendItems(w.hist, mid, uid, items), mid, uid, items)
  {
    forall j | 0 <= j < |items|
      ensures var h := HistAt(AppendItems(w.hist, mid, uid, items), Loc(uid, items[j].key));
              0 < items[j].version <= |h| && h[items[j].version - 1] == Write(mid, items[j].basis, items[j].value)
    {
      AcceptedItemOk(law, w, mid, uid, items, j);
    }
  }

  lemma AcceptSettles(law: Law, w: World, mid: nat, sid: nat, uid: nat, items: seq<SaveItem>)
    requires Inv(law, w) && OnceOk(w) && mid in w.net && w.net[mid] == SaveOut(sid, uid, items)
    requires Accepts(w.cells, uid, items)
    ensures OnceOk(StoreStep(w, mid))
  {
    var w' := StoreStep(w, mid);
    assert ItemsOk(law, w.hist, uid, items) by {
      assert FlightOk(law, w.hist, w.net[mid]);
    }
    forall m | m >= w'.nextMid
      ensures Unknown(w'.hist, m)
    {
      OthersUnknown(law, w, mid, uid, items, m);
    }
    forall loc: Loc
      ensures WritesDistinct(HistAt(w'.hist, loc))
    {
      AcceptedWrites(law, w, mid, uid, items, loc);
      assert WritesDistinct(HistAt(w.hist, loc));
    }
    AcceptExtends(law, w, mid, uid, items);
    forall m | m in w'.net
      ensures SettledOk(w'.hist, m, w'.net[m])
    {
      if m == mid {
        AcceptedIsBooked(law, w, mid, uid, items);
      } else {
        StaysSettled(law, w, mid, uid, items, m, w.net[m]);
      }
    }
  }

  lemma StaysSettled(law: Law, w: World, mid: nat, uid: nat, items: seq<SaveItem>, m: nat, f: Flight)
    requires StoreOk(law, w.cells, w.hist) && ItemsOk(law, w.hist, uid, items) && m != mid
    requires Extends(w.hist, AppendItems(w.hist, mid, uid, items)) && SettledOk(w.hist, m, f)
    ensures SettledOk(AppendItems(w.hist, mid, uid, items), m, f)
  {
    if f.SaveBack? && f.reply.SaveRsp? && f.reply.result == Success {
      BookedStays(w.hist, AppendItems(w.hist, mid, uid, items), m, f.uid, f.items);
    } else if f.SaveOut? || f.SaveBack? {
      OthersUnknown(law, w, mid, uid, items, m);
    }
  }

  lemma StoreStepSettles(law: Law, w: World, mid: nat)
    requires Inv(law, w) && OnceOk(w)
    ensures OnceOk(StoreStep(w, mid)) && Extends(w.hist, StoreStep(w, mid).hist)
  {
    if mid in w.net && w.net[mid].SaveOut? && Accepts(w.cells, w.net[mid].uid, w.net[mid].items) {
      assert FlightOk(law, w.hist, w.net[mid]);
      AcceptSettles(law, w, mid, w.net[mid].sid, w.net[mid].uid, w.net[mid].items);
      AcceptExtends(law, w, mid, w.net[mid].uid, w.net[mid].items);
    } else {
      var w' := StoreStep(w, mid);
      forall m | m in w'.net
        ensures SettledOk(w'.hist, m, w'.net[m])
      {
        assert SettledOk(w.hist, m, w.net[m]);
      }
    }
  }

  /** Delivery, loss and expiry add no writes. */
  lemma StepSettles(law: Law, w: World, a: Action)
    requires ActionOk(law, a) && Inv(law, w) && OnceOk(w)
    ensures OnceOk(Step(law, w, a)) && Extends(w.hist, Step(law, w, a).hist)
  {
    match a
    case Begin(h) =>
      InstallSettles(w.(nextSid := w.nextSid + 1), w.nextSid, ProcessOnce(h, SessionData(OnMessage, [], 0, 0, [], 0), OtherRsp));
    case StoreHandles(mid) => StoreStepSettles(law, w, mid);
    case Deliver(mid, h) =>
      if mid in w.net && w.net[mid].sid in w.live && (w.net[mid].QueryBack? || w.net[mid].SaveBack?) {
        var f := w.net[mid];
        InstallSettles(w.(net := w.net - {mid}), f.sid, ProcessOnce(h, w.live[f.sid], f.reply));
      }
    case ServerReplies(sid, h) =>
      if sid in w.live && w.live[sid].state == WaitResponse {
        InstallSettles(w, sid, ProcessOnce(h, w.live[sid], OtherRsp));
      }
    case Lose(mid) =>
    case Expire(sid) =>
  }

  lemma {:induction false} RunSettles(law: Law, w: World, actions: seq<Action>)
    requires LawOk(law) && (forall a :: a in actions ==> ActionOk(law, a)) && Inv(law, w) && OnceOk(w)
    ensures OnceOk(Run(law, w, actions)) && Extends(w.hist, Run(law, w, actions).hist)
    decreases |actions|
  {
    if actions != [] {
      assert actions[0] in actions;
      StepKeeps(law, w, actions[0]);
      StepSettles(law, w, actions[0]);
      RunSettles(law, Step(law, w, actions[0]), actions[1..]);
    }
  }

  /** Message `mid` was answered or lost without being written. */
  ghost predicate Refused(w: World, mid: nat) {
    mid < w.nextMid && Unknown(w.hist, mid) && (mid in w.net ==> !w.net[mid].SaveOut?)
  }

  lemma InstallKeepsRefused(w: World, sid: nat, o: Outcome, m: nat)
    requires Refused(w, m) && forall mid :: mid in w.net ==> mid < w.nextMid
    ensures Refused(Install(w, sid, o), m)
  {
    LaunchIs(w.net, w.nextMid, sid, o.sent);
  }

  lemma StepKeepsRefused(law: Law, w: World, a: Action, m: nat)
    requires ActionOk(law, a) && Inv(law, w) && Refused(w, m)
    ensures Refused(Step(law, w, a), m)
  {
    hide StoreOk, DataOk, Waits, ProcessOnce, Install, Unknown;
    MidsBelow(law, w);
    match a
    case Begin(h) =>
      InstallKeepsRefused(w.(nextSid := w.nextSid + 1), w.nextSid, ProcessOnce(h, SessionData(OnMessage, [], 0, 0, [], 0), OtherRsp), m);
    case StoreHandles(mid) =>
      if mid in w.net && w.net[mid].SaveOut? {
        assert FlightOk(law, w.hist, w.net[mid]);
        OthersUnknown(law, w, mid, w.net[mid].uid, w.net[mid].items, m);
      }
    case Deliver(mid, h) =>
      if mid in w.net && w.net[mid].sid in w.live && (w.net[mid].QueryBack? || w.net[mid].SaveBack?) {
        var f := w.net[mid];
        InstallKeepsRefused(w.(net := w.net - {mid}), f.sid, ProcessOnce(h, w.live[f.sid], f.reply), m);
      }
    case ServerReplies(sid, h) =>
      if sid in w.live && w.live[sid].state == WaitResponse {
        InstallKeepsRefused(w, sid, ProcessOnce(h, w.live[sid], OtherRsp), m);
      }
    case Lose(mid) =>
    case Expire(sid) =>
  }

  lemma {:induction false} RunKeepsRefused(law: Law, w: World, actions: seq<Action>, m: nat)
    requires LawOk(law) && (forall a :: a in actions ==> ActionOk(law, a)) && Inv(law, w) && Refused(w, m)
    ensures Refused(Run(law, w, actions), m)
    decreases |actions|
  {
    if actions != [] {
      assert actions[0] in actions;
      StepKeeps(law, w, actions[0]);
      StepKeepsRefused(law, w, actions[0], m);
      RunKeepsRefused(law, Step(law, w, actions[0]), actions[1..], m);
    }
  }

  /** Each item brought by message `mid` is written once, and at the place of its version. */
  ghost predicate BookedOnce(hist: History, mid: nat, uid: nat, items: seq<SaveItem>) {
    && Booked(hist, mid, uid, items)
    && forall j, i :: 0 <= j < |items| && 0 <= i < |HistAt(hist, Loc(uid, items[j].key))| ==>
         (HistAt(hist, Loc(uid, items[j].key))[i].mid == mid <==> i == items[j].version - 1)
  }

  /** A save answered with success is in the history exactly once for each of its keys, and
      stays there whatever happens later; after any other answer it is never there at all. */
  lemma AcknowledgedExactlyOnce(law: Law, before: seq<Action>, after: seq<Action>, mid: nat)
    requires LawOk(law) && (forall a :: a in before ==> ActionOk(law, a)) && (forall a :: a in after ==> ActionOk(law, a))
    requires var w := Run(law, INIT, before); mid in w.net && w.net[mid].SaveBack?
    ensures var w, w' := Run(law, INIT, before), Run(law, Run(law, INIT, before), after);
            var f := w.net[mid];
            if f.reply.SaveRsp? && f.reply.result == Success then BookedOnce(w'.hist, mid, f.uid, f.items) else Unknown(w'.hist, mid)
  {
    StoreProtocol.RunKeeps(law, INIT, before);
    RunSettles(law, INIT, before);
    var w := Run(law, INIT, before);
    RunSettles(law, w, after);
    var w', f := Run(law, w, after), w.net[mid];
    assert SettledOk(w.hist, mid, f);
    if f.reply.SaveRsp? && f.reply.result == Success {
      BookedStays(w.hist, w'.hist, mid, f.uid, f.items);
      AppearsOnce(w', mid, f.uid, f.items);
    } else {
      RunKeepsRefused(law, w, after, mid);
    }
  }

  lemma AppearsOnce(w: World, mid: nat, uid: nat, items: seq<SaveItem>)
    requires OnceOk(w) && Booked(w.hist, mid, uid, items)
    ensures BookedOnce(w.hist, mid, uid, items)
  {
    forall j | 0 <= j < |items|
      ensures WritesDistinct(HistAt(w.hist, Loc(uid, items[j].key)))
    {
    }
  }

  // ---------------------------------------------------------------------------------------
  // The stored value is the fold of the accepted updates
  // ---------------------------------------------------------------------------------------

  /** Handlers whose changes are operations: `rest` when they save nothing, otherwise at most
      one operation between a load and its save. */
  ghost function OpLaw<Op(!new)>(init: Key -> Value, act: (Op, Value) -> Value): Law {
    Law(init, (k, a, b) => a == b, (k, a, b) => b == a || exists op :: b == act(op, a))
  }

  function Perform<Op>(act: (Op, Value) -> Value, op: Option<Op>, v: Value): Value {
    if op.Some? then act(op.value, v) else v
  }

  function Fold<Op>(act: (Op, Value) -> Value, ops: seq<Option<Op>>, v: Value): Value {
    if ops == [] then v else Perform(act, ops[|ops| - 1], Fold(act, ops[..|ops| - 1], v))
  }

  /** `ops` has, for every write, the operation that its own save performed. */
  ghost predicate OpsOf<Op>(act: (Op, Value) -> Value, h: seq<Write>, ops: seq<Option<Op>>) {
    |ops| == |h| && forall i :: 0 <= i < |h| ==> h[i].value == Perform(act, ops[i], h[i].basis)
  }

  /** However the saves of all sessions race, the stored value is the fold of the operations of
      all accepted saves, in the order in which they were accepted: one for each save, none
      lost and none performed twice. */
  lemma StoredValueIsFoldOfSaves<Op(!new)>(init: Key -> Value, act: (Op, Value) -> Value, actions: seq<Action>, loc: Loc)
    returns (ops: seq<Option<Op>>, start: Value)
    requires forall a :: a in actions ==> ActionOk(OpLaw(init, act), a)
    requires loc in Run(OpLaw(init, act), INIT, actions).cells
    ensures var w := Run(OpLaw(init, act), INIT, actions);
            && (start == init(loc.key) || start == [])
            && OpsOf(act, HistAt(w.hist, loc), ops) && |ops| == w.cells[loc].version
            && w.cells[loc].value == Fold(act, ops, start)
  {
    var law := OpLaw(init, act);
    StoredValuesAreAChain(law, actions, loc);
    var h := HistAt(Run(law, INIT, actions).hist, loc);
    start := h[0].basis;
    ops := ChooseOps(law, act, loc.key, h);
    FoldAlong(act, h, ops, start, |h|);
    assert ops[..|h|] == ops;
  }

  lemma {:induction false} ChooseOps<Op(!new)>(law: Law, act: (Op, Value) -> Value, key: Key, h: seq<Write>) returns (ops: seq<Option<Op>>)
    requires law == OpLaw(law.init, act) && forall i :: 0 <= i < |h| ==> law.made(key, h[i].basis, h[i].value)
    ensures OpsOf(act, h, ops)
    decreases |h|
  {
    if h == [] {
      ops := [];
    } else {
      var front, last := h[..|h| - 1], h[|h| - 1];
      ops := ChooseOps(law, act, key, front);
      if last.value == last.basis {
        ops := ops + [None];
      } else {
        var op :| last.value == act(op, last.basis);
        ops := ops + [Some(op)];
      }
      assert forall i :: 0 <= i < |front| ==> front[i] == h[i];
    }
  }

  lemma {:induction false} FoldAlong<Op>(act: (Op, Value) -> Value, h: seq<Write>, ops: seq<Option<Op>>, start: Value, i: nat)
    requires OpsOf(act, h, ops) && 0 < i <= |h| && h[0].basis == start
    requires forall j :: 0 < j < |h| ==> h[j].basis == h[j - 1].value
    ensures h[i - 1].value == Fold(act, ops[..i], start)
    decreases i
  {
    assert ops[..i][..i - 1] == ops[..i - 1];
    if i > 1 {
      FoldAlong(act, h, ops, start, i - 1);
    }
  }

  function Iterate(f: Value -> Value, n: nat, v: Value): Value {
    if n == 0 then v else f(Iterate(f, n - 1, v))
  }

  /** Handlers that each apply `f` once between a load and its save. */
  ghost function OneUpdate(init: Key -> Value, f: Value -> Value): Law {
    Law(init, (k, a, b) => a == b, (k, a, b) => b == a || b == f(a))
  }

  /** The accepted saves that changed the value. */
  function Changes(h: seq<Write>): (n: nat) {
    if h == [] then 0
    else Changes(h[..|h| - 1]) + if h[|h| - 1].value != h[|h| - 1].basis then 1 else 0
  }

  /** If every update is the same, the stored value is that update iterated exactly as often as
      saves that changed the value were accepted: no update is lost, and none counts twice. */
  lemma StoredValueIsFold(init: Key -> Value, f: Value -> Value, actions: seq<Action>, loc: Loc)
    requires forall a :: a in actions ==> ActionOk(OneUpdate(init, f), a)
    requires loc in Run(OneUpdate(init, f), INIT, actions).cells
    ensures var w := Run(OneUpdate(init, f), INIT, actions);
            var n, v := Changes(HistAt(w.hist, loc)), w.cells[loc].value;
            v == Iterate(f, n, init(loc.key)) || v == Iterate(f, n, [])
  {
    var law := OneUpdate(init, f);
    StoredValuesAreAChain(law, actions, loc);
    var h := HistAt(Run(law, INIT, actions).hist, loc);
    IterateAlong(law, f, loc.key, h, |h|);
    assert h[..|h|] == h;
  }

  lemma {:induction false} IterateAlong(law: Law, f: Value -> Value, key: Key, h: seq<Write>, i: nat)
    requires law == OneUpdate(law.init, f) && 0 < i <= |h| && Chain(law, key, h)
    ensures h[i - 1].value == Iterate(f, Changes(h[..i]), h[0].basis)
    decreases i
  {
    assert h[..i][..i - 1] == h[..i - 1];
    assert law.made(key, h[i - 1].basis, h[i - 1].value);
    if i > 1 {
      IterateAlong(law, f, key, h, i - 1);
    }
  }

  // ---------------------------------------------------------------------------------------
  // Properties that every handler keeps
  // ---------------------------------------------------------------------------------------

  /** Handlers under which the values of one key keep a property. */
  ghost function Preserving(init: Key -> Value, key: Key, good: Value -> bool): Law {
    Law(init, (k, a, b) => k == key && good(a) ==> good(b), (k, a, b) => k == key && good(a) ==> good(b))
  }

  /** A property of a key that every handler keeps, and that holds of the initial and of the
      missing value, holds of every value ever stored under that key. */
  lemma StoredValuesKeep(init: Key -> Value, key: Key, good: Value -> bool, actions: seq<Action>, loc: Loc, i: nat)
    requires good(init(key)) && good([]) && loc.key == key
    requires forall a :: a in actions ==> ActionOk(Preserving(init, key, good), a)
    requires i < |HistAt(Run(Preserving(init, key, good), INIT, actions).hist, loc)|
    ensures good(HistAt(Run(Preserving(init, key, good), INIT, actions).hist, loc)[i].value)
  {
    var law := Preserving(init, key, good);
    StoredValuesAreAChain(law, actions, loc);
    GoodAlong(law, key, good, HistAt(Run(law, INIT, actions).hist, loc), i);
  }

  lemma {:induction false} GoodAlong(law: Law, key: Key, good: Value -> bool, h: seq<Write>, i: nat)
    requires law == Preserving(law.init, key, good) && i < |h| && good(law.init(key)) && good([])
    requires Chain(law, key, h)
    ensures good(h[i].value)
  {
    if i > 0 {
      GoodAlong(law, key, good, h, i - 1);
    }
    assert law.made(key, h[i].basis, h[i].value);
  }
}
