/** What happens around a version conflict: what the rerun sees, and which events are posted. */
module Redo {
  import opened Shared
  import opened Sessions
  import opened MessageBases
  import opened MessageHandlers
  import opened KVStores

  // ---------------------------------------------------------------------------------------
  // What the rerun sees
  // ---------------------------------------------------------------------------------------

  /** The key is marked as modified and its value has at most 32 kB. */
  predicate Submits(entries: map<Key, Entry>, key: Key) {
    key in entries && entries[key].dirty && |entries[key].value| <= 32768
  }

  /** What is submitted for a key: the value that the session holds, under the next version. */
  function ItemFor(entries: map<Key, Entry>, key: Key): SaveItem
    requires key in entries
  {
    SaveItem(key, entries[key].value, entries[key].version + 1, entries[key].base)
  }

  /** The keys among `keys` that are submitted, each once. */
  ghost predicate ItemsAre(entries: map<Key, Entry>, keys: seq<Key>, items: seq<SaveItem>) {
    && (forall k :: k in ItemKeys(items) <==> k in keys && Submits(entries, k))
    && KeysDistinct(ItemKeys(items))
    && (forall j :: 0 <= j < |items| ==> items[j].key in entries && items[j] == ItemFor(entries, items[j].key))
  }

  /** Submitted keys count as unmodified under their next version, the others are as they were. */
  ghost predicate EntriesAre(entries: map<Key, Entry>, submitted: seq<Key>, after: map<Key, Entry>) {
    && (forall k :: k !in submitted ==> (k in after <==> k in entries) && (k in entries ==> after[k] == entries[k]))
    && (forall k :: k in submitted && k in entries ==>
          k in after && after[k] == Entry(entries[k].version + 1, entries[k].value, false, entries[k].value))
  }

  /** What the loop has done so far. */
  ghost predicate SavedSoFar(entries: map<Key, Entry>, keys: seq<Key>, sv: Saving) {
    ItemsAre(entries, keys, sv.items) && EntriesAre(entries, ItemKeys(sv.items), sv.entries)
  }

  lemma OneKeySaved(entries: map<Key, Entry>, front: seq<Key>, sv: Saving, key: Key)
    requires SavedSoFar(entries, front, sv) && sv.known && Known(key)
    ensures SavedSoFar(entries, front + [key], SaveKey(sv, key))
  {
    hide SavedSoFar;
    Unsaved(entries, front, sv, key);
    if key in sv.entries && Submits(sv.entries, key) {
      OneKeySubmitted(entries, front, sv, key);
    } else {
      OneKeyPassed(entries, front, sv, key);
    }
  }

  /** A key is still to be submitted exactly if it was not submitted before. */
  lemma Unsaved(entries: map<Key, Entry>, front: seq<Key>, sv: Saving, key: Key)
    requires SavedSoFar(entries, front, sv)
    ensures key in sv.entries && Submits(sv.entries, key) <==> key !in ItemKeys(sv.items) && Submits(entries, key)
    ensures key in sv.entries && Submits(sv.entries, key) ==> sv.entries[key] == entries[key]
  {
    if key in ItemKeys(sv.items) {
      var j :| 0 <= j < |sv.items| && ItemKeys(sv.items)[j] == key;
    }
  }

  lemma OneKeySubmitted(entries: map<Key, Entry>, front: seq<Key>, sv: Saving, key: Key)
    requires SavedSoFar(entries, front, sv) && sv.known && Known(key)
    requires key in sv.entries && key in entries && sv.entries[key] == entries[key]
    requires key !in ItemKeys(sv.items) && Submits(entries, key)
    ensures SavedSoFar(entries, front + [key], SaveKey(sv, key))
  {
    hide ItemsAre, EntriesAre;
    var sv' := SaveKey(sv, key);
    assert sv'.items == sv.items + [ItemFor(entries, key)];
    assert ItemKeys(sv'.items) == ItemKeys(sv.items) + [key];
    ItemAdded(entries, front, sv.items, key);
    EntryRaised(entries, ItemKeys(sv.items), sv.entries, key);
  }

  lemma ItemAdded(entries: map<Key, Entry>, front: seq<Key>, items: seq<SaveItem>, key: Key)
    requires ItemsAre(entries, front, items) && key !in ItemKeys(items) && Submits(entries, key)
    ensures ItemsAre(entries, front + [key], items + [ItemFor(entries, key)])
  {
    assert ItemKeys(items + [ItemFor(entries, key)]) == ItemKeys(items) + [key];
  }

  lemma EntryRaised(entries: map<Key, Entry>, submitted: seq<Key>, after: map<Key, Entry>, key: Key)
    requires EntriesAre(entries, submitted, after) && key in entries
    ensures EntriesAre(entries, submitted + [key], after[key := Entry(entries[key].version + 1, entries[key].value, false, entries[key].value)])
  {
  }

  lemma OneKeyPassed(entries: map<Key, Entry>, front: seq<Key>, sv: Saving, key: Key)
    requires SavedSoFar(entries, front, sv) && sv.known && Known(key)
    requires !(key in sv.entries && Submits(sv.entries, key)) && (key in ItemKeys(sv.items) || !Submits(entries, key))
    ensures SavedSoFar(entries, front + [key], SaveKey(sv, key))
  {
    assert SaveKey(sv, key) == sv;
  }

  /** The submitted keys are exactly those that were fetched and modified. */
  lemma {:induction false} SubmittedKeys(entries: map<Key, Entry>, keys: seq<Key>)
    requires SaveKeys(entries, keys).known
    ensures SavedSoFar(entries, keys, SaveKeys(entries, keys))
    decreases |keys|
  {
    if keys != [] {
      var front, key := keys[..|keys| - 1], keys[|keys| - 1];
      SubmittedKeys(entries, front);
      OneKeySaved(entries, front, SaveKeys(entries, front), key);
      assert keys == front + [key];
    }
  }

  function FromCell(cell: Cell): Entry {
    Entry(cell.version, cell.value, false, cell.value)
  }

  /** A key that was never stored starts with its initial value; base_info and gold_info then count
      as modified. */
  function Initial(init: Key -> Value, key: Key): Entry {
    Entry(0, init(key), key == 10 || key == 11, init(key))
  }

  /** What looking up `keys` in the store and parsing the result gives. */
  lemma {:induction false} ParsedLookup(init: Key -> Value, cells: Cells, uid: nat, keys: seq<Key>, key: Key)
    requires ParseData(init, LookupAll(cells, uid, keys)).Some?
    ensures var entries := ParseData(init, LookupAll(cells, uid, keys)).value;
            && (key in entries <==> key in keys && (Loc(uid, key) in cells || HasInit(key)))
            && (key in entries ==>
                 entries[key] == if Loc(uid, key) in cells then FromCell(cells[Loc(uid, key)]) else Initial(init, key))
    decreases |keys|
  {
    if keys != [] {
      var front := keys[..|keys| - 1];
      assert LookupAll(cells, uid, keys)[..|keys| - 1] == LookupAll(cells, uid, front);
      assert keys == front + [keys[|keys| - 1]];
      ParsedLookup(init, cells, uid, front, key);
    }
  }

  /** The refused save of `d`, the reply to it, and the session in which the reply arrives. */
  ghost predicate Conflict(h: Hooks, d: SessionData, cells: Cells) {
    var (d1, sent) := SaveOne(d);
    && sent != [] && sent[0].SaveReq?
    && Reruns(h, d1, SaveReply(cells, sent[0].uid, sent[0].items))
  }

  ghost function Rerun(h: Hooks, d: SessionData, cells: Cells): SessionData
    requires Conflict(h, d, cells)
  {
    var (d1, sent) := SaveOne(d);
    RerunInput(h, d1, SaveReply(cells, sent[0].uid, sent[0].items))
  }

  /** After a conflict the player is replaced by the keys that were submitted: the rerun sees a
      key if and only if it had been fetched and modified, and is stored or has an initial
      value.  A key that was fetched but not modified is gone, whatever it held. */
  lemma RerunSeesOnlySubmittedKeys(h: Hooks, d: SessionData, cells: Cells, key: Key)
    requires Conflict(h, d, cells)
    ensures var x, process := Rerun(h, d, cells), d.processs[d.processIndex];
            var player := CurrentPlayer(process);
            var i := Find(d.processs, player.uid);
            && x.events == [] && i >= 0 && |x.processs| == |d.processs|
            && (forall j :: 0 <= j < |d.processs| && j != i && j != d.processIndex ==> x.processs[j] == d.processs[j])
            && x.processs[i].player.Some?
            && (key in x.processs[i].player.value.entries <==>
                 key in process.keys && Submits(player.entries, key) && (Loc(player.uid, key) in cells || HasInit(key)))
            && (key in x.processs[i].player.value.entries ==>
                 x.processs[i].player.value.entries[key]
                 == if Loc(player.uid, key) in cells then FromCell(cells[Loc(player.uid, key)]) else Initial(h.init, key))
  {
    var process := d.processs[d.processIndex];
    var player := CurrentPlayer(process);
    var sv := SaveKeys(player.entries, process.keys);
    var (d1, sent) := SaveOne(d);
    assert sent == [SaveReq(player.uid, sv.items)];
    assert Find(d1.processs, player.uid) == Find(d.processs, player.uid) by {
      assert forall k :: 0 <= k < |d.processs| ==> d1.processs[k].uid == d.processs[k].uid;
    }
    SubmittedKeys(player.entries, process.keys);
    ParsedLookup(h.init, cells, player.uid, ItemKeys(sv.items), key);
  }

  /** Two keys are fetched and one of them is modified, and meanwhile another session has
      changed that one: the rerun sees the new value of the one, and the other is gone. */
  lemma UnmodifiedKeyIsGone(h: Hooks)
    ensures var entries := map[K_BASE := Entry(1, [1], false, [1]), K_GOLD := Entry(1, [6], true, [5])];
            var d := SessionData(OnMessage, [DBProcess(1, [K_BASE, K_GOLD], Some(Player(1, entries)))], 0, 0, [], 0);
            var cells: Cells := map[Loc(1, K_BASE) := Cell(1, [1]), Loc(1, K_GOLD) := Cell(2, [7])];
            && Conflict(h, d, cells)
            && Rerun(h, d, cells).processs[0].player == Some(Player(1, map[K_GOLD := Entry(2, [7], false, [7])]))
  {
    var entries := map[K_BASE := Entry(1, [1], false, [1]), K_GOLD := Entry(1, [6], true, [5])];
    var keys := [K_BASE, K_GOLD];
    var cells: Cells := map[Loc(1, K_BASE) := Cell(1, [1]), Loc(1, K_GOLD) := Cell(2, [7])];
    var items := [SaveItem(K_GOLD, [6], 2, [5])];
    GoldSubmitted(entries);
    assert ItemKeys(items) == [K_GOLD];
    var datas := LookupAll(cells, 1, [K_GOLD]);
    assert datas == [KVData(K_GOLD, Some([7]), 2)];
    assert ParseData(h.init, datas[..0]) == Some(map[]);
    assert ParseData(h.init, datas) == Some(map[K_GOLD := Entry(2, [7], false, [7])]);
    assert Version(cells, Loc(1, K_GOLD)) + 1 != items[0].version;
  }

  lemma GoldSubmitted(entries: map<Key, Entry>)
    requires entries == map[K_BASE := Entry(1, [1], false, [1]), K_GOLD := Entry(1, [6], true, [5])]
    ensures SaveKeys(entries, [K_BASE, K_GOLD]).known
    ensures SaveKeys(entries, [K_BASE, K_GOLD]).items == [SaveItem(K_GOLD, [6], 2, [5])]
  {
    var keys := [K_BASE, K_GOLD];
    assert keys[..1] == [K_BASE] && keys[..1][..0] == [];
    assert SaveKeys(entries, [K_BASE]) == Saving(true, entries, []);
  }

  // ---------------------------------------------------------------------------------------
  // Which events are posted
  // ---------------------------------------------------------------------------------------

  /** Whatever a session did before it was told of a conflict, and whichever replies it waits for
      afterwards: from the conflict on it does what a session with no events does. */
  lemma EventsStartWithTheRerun(
      d: SessionData, before: seq<(Hooks, Response)>, h: Hooks, r: Response, after: seq<(Hooks, Response)>)
    requires (forall c :: c in before ==> Terminates(c.0)) && Terminates(h) && (forall c :: c in after ==> Terminates(c.0))
    requires Serve(Waiting(d), before).fate == Suspended && Reruns(h, Serve(Waiting(d), before).data, r)
    ensures forall c :: c in before + [(h, r)] + after ==> Terminates(c.0)
    ensures var x := RerunInput(h, Serve(Waiting(d), before).data, r);
            && x.events == []
            && Serve(Waiting(d), before + [(h, r)] + after) == Serve(Loop(h, h.onQuerySuccess(x).0, h.onQuerySuccess(x).1), after)
  {
    var o := Serve(Waiting(d), before);
    ServeAppend(Waiting(d), before, [(h, r)]);
    ServeAppend(Waiting(d), before + [(h, r)], after);
    assert [(h, r)][1..] == [] && [(h, r)][0] == (h, r);
    assert Serve(o, [(h, r)]) == ProcessOnce(h, o.data, r);
  }

  /** One run of the logic on the session `x`, which ended by sending a save and left `d`. */
  ghost predicate Attempt(h: Hooks, x: SessionData, d: SessionData) {
    && Terminates(h) && h.onQuerySuccess(x).1 == Save
    && Loop(h, h.onQuerySuccess(x).0, Save) == Outcome(d, SaveOne(h.onQuerySuccess(x).0).1, Suspended)
  }

  /** A conflict after which the logic asks for a save again, as it does with a single uid. */
  ghost predicate Retries(h: Hooks, d: SessionData, r: Response) {
    Terminates(h) && Reruns(h, d, r) && SaveResponse(h, d, r).1 == Save && ProcessOnce(h, d, r).fate == Suspended
  }

  /** The session after the conflicts in `calls`. */
  ghost predicate Retried(d: SessionData, calls: seq<(Hooks, Response)>, d': SessionData)
    decreases |calls|
  {
    if calls == [] then d' == d
    else
      var (h, r) := calls[0];
      Retries(h, d, r) && Retried(ProcessOnce(h, d, r).data, calls[1..], d')
  }

  /** After any number of conflicts and reruns, the attempt whose save was sent last started
      without events, unless it is still the first one. */
  lemma {:induction false} LastAttempt(h: Hooks, x: SessionData, d: SessionData, calls: seq<(Hooks, Response)>, d': SessionData)
    returns (h': Hooks, x': SessionData)
    requires Attempt(h, x, d) && Retried(d, calls, d')
    ensures Attempt(h', x', d')
    ensures calls == [] ==> h' == h && x' == x
    ensures calls != [] ==> x'.events == [] && h' == calls[|calls| - 1].0
    decreases |calls|
  {
    h', x' := h, x;
    if calls != [] {
      var (h1, r) := calls[0];
      var x1, d1 := RerunInput(h1, d, r), ProcessOnce(h1, d, r).data;
      assert SaveResponse(h1, d, r) == h1.onQuerySuccess(x1);
      assert Attempt(h1, x1, d1);
      h', x' := LastAttempt(h1, x1, d1, calls[1..], d');
    }
  }

  /** When the save is at last accepted, the events posted are those of the attempt that was
      accepted: what the rejected attempts had logged is gone. */
  lemma PostedEventsAreOfAcceptedAttempt(
      h: Hooks, x: SessionData, d: SessionData, calls: seq<(Hooks, Response)>, d': SessionData, h': Hooks, r: Response)
    returns (hLast: Hooks, xLast: SessionData)
    requires Attempt(h, x, d) && Retried(d, calls, d')
    requires Terminates(h') && SavePart(r).0 == Success
    requires forall y :: h'.onSaveSuccess(y).0.events == y.events && h'.onSaveSuccess(y).1 == Done
    ensures Attempt(hLast, xLast, d') && (calls != [] ==> xLast.events == [])
    ensures ProcessOnce(h', d', r).fate == Finished(hLast.onQuerySuccess(xLast).0.events)
  {
    hLast, xLast := LastAttempt(h, x, d, calls, d');
  }

  /** The handlers log what `own` says, whatever was logged before. */
  ghost predicate Logs(h: Hooks, own: Hooks -> seq<Event>) {
    forall y :: h.onQuerySuccess(y).0.events == y.events + own(h)
  }

  /** When the session covers several uids, `x` has the events of the saves already accepted for
      the earlier ones.  They are posted if and only if the save for this uid never met a
      conflict: the first conflict discards them, although what they report is stored. */
  lemma EarlierEventsAreLostWithConflicts(
      h: Hooks, x: SessionData, d: SessionData, calls: seq<(Hooks, Response)>, d': SessionData, h': Hooks, r: Response,
      own: Hooks -> seq<Event>)
    requires Attempt(h, x, d) && Retried(d, calls, d')
    requires Terminates(h') && SavePart(r).0 == Success
    requires forall y :: h'.onSaveSuccess(y).0.events == y.events && h'.onSaveSuccess(y).1 == Done
    requires Logs(h, own) && forall c :: c in calls ==> Logs(c.0, own)
    ensures ProcessOnce(h', d', r).fate
         == Finished(if calls == [] then x.events + own(h) else own(calls[|calls| - 1].0))
  {
    var hLast, xLast := LastAttempt(h, x, d, calls, d');
    assert ProcessOnce(h', d', r).fate == Finished(hLast.onQuerySuccess(xLast).0.events);
    if calls != [] {
      assert calls[|calls| - 1] in calls && Logs(hLast, own);
      assert [] + own(hLast) == own(hLast);
    }
  }

  /** Each conflict counts. */
  lemma {:induction false} ConflictsCounted(h: Hooks, x: SessionData, d: SessionData, calls: seq<(Hooks, Response)>, d': SessionData)
    requires Attempt(h, x, d) && Retried(d, calls, d')
    requires forall c :: c in calls ==> KeepsRedoCount(c.0)
    ensures d'.redoCount == d.redoCount + |calls|
    decreases |calls|
  {
    if calls != [] {
      var (h1, r) := calls[0];
      assert calls[0] in calls;
      var x1, d1 := RerunInput(h1, d, r), ProcessOnce(h1, d, r).data;
      assert SaveResponse(h1, d, r) == h1.onQuerySuccess(x1) && Attempt(h1, x1, d1);
      LoopKeepsRedoCount(h1, h1.onQuerySuccess(x1).0, Save);
      ConflictsCounted(h1, x1, d1, calls[1..], d');
    }
  }

  /** After four conflicts, a fifth reaches the redo limit.  The events of the attempt that was
      just refused are still in the session: they are posted exactly when the failure handler
      answers that the session is done. */
  lemma RejectedEventsPosted(
      h: Hooks, x: SessionData, d: SessionData, calls: seq<(Hooks, Response)>, d': SessionData, h': Hooks, r: Response)
    returns (hLast: Hooks, xLast: SessionData)
    requires Attempt(h, x, d) && Retried(d, calls, d') && d.redoCount + |calls| == MAX_DB_REDO_TIME - 1
    requires forall c :: c in calls ==> KeepsRedoCount(c.0)
    requires Terminates(h') && SavePart(r).0 == VerDiff
    requires forall y :: h'.onSaveFailed(y).0.events == y.events && h'.onSaveFailed(y).1 in {Done, Fail}
    ensures Attempt(hLast, xLast, d') && (calls != [] ==> xLast.events == [])
    ensures ProcessOnce(h', d', r).fate
         == if h'.onSaveFailed(d'.(redoCount := MAX_DB_REDO_TIME)).1 == Done then Finished(hLast.onQuerySuccess(xLast).0.events)
            else Aborted
  {
    ConflictsCounted(h, x, d, calls, d');
    hLast, xLast := LastAttempt(h, x, d, calls, d');
  }
}
