/** One session's protobuf state: the uids it works on, the keys fetched for each, and the data
    that came back.  Values are opaque serialized messages. */
module Sessions {
  import opened Shared
  type Key = nat

  type Value = seq<int>

  type Event = seq<int>

  const K_BASE: Key := 10
  const K_GOLD: Key := 11
  const K_PRIZE: Key := 12
  const K_GAME: Key := 13
  const K_M_BASE: Key := 100
  const K_M_LIPSTICK: Key := 101
  const K_P_BASE: Key := 1000
  const K_G_LIP_PRIZE: Key := 2000

  predicate Known(key: Key) {
    key in {K_BASE, K_GOLD, K_PRIZE, K_GAME, K_M_BASE, K_M_LIPSTICK, K_P_BASE, K_G_LIP_PRIZE}
  }

  /** One sub-message of a player with its `head.version` and its update flag.  `base` is the
      value the current version stands for: what was loaded, or what was last submitted.  No
      code reads it. */
  datatype Entry = Entry(version: nat, value: Value, dirty: bool, base: Value)

  /** A sub-message that is not set: all fields have their defaults, so it serializes to nothing. */
  const ABSENT: Entry := Entry(0, [], false, [])

  datatype Player = Player(uid: nat, entries: map<Key, Entry>)

  datatype DBProcess = DBProcess(uid: nat, keys: seq<Key>, player: Option<Player>)

  datatype SessionState = OnMessage | WaitResponse | WaitQuery | WaitSave

  datatype SessionData = SessionData(
    state: SessionState, processs: seq<DBProcess>, processIndex: nat, redoCount: nat,
    events: seq<Event>, logicState: nat)

  function EntryAt(p: Player, key: Key): Entry {
    if key in p.entries then p.entries[key] else ABSENT
  }

  /** The first process for `uid`, or -1. */
  function Find(processs: seq<DBProcess>, uid: nat): (i: int)
    ensures -1 <= i < |processs|
    ensures i >= 0 ==> processs[i].uid == uid && forall j :: 0 <= j < i ==> processs[j].uid != uid
    ensures i < 0 ==> forall j :: 0 <= j < |processs| ==> processs[j].uid != uid
  {
    FirstIndex(processs, (p: DBProcess) => p.uid == uid)
  }

  function AddKey(processs: seq<DBProcess>, uid: nat, key: Key): seq<DBProcess> {
    var i := Find(processs, uid);
    if i < 0 then processs + [DBProcess(uid, [key], None)]
    else if key in processs[i].keys then processs
    else processs[i := processs[i].(keys := processs[i].keys + [key])]
  }

  predicate HaveAll(processs: seq<DBProcess>) {
    forall i :: 0 <= i < |processs| ==> processs[i].player.Some?
  }

  ghost predicate UidsDistinct(processs: seq<DBProcess>) {
    forall i, j :: 0 <= i < j < |processs| ==> processs[i].uid != processs[j].uid
  }

  ghost predicate KeysDistinct(keys: seq<Key>) {
    forall i, j :: 0 <= i < j < |keys| ==> keys[i] != keys[j]
  }

  ghost predicate ProcesssOk(processs: seq<DBProcess>) {
    UidsDistinct(processs) && forall i :: 0 <= i < |processs| ==> KeysDistinct(processs[i].keys)
  }

  /** The keys requested for a uid, as a set. */
  ghost function KeysOf(processs: seq<DBProcess>, uid: nat): set<Key> {
    var i := Find(processs, uid);
    if i < 0 then {} else set k | k in processs[i].keys
  }

  lemma FindIs(processs: seq<DBProcess>, uid: nat, i: nat)
    requires UidsDistinct(processs) && i < |processs| && processs[i].uid == uid
    ensures Find(processs, uid) == i
  {
  }

  /** `AddQueryKey` keeps uids distinct and keys distinct per uid. */
  lemma AddKeyKeepsDistinct(processs: seq<DBProcess>, uid: nat, key: Key)
    requires ProcesssOk(processs)
    ensures ProcesssOk(AddKey(processs, uid, key))
  {
    var i := Find(processs, uid);
    if i >= 0 {
      var keys := processs[i].keys;
      assert key !in keys ==> KeysDistinct(keys + [key]);
    }
  }

  /** `AddQueryKey` adds exactly that key to exactly that uid, whatever was there before. */
  lemma AddKeyIsSetInsert(processs: seq<DBProcess>, uid: nat, key: Key, other: nat)
    requires ProcesssOk(processs)
    ensures KeysOf(AddKey(processs, uid, key), other)
         == KeysOf(processs, other) + if other == uid then {key} else {}
  {
    AddKeyKeepsDistinct(processs, uid, key);
    var after := AddKey(processs, uid, key);
    var i := Find(processs, uid);
    var j, j' := Find(processs, other), Find(after, other);
    if i < 0 {
      assert after[|processs|].uid == uid;
      if other == uid {
        FindIs(after, uid, |processs|);
      } else if j >= 0 {
        assert after[j] == processs[j];
        FindIs(after, other, j);
      } else {
        assert j' < 0;
      }
    } else {
      assert forall k :: 0 <= k < |processs| ==> after[k].uid == processs[k].uid;
      if j >= 0 {
        FindIs(after, other, j);
      } else {
        assert j' < 0;
      }
    }
  }

  class Session {
    var state: SessionState
    var processs: seq<DBProcess>
    var processIndex: nat
    var redoCount: nat
    var events: seq<Event>
    var logicState: nat

    constructor ()
      ensures View() == SessionData(OnMessage, [], 0, 0, [], 0)
    {
      state, processs, processIndex, redoCount, events, logicState := OnMessage, [], 0, 0, [], 0;
    }

    function View(): SessionData
      reads this
    {
      SessionData(state, processs, processIndex, redoCount, events, logicState)
    }

    /** The effect of a handler on the session it is given. */
    method Load(d: SessionData)
      modifies this
      ensures View() == d
    {
      state, processs, processIndex := d.state, d.processs, d.processIndex;
      redoCount, events, logicState := d.redoCount, d.events, d.logicState;
    }

    method AddQueryKey(uid: nat, key: Key)
      modifies this`processs
      ensures processs == AddKey(old(processs), uid, key)
    {
      var findUid := false;
      var i := 0;
      while i < |processs|
        invariant 0 <= i <= |processs| && processs == old(processs) && !findUid
        invariant forall j :: 0 <= j < i ==> processs[j].uid != uid
      {
        if processs[i].uid == uid {
          findUid := true;
          var findKey := false;
          var j := 0;
          while j < |processs[i].keys|
            invariant 0 <= j <= |processs[i].keys| && !findKey
            invariant forall k :: 0 <= k < j ==> processs[i].keys[k] != key
          {
            if processs[i].keys[j] == key {
              findKey := true;
              break;
            }
            j := j + 1;
          }
          if !findKey {
            processs := processs[i := processs[i].(keys := processs[i].keys + [key])];
          }
          break;
        }
        i := i + 1;
      }
      if !findUid {
        processs := processs + [DBProcess(uid, [key], None)];
      }
    }

    method HaveAllDBData() returns (all: bool)
      ensures all == HaveAll(processs)
    {
      for i := 0 to |processs|
        invariant forall j :: 0 <= j < i ==> processs[j].player.Some?
      {
        if processs[i].player.None? {
          return false;
        }
      }
      return true;
    }

    method GetDBProcessIndex(uid: nat) returns (i: int)
      ensures i == Find(processs, uid)
    {
      for k := 0 to |processs|
        invariant forall j :: 0 <= j < k ==> processs[j].uid != uid
      {
        if processs[k].uid == uid {
          return k;
        }
      }
      return -1;
    }
  }
}
