/** Building the requests a session sends to the store, and loading what comes back. */
module MessageBases {
  import opened Shared
  import opened Sessions

  const MAX_KVDB_BUF_LEN: nat := 32768

  datatype KVResult = Success | Failed | VerDiff

  /** One key as the store returns it; a key that was never stored has no value. */
  datatype KVData = KVData(key: Key, value: Option<Value>, version: nat)

  /** One key of a save request.  `basis` is the value the previous version stood for when the
      session last heard of it; it is not sent. */
  datatype SaveItem = SaveItem(key: Key, value: Value, version: nat, basis: Value)

  datatype Request = QueryReq(uid: nat, keys: seq<Key>) | SaveReq(uid: nat, items: seq<SaveItem>)

  datatype Response = QueryRsp(result: KVResult, uid: nat, datas: seq<KVData>)
                    | SaveRsp(result: KVResult, uid: nat, datas: seq<KVData>)
                    | OtherRsp

  /** The initial value of a key that was never stored, for the keys that have one.  A fresh
      base_info or gold_info counts as modified, so the next save stores it too. */
  function InitData(init: Key -> Value, entries: map<Key, Entry>, key: Key): map<Key, Entry> {
    if key in {K_BASE, K_GOLD} then entries[key := Entry(0, init(key), true, init(key))]
    else if key in {K_M_BASE, K_M_LIPSTICK, K_G_LIP_PRIZE} then entries[key := Entry(0, init(key), false, init(key))]
    else entries
  }

  /** The loop of `ParseDBData`; an unknown key with a value makes it fail. */
  function ParseData(init: Key -> Value, datas: seq<KVData>): Option<map<Key, Entry>> {
    if datas == [] then Some(map[])
    else
      var rest := ParseData(init, datas[..|datas| - 1]);
      var d := datas[|datas| - 1];
      if rest.None? then None
      else if d.value.None? then Some(InitData(init, rest.value, d.key))
      else if !Known(d.key) then None
      else Some(rest.value[d.key := Entry(d.version, d.value.value, false, d.value.value)])
  }

  method ParseDBData(init: Key -> Value, datas: seq<KVData>) returns (entries: Option<map<Key, Entry>>)
    ensures entries == ParseData(init, datas)
  {
    var es: map<Key, Entry> := map[];
    assert datas[..0] == [];
    for i := 0 to |datas|
      invariant ParseData(init, datas[..i]) == Some(es)
    {
      assert datas[..i + 1][..i] == datas[..i];
      var d := datas[i];
      if d.value.Some? {
        if !Known(d.key) {
          ParseFails(init, datas, i + 1);
          return None;
        }
        es := es[d.key := Entry(d.version, d.value.value, false, d.value.value)];
      } else {
        es := InitData(init, es, d.key);
      }
    }
    assert datas[..|datas|] == datas;
    entries := Some(es);
  }

  lemma {:induction false} ParseFails(init: Key -> Value, datas: seq<KVData>, i: nat)
    requires i <= |datas| && ParseData(init, datas[..i]).None?
    ensures ParseData(init, datas).None?
    decreases |datas| - i
  {
    if i == |datas| {
      assert datas[..i] == datas;
    } else {
      assert datas[..i + 1][..i] == datas[..i];
      ParseFails(init, datas, i + 1);
    }
  }

  /** One query per uid that has no data yet. */
  function Queries(processs: seq<DBProcess>): seq<Request> {
    if processs == [] then []
    else
      var p := processs[|processs| - 1];
      Queries(processs[..|processs| - 1]) + if p.player.Some? then [] else [QueryReq(p.uid, p.keys)]
  }

  method SendQueryToDBProxy(s: Session) returns (get: bool, sent: seq<Request>)
    modifies s`state
    ensures sent == Queries(s.processs) && get == (sent != [])
    ensures s.state == if get then WaitQuery else old(s.state)
  {
    get, sent := false, [];
    assert s.processs[..0] == [];
    for i := 0 to |s.processs|
      invariant sent == Queries(s.processs[..i]) && get == (sent != []) && s.state == old(s.state)
    {
      assert s.processs[..i + 1][..i] == s.processs[..i];
      var process := s.processs[i];
      if process.player.Some? {
        continue;
      }
      get := true;
      sent := sent + [QueryReq(process.uid, process.keys)];
    }
    assert s.processs[..|s.processs|] == s.processs;
    if get {
      s.state := WaitQuery;
    }
  }

  /** The loop of `SendSaveToDBProxy` over the keys: each modified key that is not too long is
      submitted under the next version and counts as unmodified from then on.  `known` is
      false once an unknown key was met. */
  datatype Saving = Saving(known: bool, entries: map<Key, Entry>, items: seq<SaveItem>)

  function SaveKey(sv: Saving, key: Key): Saving {
    var e := if key in sv.entries then sv.entries[key] else ABSENT;
    if !sv.known then sv
    else if !Known(key) then sv.(known := false)
    else if e.dirty && |e.value| <= MAX_KVDB_BUF_LEN then
      Saving(true, sv.entries[key := Entry(e.version + 1, e.value, false, e.value)],
             sv.items + [SaveItem(key, e.value, e.version + 1, e.base)])
    else sv
  }

  function SaveKeys(entries: map<Key, Entry>, keys: seq<Key>): Saving {
    if keys == [] then Saving(true, entries, [])
    else SaveKey(SaveKeys(entries, keys[..|keys| - 1]), keys[|keys| - 1])
  }

  lemma {:induction false} UnknownStops(entries: map<Key, Entry>, keys: seq<Key>, i: nat)
    requires i <= |keys| && !SaveKeys(entries, keys[..i]).known
    ensures SaveKeys(entries, keys) == SaveKeys(entries, keys[..i])
    decreases |keys| - i
  {
    if i == |keys| {
      assert keys[..i] == keys;
    } else {
      assert keys[..i + 1][..i] == keys[..i];
      UnknownStops(entries, keys, i + 1);
    }
  }

  /** `GetDBData()`: the current player, created empty if it is not there. */
  function CurrentPlayer(p: DBProcess): Player {
    if p.player.Some? then p.player.value else Player(0, map[])
  }

  /** What `SendSaveToDBProxy` does to the session, and what it sends. */
  function SaveOne(d: SessionData): (SessionData, seq<Request>) {
    if d.processIndex >= |d.processs| then (d, [])
    else
      var process := d.processs[d.processIndex];
      var player := CurrentPlayer(process);
      var sv := SaveKeys(player.entries, process.keys);
      var d' := d.(processs := d.processs[d.processIndex := process.(player := Some(player.(entries := sv.entries)))]);
      if sv.known && sv.items != [] then (d'.(state := WaitSave), [SaveReq(player.uid, sv.items)]) else (d', [])
  }

  method SendSaveToDBProxy(s: Session) returns (save: bool, sent: seq<Request>)
    modifies s
    ensures (s.View(), sent) == SaveOne(old(s.View())) && save == (sent != [])
  {
    if s.processIndex >= |s.processs| {
      return false, [];
    }
    var process := s.processs[s.processIndex];
    var player := CurrentPlayer(process);
    var keys, sv := process.keys, Saving(true, player.entries, []);
    save := false;
    assert keys[..0] == [];
    for i := 0 to |keys|
      invariant sv == SaveKeys(player.entries, keys[..i]) && sv.known && save == (sv.items != [])
      invariant s.View() == old(s.View())
    {
      assert keys[..i + 1][..i] == keys[..i];
      sv := SaveKey(sv, keys[i]);
      if !sv.known {
        UnknownStops(player.entries, keys, i + 1);
        s.processs := s.processs[s.processIndex := process.(player := Some(player.(entries := sv.entries)))];
        return false, [];
      }
      save := sv.items != [];
    }
    assert keys[..|keys|] == keys;
    s.processs := s.processs[s.processIndex := process.(player := Some(player.(entries := sv.entries)))];
    sent := [];
    if save {
      sent := [SaveReq(player.uid, sv.items)];
      s.state := WaitSave;
    }
  }
}
