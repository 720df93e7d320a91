/** Sessions in the pool: creation, timeout, and the save to a flat buffer that a restarted
    process reads back. */
module SessionManagers {
  import opened Shared
  import opened Bytes
  import opened IdPool
  import opened ObjectManagers
  import opened Serialize

  const HEAD_LEN: nat := 48
  const TIMEOUT_SEC: int := 10

  type Payload = s: seq<byte> | |s| < 0x1_0000_0000

  type MessageHead = h: seq<byte> | |h| == 48 witness seq(48, _ => 0)

  /** A session apart from its id: the fields this code reads, the rest of the protobuf
      message, and the routing head that is not part of the message. */
  datatype Session = Session(msgId: uint32, updateTime: uint32, rest: Payload, head: MessageHead)

  function NoHead(): MessageHead {
    seq(HEAD_LEN, _ => 0)
  }

  const BLANK: Session := Session(0, 0, [], NoHead())

  function Expired(s: Session, now: uint32): bool {
    (s.updateTime + TIMEOUT_SEC) % U32 <= now
  }

  method CreateSession(m: ObjectManager<Session>, msgId: uint32, now: uint32) returns (id: Option<uint32>)
    requires m.Valid() && m.blank == BLANK
    modifies m, m.pool
    ensures m.Valid()
    ensures (m.View(), id) == Create(old(m.View()), BLANK, BLANK.(msgId := msgId, updateTime := now))
  {
    id := m.CreateObject(BLANK.(msgId := msgId, updateTime := now));
  }

  // ---------------------------------------------------------------------------------------
  // Iterating over the used set
  // ---------------------------------------------------------------------------------------

  /** `order` is one of the orders in which the hash set `s` may be walked. */
  ghost predicate Enumerates(order: seq<nat>, s: set<nat>) {
    && (forall i, j :: 0 <= i < j < |order| ==> order[i] != order[j])
    && (forall p :: p in order <==> p in s)
    && |order| == |s|
  }

  method Walk(s: set<nat>) returns (order: seq<nat>)
    ensures Enumerates(order, s)
  {
    order := [];
    var todo := s;
    while todo != {}
      invariant todo <= s && Enumerates(order, s - todo)
      decreases todo
    {
      var p :| p in todo;
      todo := todo - {p};
      order := order + [p];
      assert s - todo == (s - todo - {p}) + {p};
    }
    assert s - todo == s;
  }

  // ---------------------------------------------------------------------------------------
  // Timeout
  // ---------------------------------------------------------------------------------------

  /** A slot that a failed search leaked carries id 0 and update time 0.  Once that looks
      expired, releasing it releases the session with id 0, if a restart has left one. */
  ghost predicate Mistaken(m: Manager<Session>, id: uint32, now: uint32) {
    id == 0 && m.leaked != {} && 10 <= now
  }

  /** A session lives for ten seconds, by a clock of 32 bits. */
  lemma SessionLasts(m: Manager<Session>, msgId: uint32, created: uint32, now: uint32)
    requires Inv(m, BLANK)
    ensures var (m', id) := Create(m, BLANK, BLANK.(msgId := msgId, updateTime := created));
            id.Some? ==> Object(m', id.value).Some?
                         && (Expired(Object(m', id.value).value.body, now) <==> (created + 10) % 0x1_0000_0000 <= now)
  {
    hide Inv, Create, Object;
    CreateAddsOne(m, BLANK, BLANK.(msgId := msgId, updateTime := created));
  }

  /** Exactly the expired sessions go, and session 0 if it is mistaken for a leaked slot; every
      other session is untouched, and a leaked slot stays leaked. */
  method CheckTimeOut(m: ObjectManager<Session>, now: uint32)
    requires m.Valid() && m.blank == BLANK
    modifies m, m.pool
    ensures m.Valid()
    ensures forall id :: id in m.index <==>
              id in old(m.index) && !Expired(Object(old(m.View()), id).value.body, now) && !Mistaken(old(m.View()), id, now)
    ensures forall id :: id in m.index ==> Object(m.View(), id) == Object(old(m.View()), id)
    ensures m.leaked == old(m.leaked) && m.cur == old(m.cur)
  {
    ghost var v := m.View();
    var order := Walk(m.used);
    var ids: seq<uint32> := [];
    for i := 0 to |order|
      invariant m.View() == v && (forall p :: p in order ==> p < |v.pool|)
      invariant ExpiredIds(v, order[..i], now, ids)
    {
      assert order[i] in order && order[..i + 1] == order[..i] + [order[i]];
      var slot := m.pool[order[i]];
      OneMoreSlot(v, order[..i], order[i], now, ids);
      if Expired(slot.body, now) {
        ids := ids + [slot.id];
      }
    }
    assert order[..|order|] == order;
    ReleaseAllKeeps(v, BLANK, ids);
    ExpiredIdsAre(v, order, now, ids);
    m.ReleaseObjects(ids);
  }

  ghost predicate ExpiredAt(v: Manager<Session>, p: nat, id: uint32, now: uint32) {
    p < |v.pool| && v.pool[p].id == id && Expired(v.pool[p].body, now)
  }

  /** `ids` has the ids of the expired slots among `order`. */
  ghost predicate ExpiredIds(v: Manager<Session>, order: seq<nat>, now: uint32, ids: seq<uint32>) {
    forall id :: id in ids <==> exists p :: p in order && ExpiredAt(v, p, id, now)
  }

  lemma OneMoreSlot(v: Manager<Session>, front: seq<nat>, p: nat, now: uint32, ids: seq<uint32>)
    requires ExpiredIds(v, front, now, ids) && p < |v.pool|
    ensures ExpiredIds(v, front + [p], now, if Expired(v.pool[p].body, now) then ids + [v.pool[p].id] else ids)
  {
    var ids' := if Expired(v.pool[p].body, now) then ids + [v.pool[p].id] else ids;
    forall id
      ensures id in ids' <==> exists q :: q in front + [p] && ExpiredAt(v, q, id, now)
    {
      if ExpiredAt(v, p, id, now) {
        assert p in front + [p];
      } else if id in ids {
        var q :| q in front && ExpiredAt(v, q, id, now);
        assert q in front + [p];
      }
    }
  }

  lemma ExpiredIdsAre(v: Manager<Session>, order: seq<nat>, now: uint32, ids: seq<uint32>)
    requires Inv(v, BLANK) && Enumerates(order, v.used) && ExpiredIds(v, order, now, ids)
    ensures forall id :: id in v.index ==> (id in ids <==> Expired(Object(v, id).value.body, now) || Mistaken(v, id, now))
  {
    forall id | id in v.index
      ensures id in ids <==> Expired(Object(v, id).value.body, now) || Mistaken(v, id, now)
    {
      if id in ids {
        var p :| p in order && ExpiredAt(v, p, id, now);
        OwnerOrLeaked(v, p, id, now);
      } else {
        ExpiredIsListed(v, order, now, id);
      }
    }
  }

  lemma OwnerOrLeaked(v: Manager<Session>, p: nat, id: uint32, now: uint32)
    requires Inv(v, BLANK) && p in v.used && id in v.index && ExpiredAt(v, p, id, now)
    ensures Expired(Object(v, id).value.body, now) || Mistaken(v, id, now)
  {
  }

  lemma ExpiredIsListed(v: Manager<Session>, order: seq<nat>, now: uint32, id: uint32)
    requires Inv(v, BLANK) && Enumerates(order, v.used) && id in v.index
    ensures Expired(Object(v, id).value.body, now) || Mistaken(v, id, now) ==> exists p :: p in order && ExpiredAt(v, p, id, now)
  {
    assert v.index[id] in order;
    if Expired(Object(v, id).value.body, now) {
      assert ExpiredAt(v, v.index[id], id, now);
    } else if Mistaken(v, id, now) {
      var p :| p in v.leaked;
      assert p in order && ExpiredAt(v, p, 0, now);
    }
  }

  // ---------------------------------------------------------------------------------------
  // Save and restore
  // ---------------------------------------------------------------------------------------

  /** The protobuf part.  Any encoding will do that its parser inverts; this one stands for it. */
  function EncodePB(s: Slot<Session>): (b: seq<byte>)
    ensures |b| < U64
  {
    LE32(s.id) + LE32(s.body.msgId) + LE32(s.body.updateTime) + s.body.rest
  }

  function DecodePB(b: seq<byte>, head: MessageHead): Option<Slot<Session>> {
    if 12 <= |b| < 12 + U32 then
      Some(Slot(FromLE32(b[..4]), Session(FromLE32(b[4..8]), FromLE32(b[8..12]), b[12..], head)))
    else None
  }

  lemma DecodesBack(s: Slot<Session>)
    ensures DecodePB(EncodePB(s), s.body.head) == Some(s)
  {
    var b := EncodePB(s);
    assert b[..4] == LE32(s.id) && b[4..8] == LE32(s.body.msgId) && b[8..12] == LE32(s.body.updateTime);
    assert b[12..] == s.body.rest;
    LE32RoundTrip(s.id);
    LE32RoundTrip(s.body.msgId);
    LE32RoundTrip(s.body.updateTime);
  }

  function SaveOne(s: Slot<Session>): seq<byte> {
    Prefixed(EncodePB(s)) + s.body.head
  }

  function GetByteSize(s: Slot<Session>): (n: nat)
    ensures n == |SaveOne(s)|
  {
    8 + |EncodePB(s)| + HEAD_LEN
  }

  function SaveObjects(objs: seq<Slot<Session>>): seq<byte> {
    if objs == [] then [] else SaveObjects(objs[..|objs| - 1]) + SaveOne(objs[|objs| - 1])
  }

  function SaveBytes(objs: seq<Slot<Session>>): seq<byte>
    requires |objs| < U32
  {
    LE32(|objs|) + SaveObjects(objs)
  }

  lemma SavePrefix(objs: seq<Slot<Session>>, i: nat)
    requires i < |objs|
    ensures SaveObjects(objs[..i + 1]) == SaveObjects(objs[..i]) + SaveOne(objs[i])
  {
    var front := objs[..i + 1];
    assert front[..|front| - 1] == objs[..i];
  }

  lemma {:induction false} SaveMonotone(objs: seq<Slot<Session>>, i: nat)
    requires i <= |objs|
    ensures SaveObjects(objs[..i]) <= SaveObjects(objs)
    decreases |objs| - i
  {
    if i == |objs| {
      assert objs[..i] == objs;
    } else {
      SavePrefix(objs, i);
      SaveMonotone(objs, i + 1);
    }
  }

  method SerializeSession(s: Slot<Session>, buf: array<byte>, offset: nat, ghost acc: seq<byte>) returns (ok: bool, next: nat)
    requires offset == |acc| && offset + GetByteSize(s) <= buf.Length && buf[..offset] == acc
    modifies buf
    ensures ok && next == offset + GetByteSize(s)
    ensures buf[..next] == acc + SaveOne(s)
  {
    ok, next := SerializeProtoBuf(buf, offset, EncodePB(s));
    if !ok {
      return;
    }
    ghost var mid := buf[..next];
    ok, next := SerializeBaseType(buf, next, s.body.head);
    assert buf[..next] == mid + s.body.head;
  }

  /** Reads one session back; `t` is the session that may have been written there. */
  method UnSerializeSession(buf: array<byte>, offset: nat, ghost t: Slot<Session>) returns (ok: bool, next: nat, s: Slot<Session>)
    requires offset <= buf.Length
    ensures next <= buf.Length
    ensures SaveOne(t) <= buf[offset..] ==> ok && s == t && next == offset + |SaveOne(t)|
  {
    ghost var written := SaveOne(t) <= buf[offset..];
    s := Slot(0, BLANK);
    var proto, head;
    if written {
      ReadsOne(buf[..], offset, t);
      DecodesBack(t);
    }
    ok, next, proto := UnSerializeProtoBuf(buf, offset);
    if ok {
      ok, next, head := UnSerializeBaseType(buf, next, HEAD_LEN);
      if ok {
        var parsed := DecodePB(proto, head);
        ok := parsed.Some?;
        if ok {
          s := parsed.value;
        }
      }
    }
  }

  lemma ReadsOne(buf: seq<byte>, offset: nat, t: Slot<Session>)
    requires offset <= |buf| && SaveOne(t) <= buf[offset..]
    ensures var pb := EncodePB(t);
            && offset + 8 + |pb| + HEAD_LEN <= |buf|
            && FromLE64(buf[offset..offset + 8]) == |pb|
            && buf[offset + 8..offset + 8 + |pb|] == pb
            && buf[offset + 8 + |pb|..offset + 8 + |pb| + HEAD_LEN] == t.body.head
  {
    var pb := EncodePB(t);
    assert Prefixed(pb) <= buf[offset..];
    ReadsBack(buf, offset, pb);
    var a, b := 8 + |pb|, 8 + |pb| + HEAD_LEN;
    assert buf[offset..][a..b] == buf[offset + a..offset + b];
    assert buf[offset..][a..b] == SaveOne(t)[a..b] == t.body.head;
  }

  /** The used objects, in the order in which they are written. */
  ghost function Objects(m: Manager<Session>, order: seq<nat>): seq<Slot<Session>>
    requires forall p :: p in order ==> p < |m.pool|
  {
    seq(|order|, i requires 0 <= i < |order| => assert order[i] in order; m.pool[order[i]])
  }

  /** The buffer is sized by adding up `GetByteSize`; it is filled to its last byte, so no
      write fails, whatever the order of the walk. */
  method ReleaseToBuffer(m: ObjectManager<Session>) returns (buf: array<byte>, ok: bool, order: seq<nat>)
    requires m.Valid() && |m.used| < U32
    ensures ok && Enumerates(order, m.used)
    ensures buf[..] == SaveBytes(Objects(m.View(), order))
  {
    order := Walk(m.used);
    ghost var objs := Objects(m.View(), order);
    forall i | 0 <= i < |order|
      ensures order[i] < m.pool.Length && m.pool[order[i]] == objs[i]
    {
      assert order[i] in order;
    }
    var byteSize := SumSizes(m.pool, order, objs);
    ok, buf := WriteObjects(m.pool, order, byteSize, objs);
  }

  lemma Associative(a: seq<byte>, b: seq<byte>, c: seq<byte>)
    ensures (a + b) + c == a + (b + c)
  {
  }

  method SumSizes(pool: array<Slot<Session>>, order: seq<nat>, ghost objs: seq<Slot<Session>>) returns (byteSize: nat)
    requires |objs| == |order|
    requires forall i :: 0 <= i < |order| ==> order[i] < pool.Length && pool[order[i]] == objs[i]
    ensures byteSize == 4 + |SaveObjects(objs)|
  {
    byteSize := 4;
    for i := 0 to |order|
      invariant byteSize == 4 + |SaveObjects(objs[..i])|
    {
      SavePrefix(objs, i);
      byteSize := byteSize + GetByteSize(pool[order[i]]);
    }
    assert objs[..|order|] == objs;
  }

  method WriteObjects(pool: array<Slot<Session>>, order: seq<nat>, byteSize: nat, ghost objs: seq<Slot<Session>>)
    returns (ok: bool, buf: array<byte>)
    requires |objs| == |order| < U32 && byteSize == 4 + |SaveObjects(objs)|
    requires forall i :: 0 <= i < |order| ==> order[i] < pool.Length && pool[order[i]] == objs[i]
    ensures ok && fresh(buf) && buf[..] == SaveBytes(objs)
  {
    buf := new byte[byteSize];
    var offset: nat;
    ok, offset := SerializeBaseType(buf, 0, LE32(|order|));
    ghost var acc := LE32(|order|);
    assert objs[..0] == [];
    for i := 0 to |order|
      invariant fresh(buf) && buf.Length == byteSize
      invariant forall i :: 0 <= i < |order| ==> order[i] < pool.Length && pool[order[i]] == objs[i]
      invariant ok && offset == |acc| <= byteSize && buf[..offset] == acc
      invariant acc == LE32(|order|) + SaveObjects(objs[..i])
    {
      NextObject(objs, i);
      ok, offset := SerializeSession(pool[order[i]], buf, offset, acc);
      Associative(LE32(|order|), SaveObjects(objs[..i]), SaveOne(objs[i]));
      acc := acc + SaveOne(objs[i]);
    }
    assert objs[..|order|] == objs && buf[..byteSize] == buf[..];
  }

  /** The index that walking the restored slots rebuilds. */
  ghost predicate Built(pool: seq<Slot<Session>>, count: nat, index: map<uint32, nat>, cur: uint32)
    requires count <= |pool|
  {
    && (forall id :: id in index ==> index[id] < count && pool[index[id]].id == id)
    && (forall p :: 0 <= p < count ==> pool[p].id in index && pool[p].id <= cur)
    && (cur != 0 ==> cur in index)
  }

  /** A pool holding exactly `objs`, in its first slots. */
  ghost predicate Loaded(m: Manager<Session>, objs: seq<Slot<Session>>) {
    && |objs| <= m.size == |m.pool|
    && m.pool[..|objs|] == objs
    && (forall p: nat :: p in m.used <==> p < |objs|)
    && m.free == seq(m.size - |objs|, (i: nat) => |objs| + i)
  }

  /** The first `i` slots have been taken, in order, and nothing is indexed yet. */
  ghost predicate Taken(m: ObjectManager<Session>, i: nat)
    reads m, m.pool
  {
    && m.PoolOk() && i <= m.size && m.index == map[] && m.cur == 0
    && (forall p: nat :: p in m.used <==> p < i)
    && m.free == seq(m.size - i, (k: nat) => i + k)
  }

  method TakeNext(m: ObjectManager<Session>, ghost i: nat) returns (pos: int)
    requires Taken(m, i) && i < m.size
    modifies m`free, m`used, m.pool
    ensures pos == i && Taken(m, i + 1) && m.pool[..i] == old(m.pool[..i])
  {
    pos := m.Malloc();
    assert m.pool[..] == old(m.pool[..])[i := Slot(0, m.blank)];
  }

  method StoreAt(pool: array<Slot<Session>>, pos: nat, s: Slot<Session>)
    requires pos < pool.Length
    modifies pool
    ensures pool[..pos + 1] == old(pool[..pos]) + [s]
  {
    pool[pos] := s;
  }

  method LoadObjects(m: ObjectManager<Session>, buf: array<byte>, ghost objs: seq<Slot<Session>>)
    returns (ok: bool, ghost i: nat)
    requires Taken(m, 0) && m.size < U32 && |objs| < U32
    modifies m`free, m`used, m.pool
    ensures Taken(m, i)
    ensures buf[..] == SaveBytes(objs) ==> ok && i == Count(m.size, objs) && m.pool[..i] == objs[..i]
  {
    i := 0;
    var offset: nat, head;
    ok, offset, head := UnSerializeBaseType(buf, 0, 4);
    if !ok {
      return;
    }
    ghost var good := buf[..] == SaveBytes(objs);
    if good {
      assert head == LE32(|objs|);
      LE32RoundTrip(|objs|);
    }
    ok, i := LoadLoop(m, buf, offset, FromLE32(head), objs, good);
  }

  function Count(size: nat, objs: seq<Slot<Session>>): nat {
    if |objs| <= size then |objs| else size
  }

  /** How far the load has come: `i` sessions read, which are the first `i` of `objs`. */
  ghost predicate Progress(m: ObjectManager<Session>, objs: seq<Slot<Session>>, i: nat, offset: int)
    reads m, m.pool
  {
    Taken(m, i) && i <= |objs| && offset == 4 + |SaveObjects(objs[..i])| && m.pool[..i] == objs[..i]
  }

  method LoadLoop(m: ObjectManager<Session>, buf: array<byte>, offset0: nat, count: nat, ghost objs: seq<Slot<Session>>, ghost good: bool)
    returns (ok: bool, ghost loaded: nat)
    requires Taken(m, 0) && |objs| < U32 && offset0 == 4 <= buf.Length
    requires good ==> buf[..] == SaveBytes(objs) && count == |objs|
    modifies m`free, m`used, m.pool
    ensures Taken(m, loaded)
    ensures good ==> ok && loaded == Count(m.size, objs) && m.pool[..loaded] == objs[..loaded]
  {
    var i := 0;
    var offset: nat := offset0;
    ok, loaded := true, 0;
    assert m.pool[..0] == objs[..0] == [];
    while i < m.size && i < count
      invariant Taken(m, i) && offset <= buf.Length && ok && loaded == i
      invariant good ==> Progress(m, objs, i, offset)
    {
      ok, offset := LoadStep(m, buf, i, offset, objs, good);
      i := i + 1;
      loaded := i;
      if !ok {
        return;
      }
    }
  }

  method LoadStep(m: ObjectManager<Session>, buf: array<byte>, i: nat, offset: nat, ghost objs: seq<Slot<Session>>, ghost good: bool)
    returns (ok: bool, next: nat)
    requires Taken(m, i) && i < m.size && |objs| < U32 && offset <= buf.Length
    requires good ==> buf[..] == SaveBytes(objs) && i < |objs| && Progress(m, objs, i, offset)
    modifies m`free, m`used, m.pool
    ensures Taken(m, i + 1) && next <= buf.Length
    ensures good ==> ok && Progress(m, objs, i + 1, next)
  {
    ghost var expected := Slot(0, BLANK);
    if good {
      NextObject(objs, i);
      expected := objs[i];
    }
    var pos := TakeNext(m, i);
    var s;
    ok, next, s := UnSerializeSession(buf, offset, expected);
    if ok {
      StoreAt(m.pool, pos, s);
    }
  }

  lemma PrefixSlice(head: seq<byte>, a: seq<byte>, x: seq<byte>, whole: seq<byte>)
    requires a + x <= whole
    ensures |head| + |a| + |x| <= |head + whole|
    ensures x <= (head + whole)[|head| + |a|..]
  {
    assert (head + whole)[|head| + |a|..] == whole[|a|..];
    assert whole[|a|..][..|x|] == (a + x)[|a|..];
  }

  /** Where object `i` is in the buffer. */
  lemma NextObject(objs: seq<Slot<Session>>, i: nat)
    requires |objs| < U32 && i < |objs|
    ensures var offset, bytes := 4 + |SaveObjects(objs[..i])|, SaveBytes(objs);
            && offset + |SaveOne(objs[i])| <= |bytes| && SaveOne(objs[i]) <= bytes[offset..]
    ensures SaveObjects(objs[..i + 1]) == SaveObjects(objs[..i]) + SaveOne(objs[i])
  {
    SavePrefix(objs, i);
    SaveMonotone(objs, i + 1);
    PrefixSlice(LE32(|objs|), SaveObjects(objs[..i]), SaveOne(objs[i]), SaveObjects(objs));
  }

  method RebuildIndex(m: ObjectManager<Session>)
    requires m.index == map[] && m.cur == 0 && forall p :: p in m.used ==> p < m.pool.Length
    modifies m`index, m`cur
    ensures forall id :: id in m.index ==> m.index[id] in m.used && m.pool[m.index[id]].id == id
    ensures forall p :: p in m.used ==> m.pool[p].id in m.index && m.pool[p].id <= m.cur
    ensures m.cur != 0 ==> m.cur in m.index
  {
    var order := Walk(m.used);
    for i := 0 to |order|
      invariant forall id :: id in m.index ==> m.index[id] in m.used && m.pool[m.index[id]].id == id
      invariant forall k :: 0 <= k < i ==> order[k] in m.used && m.pool[order[k]].id in m.index && m.pool[order[k]].id <= m.cur
      invariant m.cur != 0 ==> m.cur in m.index
    {
      assert order[i] in order;
      var id := m.pool[order[i]].id;
      m.index := m.index[id := order[i]];
      if id > m.cur {
        m.cur := id;
      }
    }
    forall p | p in m.used
      ensures m.pool[p].id in m.index && m.pool[p].id <= m.cur
    {
      assert p in order;
    }
  }

  /** `Init` with a buffer left by a previous process: if it holds `objs`, the pool holds them
      too, or the first that fit, and the index and the counter are rebuilt from them. */
  method InitFromBuffer(size: uint32, buf: array<byte>, ghost objs: seq<Slot<Session>>)
    returns (ok: bool, m: ObjectManager<Session>)
    requires |objs| < U32
    ensures fresh(m) && fresh(m.pool) && m.blank == BLANK && m.size == size
    ensures m.failed == 0 && m.leaked == {}
    ensures buf[..] == SaveBytes(objs) ==>
              (ok && Loaded(m.View(), objs[..Count(size, objs)]))
    ensures buf[..] == SaveBytes(objs) ==>
              Built(m.pool[..], Count(size, objs), m.index, m.cur)
  {
    hide SaveBytes, Built;
    m := new ObjectManager<Session>(size, BLANK);
    assert seq(size, (i: nat) => i) == seq(size - 0, (k: nat) => 0 + k);
    ghost var count;
    ok, count := LoadObjects(m, buf, objs);
    if ok {
      RebuildIndex(m);
      BuiltFrom(m.pool[..], m.used, count, m.index, m.cur);
    }
  }

  lemma BuiltFrom(pool: seq<Slot<Session>>, used: set<nat>, count: nat, index: map<uint32, nat>, cur: uint32)
    requires count <= |pool| && forall p: nat :: p in used <==> p < count
    requires forall id :: id in index ==> index[id] in used && pool[index[id]].id == id
    requires forall p :: p in used ==> pool[p].id in index && pool[p].id <= cur
    requires cur != 0 ==> cur in index
    ensures Built(pool, count, index, cur)
  {
  }

  /** A process that saves its pool and one that loads it, into a pool at least as large, agree
      on every session: the same object under the same id, whatever the order of the walks.
      The ids are exactly the same if and only if no id search ever failed; otherwise the
      leaked slots come back as a session with id 0. */
  lemma RestoreKeepsSessions(m: Manager<Session>, order: seq<nat>, m': Manager<Session>)
    requires Inv(m, BLANK) && 0 !in m.index && Enumerates(order, m.used)
    requires Loaded(m', Objects(m, order)) && Built(m'.pool, |order|, m'.index, m'.cur)
    ensures forall id :: id in m.index ==> id in m'.index && Object(m', id) == Object(m, id)
    ensures forall id :: id in m'.index <==> id in m.index || (id == 0 && m.failed > 0)
    ensures m'.index.Keys == m.index.Keys <==> m.failed == 0
  {
    LoadedAt(m, order, m');
    forall id | id in m.index
      ensures id in m'.index && Object(m', id) == Object(m, id)
    {
      KeptUnderSameId(m, order, m', id);
    }
    forall id | id in m'.index
      ensures id in m.index || (id == 0 && m.failed > 0)
    {
      NothingElseComesBack(m, order, m', id);
    }
    if m.failed > 0 {
      LeakComesBack(m, order, m');
    }
    assert 0 !in m.index.Keys;
  }

  ghost predicate SameObjects(m: Manager<Session>, order: seq<nat>, m': Manager<Session>) {
    && |order| <= |m'.pool|
    && forall k :: 0 <= k < |order| ==> order[k] in m.used && order[k] < |m.pool| && m'.pool[k] == m.pool[order[k]]
  }

  lemma LoadedAt(m: Manager<Session>, order: seq<nat>, m': Manager<Session>)
    requires Inv(m, BLANK) && Enumerates(order, m.used) && Loaded(m', Objects(m, order))
    ensures SameObjects(m, order, m')
  {
    var objs := Objects(m, order);
    forall k | 0 <= k < |order|
      ensures order[k] in m.used && order[k] < |m.pool| && m'.pool[k] == m.pool[order[k]]
    {
      assert order[k] in order && m'.pool[..|objs|][k] == objs[k];
    }
  }

  lemma KeptUnderSameId(m: Manager<Session>, order: seq<nat>, m': Manager<Session>, id: uint32)
    requires Inv(m, BLANK) && 0 !in m.index && Enumerates(order, m.used) && SameObjects(m, order, m')
    requires Built(m'.pool, |order|, m'.index, m'.cur) && id in m.index
    ensures id in m'.index && Object(m', id) == Object(m, id)
  {
    assert m.index[id] in order;
    var k :| 0 <= k < |order| && order[k] == m.index[id];
    assert m'.pool[k].id == id;
    var j := m'.index[id];
    assert m.pool[order[j]].id == id;
    assert order[j] !in m.leaked;
  }

  lemma NothingElseComesBack(m: Manager<Session>, order: seq<nat>, m': Manager<Session>, id: uint32)
    requires Inv(m, BLANK) && SameObjects(m, order, m')
    requires Built(m'.pool, |order|, m'.index, m'.cur) && id in m'.index
    ensures id in m.index || (id == 0 && m.failed > 0)
  {
    var p := order[m'.index[id]];
    assert m.pool[p].id == id;
    assert m.failed == 0 ==> m.leaked == {};
  }

  lemma LeakComesBack(m: Manager<Session>, order: seq<nat>, m': Manager<Session>)
    requires Inv(m, BLANK) && m.failed > 0 && Enumerates(order, m.used) && SameObjects(m, order, m')
    requires Built(m'.pool, |order|, m'.index, m'.cur)
    ensures 0 in m'.index
  {
    assert m.leaked != {};
    var p :| p in m.leaked;
    assert p in order;
    var k :| 0 <= k < |order| && order[k] == p;
    assert m'.pool[k].id == 0;
  }

  /** After the rebuild the first id tried is the one behind the largest, and it is free unless
      that one wraps to a session with id 0. */
  lemma FirstIdIsFresh(m: Manager<Session>, count: nat, body: Session)
    requires count <= |m.pool| == m.size && Built(m.pool, count, m.index, m.cur) && m.free != []
    ensures Create(m, BLANK, body).1 == Some(NextId(m.cur)) <==> m.cur + 1 < U32 || 0 !in m.index
  {
    assert forall id :: id in m.index ==> id <= m.cur;
    assert m.cur + 1 < U32 ==> NextId(m.cur) == m.cur + 1;
    SearchFound(m.index, m.cur, 0);
    if !(m.cur + 1 < U32 || 0 !in m.index) {
      assert NextId(m.cur) == 0;
    }
  }

  /** The counter of a restored pool is that of the pool that was saved, ten per failed search
      further on at most: it does not wrap. */
  lemma RestoreCounter(m: Manager<Session>, m': Manager<Session>, count: nat, top: int)
    requires CounterOk(m, top) && count <= |m'.pool| && Built(m'.pool, count, m'.index, m'.cur)
    requires forall id :: id in m'.index ==> id in m.index || id == 0
    requires m'.failed == 0
    ensures CounterOk(m', top + MAX_TRIES * (m.failed + 1))
  {
  }

  lemma RestoreFree(m': Manager<Session>, count: nat)
    requires count <= m'.size && (forall p: nat :: p in m'.used <==> p < count)
    requires m'.free == seq(m'.size - count, (i: nat) => count + i)
    ensures FreeOk(m'.size, m'.free, m'.used)
  {
    forall p: nat | p < m'.size
      ensures p in m'.used || p in m'.free
    {
      assert p < count || m'.free[p - count] == p;
    }
  }

  lemma RestoredOwner(m: Manager<Session>, order: seq<nat>, m': Manager<Session>, p: nat)
    requires Inv(m, BLANK) && 0 !in m.index && |m.leaked| <= 1 && Enumerates(order, m.used) && SameObjects(m, order, m')
    requires Built(m'.pool, |order|, m'.index, m'.cur) && p < |order|
    ensures m'.index[m'.pool[p].id] == p
  {
    var j := m'.index[m'.pool[p].id];
    var a, b := order[p], order[j];
    assert a in m.used && b in m.used && m.pool[a].id == m.pool[b].id;
    if a in m.leaked && b in m.leaked {
      TwoInSet(m.leaked, a, b);
    }
    assert a == b;
  }

  lemma TwoInSet(s: set<nat>, a: nat, b: nat)
    requires a in s && b in s
    ensures a != b ==> |s| >= 2
  {
    if a != b {
      assert {a, b} <= s;
      SubsetSize({a, b}, s);
    }
  }

  lemma RestoreIndex(m': Manager<Session>, count: nat)
    requires count <= |m'.pool| == m'.size && Built(m'.pool, count, m'.index, m'.cur)
    requires forall p: nat :: p in m'.used <==> p < count
    requires forall p :: 0 <= p < count ==> m'.index[m'.pool[p].id] == p
    requires m'.failed == 0 && m'.leaked == {} && |m'.index| == count
    ensures IndexOk(m', BLANK)
  {
    CountBelow(m'.used, count);
  }

  lemma {:induction false} CountBelow(s: set<nat>, n: nat)
    requires forall p: nat :: p in s <==> p < n
    ensures |s| == n
  {
    if n == 0 {
      assert s == {};
    } else {
      CountBelow(s - {n - 1}, n - 1);
    }
  }

  /** A pool restored from one that leaked at most one slot satisfies everything a fresh one
      does: a single leaked slot is an ordinary session with id 0 from then on.  If two slots
      were leaked, only one of them is indexed, and the other is lost again. */
  lemma RestoreIsClean(m: Manager<Session>, order: seq<nat>, m': Manager<Session>)
    requires Inv(m, BLANK) && 0 !in m.index && Enumerates(order, m.used)
    requires Loaded(m', Objects(m, order)) && Built(m'.pool, |order|, m'.index, m'.cur)
    requires m'.failed == 0 && m'.leaked == {}
    ensures Inv(m', BLANK) <==> m.failed <= 1
  {
    if m.failed <= 1 {
      CleanAfterOneLeak(m, order, m');
    } else {
      BrokenAfterTwoLeaks(m, order, m');
    }
  }

  lemma CleanAfterOneLeak(m: Manager<Session>, order: seq<nat>, m': Manager<Session>)
    requires Inv(m, BLANK) && 0 !in m.index && Enumerates(order, m.used) && m.failed <= 1
    requires Loaded(m', Objects(m, order)) && Built(m'.pool, |order|, m'.index, m'.cur)
    requires m'.failed == 0 && m'.leaked == {}
    ensures Inv(m', BLANK)
  {
    hide IndexOk, FreeOk;
    RestoredOwners(m, order, m');
    RestoredCount(m, order, m');
    RestoreFree(m', |order|);
    RestoreIndex(m', |order|);
  }

  lemma RestoredOwners(m: Manager<Session>, order: seq<nat>, m': Manager<Session>)
    requires Inv(m, BLANK) && 0 !in m.index && Enumerates(order, m.used) && m.failed <= 1
    requires Loaded(m', Objects(m, order)) && Built(m'.pool, |order|, m'.index, m'.cur)
    ensures forall p :: 0 <= p < |order| ==> m'.index[m'.pool[p].id] == p
  {
    LoadedAt(m, order, m');
    forall p | 0 <= p < |order|
      ensures m'.index[m'.pool[p].id] == p
    {
      RestoredOwner(m, order, m', p);
    }
  }

  lemma BrokenAfterTwoLeaks(m: Manager<Session>, order: seq<nat>, m': Manager<Session>)
    requires Inv(m, BLANK) && Enumerates(order, m.used) && m.failed >= 2
    requires Loaded(m', Objects(m, order)) && m'.leaked == {}
    ensures !Inv(m', BLANK)
  {
    LoadedAt(m, order, m');
    var a, b := TwoLeaks(m.leaked);
    assert a in m.used && b in m.used && a in order && b in order;
    var i, j :| 0 <= i < |order| && 0 <= j < |order| && order[i] == a && order[j] == b;
    SameIdTwice(m', i, j);
  }

  lemma SameIdTwice(m: Manager<Session>, i: nat, j: nat)
    requires i in m.used && j in m.used && i < |m.pool| && j < |m.pool| && i != j
    requires m.pool[i].id == m.pool[j].id && m.leaked == {}
    ensures !Inv(m, BLANK)
  {
  }

  lemma TwoLeaks(s: set<nat>) returns (a: nat, b: nat)
    requires |s| >= 2
    ensures a in s && b in s && a != b
  {
    a :| a in s;
    assert s - {a} != {} by {
      assert |s - {a}| == |s| - 1;
    }
    b :| b in s - {a};
  }

  lemma RestoredCount(m: Manager<Session>, order: seq<nat>, m': Manager<Session>)
    requires Inv(m, BLANK) && 0 !in m.index && m.failed <= 1 && Enumerates(order, m.used)
    requires Loaded(m', Objects(m, order)) && Built(m'.pool, |order|, m'.index, m'.cur)
    ensures |m'.index| == |order|
  {
    hide Object, Loaded, Built, FreeOk;
    RestoreKeepsSessions(m, order, m');
    IndexSize(m, m');
  }

  lemma IndexSize(m: Manager<Session>, m': Manager<Session>)
    requires 0 !in m.index && m.failed <= 1
    requires forall id :: id in m'.index <==> id in m.index || (id == 0 && m.failed > 0)
    ensures |m'.index| == |m.index| + m.failed
  {
    if m.failed == 0 {
      assert m'.index.Keys == m.index.Keys;
    } else {
      assert m'.index.Keys == m.index.Keys + {0};
    }
  }

  /** One process saves its pool and ends; the next one starts with a pool at least as large. */
  method Restart(m: ObjectManager<Session>, size: uint32, ghost top: int) returns (ok: bool, next: ObjectManager<Session>)
    requires m.Valid() && m.blank == BLANK && 0 !in m.index && |m.used| <= size
    requires CounterOk(m.View(), top) && CounterFits(m.size, top)
    ensures ok && fresh(next) && fresh(next.pool) && next.size == size && next.blank == BLANK
    ensures SurvivesRestart(m.View(), next.View(), top)
  {
    var buf, order;
    buf, ok, order := ReleaseToBuffer(m);
    ghost var v := m.View();
    ghost var objs := Objects(v, order);
    ok, next := InitFromBuffer(size, buf, objs);
    assert Count(size, objs) == |objs| && objs[..|objs|] == objs;
    AfterRestart(v, order, next.View(), top);
  }

  /** What a restart preserves, about the two pools as values. */
  lemma Restarted(m: Manager<Session>, order: seq<nat>, m': Manager<Session>, top: int)
    requires Inv(m, BLANK) && 0 !in m.index && Enumerates(order, m.used)
    requires CounterOk(m, top) && CounterFits(m.size, top)
    requires Loaded(m', Objects(m, order)) && Built(m'.pool, |order|, m'.index, m'.cur)
    requires m'.failed == 0 && m'.leaked == {}
    ensures forall id :: id in m.index ==> id in m'.index && Object(m', id) == Object(m, id)
    ensures forall id :: id in m'.index <==> id in m.index || (id == 0 && m.failed > 0)
    ensures Inv(m', BLANK) <==> m.failed <= 1
    ensures CounterOk(m', top + MAX_TRIES * (m.failed + 1)) && m'.cur + 1 < U32
    ensures |m.used| < m'.size ==> m'.free != [] && |m'.pool| == m'.size
  {
    hide IndexOk, Object, Built, Objects;
    ObjectsLength(m, order);
    RestoreKeepsSessions(m, order, m');
    RestoreIsClean(m, order, m');
    RestoreCounter(m, m', |order|, top);
    CounterBelow(m, m', top);
    RoomLeft(m', Objects(m, order));
  }

  lemma ObjectsLength(m: Manager<Session>, order: seq<nat>)
    requires forall p :: p in order ==> p < |m.pool|
    ensures |Objects(m, order)| == |order|
  {
  }

  lemma CounterBelow(m: Manager<Session>, m': Manager<Session>, top: int)
    requires Inv(m, BLANK) && CounterFits(m.size, top)
    requires CounterOk(m', top + MAX_TRIES * (m.failed + 1)) && m'.failed == 0
    ensures m'.cur + 1 < U32
  {
    hide IndexOk, FreeOk;
    UsedBound(m, BLANK);
  }

  lemma AfterRestart(m: Manager<Session>, order: seq<nat>, m': Manager<Session>, top: int)
    requires Inv(m, BLANK) && 0 !in m.index && Enumerates(order, m.used)
    requires CounterOk(m, top) && CounterFits(m.size, top)
    requires Loaded(m', Objects(m, order)) && Built(m'.pool, |order|, m'.index, m'.cur)
    requires m'.failed == 0 && m'.leaked == {}
    ensures SurvivesRestart(m, m', top)
  {
    hide Inv, Object, Built, Objects, Loaded, Create, CounterOk;
    Restarted(m, order, m', top);
    if |m.used| < m'.size {
      FirstIdsAreFresh(m', |order|);
    }
  }

  /** Every session of `m` is in `m'` under its id, `m'` is as good as a fresh pool unless two
      slots were leaked, its counter is again far from wrapping, and its first id is free. */
  ghost predicate SurvivesRestart(m: Manager<Session>, m': Manager<Session>, top: int) {
    && (forall id :: id in m.index ==> id in m'.index && Object(m', id) == Object(m, id))
    && (forall id :: id in m'.index <==> id in m.index || (id == 0 && m.failed > 0))
    && (Inv(m', BLANK) <==> m.failed <= 1)
    && CounterOk(m', top + MAX_TRIES * (m.failed + 1))
    && (|m.used| < m'.size ==> m'.cur + 1 < U32 && forall body :: Create(m', BLANK, body).1 == Some(m'.cur + 1))
  }

  lemma RoomLeft(m: Manager<Session>, objs: seq<Slot<Session>>)
    requires Loaded(m, objs)
    ensures |objs| < m.size ==> m.free != [] && |m.pool| == m.size
  {
  }

  lemma FirstIdsAreFresh(m: Manager<Session>, count: nat)
    requires count <= |m.pool| == m.size && Built(m.pool, count, m.index, m.cur) && m.free != [] && m.cur + 1 < U32
    ensures forall body :: Create(m, BLANK, body).1 == Some(m.cur + 1)
  {
    forall body
      ensures Create(m, BLANK, body).1 == Some(m.cur + 1)
    {
      FirstIdIsFresh(m, count, body);
    }
  }
}
