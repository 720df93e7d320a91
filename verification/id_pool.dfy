/** What the object pool, the id index and the id generator of `SessionManager` and
    `TimerManager` do, as functions on one value, and what every run of them keeps. */
module IdPool {
  import opened Shared
  import opened Bytes

  /** A pooled object: its id, and everything else. */
  datatype Slot<P> = Slot(id: uint32, body: P)

  /** `_free_list`, `_used_list`, `_pool`, `_index` and `_cur_max_id`.  No code reads the last
      two: `failed` counts the id searches that gave up and `leaked` is the slots they took. */
  datatype Manager<P> = Manager(
    size: nat, free: seq<nat>, used: set<nat>, pool: seq<Slot<P>>,
    index: map<uint32, nat>, cur: uint32, failed: nat, leaked: set<nat>)

  const ID_MASK: int := 0xfff_ffff
  const MAX_TRIES: nat := 10

  function Fresh<P>(size: nat, blank: P): Manager<P> {
    Manager(size, seq(size, (i: nat) => i), {}, seq(size, _ => Slot(0, blank)), map[], 0, 0, {})
  }

  function NextId(cur: uint32): uint32 {
    (cur + 1) % U32
  }

  /** The search loop: the id found, if any, and the counter afterwards. */
  function Search(index: map<uint32, nat>, cur: uint32, count: nat): (Option<uint32>, uint32)
    requires count < MAX_TRIES
    decreases MAX_TRIES - count
  {
    var id := NextId(cur);
    if id !in index then (Some(id), id)
    else if count + 1 >= MAX_TRIES then (None, id)
    else Search(index, id, count + 1)
  }

  /** Takes the first free slot and constructs a fresh object in it. */
  function Malloc<P>(m: Manager<P>, blank: P): Manager<P>
    requires m.free != []
  {
    var pos := m.free[0];
    m.(free := m.free[1..], used := m.used + {pos},
       pool := if pos < |m.pool| then m.pool[pos := Slot(0, blank)] else m.pool)
  }

  function Leak<P>(m: Manager<P>, pos: nat, cur: uint32): Manager<P> {
    m.(cur := cur, failed := m.failed + 1, leaked := m.leaked + {pos})
  }

  function Register<P>(m: Manager<P>, pos: nat, id: uint32, body: P): Manager<P> {
    m.(cur := id % (ID_MASK + 1), index := m.index[id := pos],
       pool := if pos < |m.pool| then m.pool[pos := Slot(id, body)] else m.pool)
  }

  /** `CreateSession`, `CreateTimer`: a failed search returns without giving the slot back. */
  function Create<P>(m: Manager<P>, blank: P, body: P): (Manager<P>, Option<uint32>) {
    if m.free == [] then (m, None)
    else
      var (found, cur) := Search(m.index, m.cur, 0);
      match found
      case None => (Leak(Malloc(m, blank), m.free[0], cur), None)
      case Some(id) => (Register(Malloc(m, blank), m.free[0], id, body), Some(id))
  }

  function Free<P>(m: Manager<P>, blank: P, pos: nat): Manager<P> {
    if pos >= m.size then m
    else m.(free := m.free + [pos], used := m.used - {pos},
            pool := if pos < |m.pool| then m.pool[pos := Slot(0, blank)] else m.pool)
  }

  function Release<P>(m: Manager<P>, blank: P, id: uint32): Manager<P> {
    if id !in m.index then m
    else Free(m, blank, m.index[id]).(index := m.index - {id})
  }

  /** The second loop of `CheckTimeOut` and of `Tick`. */
  function ReleaseAll<P>(m: Manager<P>, blank: P, ids: seq<uint32>): Manager<P>
    decreases |ids|
  {
    if ids == [] then m else ReleaseAll(Release(m, blank, ids[0]), blank, ids[1..])
  }

  /** A handler changing the body of an object it looked up. */
  function Update<P>(m: Manager<P>, id: uint32, body: P): Manager<P> {
    if id !in m.index || m.index[id] >= |m.pool| then m
    else m.(pool := m.pool[m.index[id] := Slot(m.pool[m.index[id]].id, body)])
  }

  /** `GetSession`, `GetTimer`. */
  function Object<P>(m: Manager<P>, id: uint32): Option<Slot<P>> {
    if id in m.index && m.index[id] < |m.pool| then Some(m.pool[m.index[id]]) else None
  }

  // ---------------------------------------------------------------------------------------
  // Invariants
  // ---------------------------------------------------------------------------------------

  ghost predicate FreeOk(size: nat, free: seq<nat>, used: set<nat>) {
    && (forall i, j :: 0 <= i < j < |free| ==> free[i] != free[j])
    && (forall i :: 0 <= i < |free| ==> free[i] < size && free[i] !in used)
    && (forall p: nat :: p < size ==> p in used || p in free)
    && (forall p :: p in used ==> p < size)
  }

  /** The index and the used slots agree: each indexed object carries its own id, and a used
      slot either is indexed under the id it carries or was leaked by a failed search. */
  ghost predicate IndexOk<P(!new)>(m: Manager<P>, blank: P)
    requires |m.pool| == m.size
  {
    && (forall id :: id in m.index ==>
          m.index[id] in m.used - m.leaked && m.index[id] < m.size && m.pool[m.index[id]].id == id)
    && (forall p :: p in m.used && p < m.size ==>
          if p in m.leaked then m.pool[p] == Slot(0, blank)
          else m.pool[p].id in m.index && m.index[m.pool[p].id] == p)
    && (forall p :: p in m.leaked ==> p in m.used) && |m.leaked| == m.failed
    && |m.used| == |m.index| + m.failed
  }

  ghost predicate Inv<P(!new)>(m: Manager<P>, blank: P) {
    |m.pool| == m.size && FreeOk(m.size, m.free, m.used) && IndexOk(m, blank)
  }

  /** From a counter of at most `top`, the counter and the ids run past it only by ten per
      failed search. */
  ghost predicate CounterOk<P>(m: Manager<P>, top: int) {
    && ID_MASK <= top && m.cur <= top + MAX_TRIES * m.failed
    && forall id :: id in m.index ==> id <= top + MAX_TRIES * (m.failed + 1)
  }

  /** Even if every slot is lost to a failed search, the counter stays below 2^32. */
  ghost predicate CounterFits(size: nat, top: int) {
    top + MAX_TRIES * (size + 2) < U32
  }

  lemma {:induction false} BoundedSet(s: set<nat>, size: nat)
    requires forall p :: p in s ==> p < size
    ensures |s| <= size
  {
    if size == 0 {
      assert s == {};
    } else {
      BoundedSet(s - {size - 1}, size - 1);
    }
  }

  /** The `n` ids after `cur`. */
  function Following(cur: int, n: nat): (ids: set<int>)
    ensures forall id :: id in ids ==> cur < id <= cur + n
    ensures |ids| == n
  {
    if n == 0 then {} else Following(cur, n - 1) + {cur + n}
  }

  lemma {:induction false} SubsetSize<T>(a: set<T>, b: set<T>)
    requires a <= b
    ensures |a| <= |b|
  {
    if a != {} {
      var x :| x in a;
      SubsetSize(a - {x}, b - {x});
    }
  }

  /** The search tries consecutive ids, gives the first that is not in use, and gives up only
      when all ten are in use. */
  lemma {:induction false} SearchResult(index: map<uint32, nat>, cur: uint32, count: nat)
    requires count < MAX_TRIES && cur + MAX_TRIES - count < U32
    ensures var (found, cur') := Search(index, cur, count);
            && cur < cur' <= cur + MAX_TRIES - count
            && (forall id: uint32 :: cur < id < cur' ==> id in index)
            && (found.Some? ==> found.value == cur' && cur' !in index)
            && (found.None? ==> cur' == cur + MAX_TRIES - count && cur' in index)
    decreases MAX_TRIES - count
  {
    var id := NextId(cur);
    assert id == cur + 1;
    if id in index && count + 1 < MAX_TRIES {
      SearchResult(index, id, count + 1);
    }
  }

  lemma SearchFound(index: map<uint32, nat>, cur: uint32, count: nat)
    requires count < MAX_TRIES
    ensures var (found, cur') := Search(index, cur, count); found.Some? ==> found.value == cur' && cur' !in index
    decreases MAX_TRIES - count
  {
  }

  lemma MallocKeepsFree<P>(m: Manager<P>, blank: P)
    requires FreeOk(m.size, m.free, m.used) && m.free != []
    ensures FreeOk(m.size, Malloc(m, blank).free, Malloc(m, blank).used)
    ensures m.free[0] < m.size && m.free[0] !in m.used
  {
    assert m.free == [m.free[0]] + m.free[1..];
  }

  /** Taking the slot `pos` out of use or into it concerns the index only through that slot. */
  lemma LeakKeepsIndex<P(!new)>(m: Manager<P>, m': Manager<P>, blank: P, pos: nat)
    requires |m.pool| == m.size && IndexOk(m, blank) && pos < m.size && pos !in m.used
    requires m'.size == m.size && m'.used == m.used + {pos} && m'.pool == m.pool[pos := Slot(0, blank)]
    requires m'.index == m.index && m'.leaked == m.leaked + {pos} && m'.failed == m.failed + 1
    ensures IndexOk(m', blank)
  {
    forall i | i in m'.index
      ensures m'.index[i] in m'.used - m'.leaked && m'.index[i] < m'.size && m'.pool[m'.index[i]].id == i
    {
      assert m.index[i] in m.used;
    }
    forall p | p in m'.used && p < m'.size
      ensures if p in m'.leaked then m'.pool[p] == Slot(0, blank) else m'.pool[p].id in m'.index && m'.index[m'.pool[p].id] == p
    {
      assert p != pos ==> p in m.used;
    }
  }

  lemma RegisterKeepsIndex<P(!new)>(m: Manager<P>, m': Manager<P>, blank: P, pos: nat, id: uint32, body: P)
    requires |m.pool| == m.size && IndexOk(m, blank) && pos < m.size && pos !in m.used && id !in m.index
    requires m'.size == m.size && m'.used == m.used + {pos} && m'.pool == m.pool[pos := Slot(id, body)]
    requires m'.index == m.index[id := pos] && m'.leaked == m.leaked && m'.failed == m.failed
    ensures IndexOk(m', blank)
  {
    forall i | i in m'.index
      ensures m'.index[i] in m'.used - m'.leaked && m'.index[i] < m'.size && m'.pool[m'.index[i]].id == i
    {
      if i != id {
        assert m.index[i] in m.used;
      }
    }
    forall p | p in m'.used && p < m'.size
      ensures if p in m'.leaked then m'.pool[p] == Slot(0, blank) else m'.pool[p].id in m'.index && m'.index[m'.pool[p].id] == p
    {
      if p != pos && p !in m.leaked {
        assert m.pool[p].id in m.index && m.pool[p].id != id;
      }
    }
  }

  lemma LeakKeepsInv<P(!new)>(m: Manager<P>, blank: P, cur: uint32)
    requires Inv(m, blank) && m.free != []
    ensures Inv(Leak(Malloc(m, blank), m.free[0], cur), blank)
  {
    MallocKeepsFree(m, blank);
    LeakKeepsIndex(m, Leak(Malloc(m, blank), m.free[0], cur), blank, m.free[0]);
  }

  lemma RegisterKeepsInv<P(!new)>(m: Manager<P>, blank: P, id: uint32, body: P)
    requires Inv(m, blank) && m.free != [] && id !in m.index
    ensures Inv(Register(Malloc(m, blank), m.free[0], id, body), blank)
  {
    MallocKeepsFree(m, blank);
    RegisterKeepsIndex(m, Register(Malloc(m, blank), m.free[0], id, body), blank, m.free[0], id, body);
  }

  lemma CreateKeepsInv<P(!new)>(m: Manager<P>, blank: P, body: P)
    requires Inv(m, blank)
    ensures Inv(Create(m, blank, body).0, blank)
  {
    if m.free != [] {
      SearchFound(m.index, m.cur, 0);
      var (found, cur) := Search(m.index, m.cur, 0);
      match found
      case None => LeakKeepsInv(m, blank, cur);
      case Some(id) => RegisterKeepsInv(m, blank, id, body);
    }
  }

  lemma RegisterAddsOne<P(!new)>(m: Manager<P>, blank: P, id: uint32, body: P, i: uint32)
    requires Inv(m, blank) && m.free != [] && id !in m.index
    ensures var m' := Register(Malloc(m, blank), m.free[0], id, body);
            && (i in m'.index <==> i in m.index || i == id)
            && (i in m.index ==> Object(m', i) == Object(m, i))
            && Object(m', id) == Some(Slot(id, body))
  {
    hide Inv;
    FrontIsFree(m, blank, i);
  }

  lemma FrontIsFree<P(!new)>(m: Manager<P>, blank: P, i: uint32)
    requires Inv(m, blank) && m.free != []
    ensures m.free[0] < |m.pool| && (i in m.index ==> m.index[i] != m.free[0] && m.index[i] < |m.pool|)
  {
    MallocKeepsFree(m, blank);
  }

  /** A create adds at most one object and disturbs no other. */
  lemma CreateAddsOne<P(!new)>(m: Manager<P>, blank: P, body: P)
    requires Inv(m, blank)
    ensures var (m', r) := Create(m, blank, body);
            && (forall i :: i in m'.index <==> i in m.index || r == Some(i))
            && (forall i :: i in m.index ==> Object(m', i) == Object(m, i))
            && (r.Some? ==> r.value !in m.index && Object(m', r.value) == Some(Slot(r.value, body)))
  {
    if m.free != [] {
      MallocKeepsFree(m, blank);
      SearchFound(m.index, m.cur, 0);
      var found := Search(m.index, m.cur, 0).0;
      if found.Some? {
        var m' := Register(Malloc(m, blank), m.free[0], found.value, body);
        forall i: uint32
          ensures i in m'.index <==> i in m.index || i == found.value
          ensures i in m.index ==> Object(m', i) == Object(m, i)
          ensures Object(m', found.value) == Some(Slot(found.value, body))
        {
          RegisterAddsOne(m, blank, found.value, body, i);
        }
      } else {
        LeakDisturbsNone(m, blank, Search(m.index, m.cur, 0).1);
      }
    }
  }

  lemma LeakDisturbsNone<P(!new)>(m: Manager<P>, blank: P, cur: uint32)
    requires Inv(m, blank) && m.free != []
    ensures var m' := Leak(Malloc(m, blank), m.free[0], cur);
            m'.index == m.index && forall i :: i in m.index ==> Object(m', i) == Object(m, i)
  {
    MallocKeepsFree(m, blank);
  }

  lemma FreeKeepsFree<P>(m: Manager<P>, blank: P, pos: nat)
    requires FreeOk(m.size, m.free, m.used) && pos in m.used
    ensures FreeOk(m.size, Free(m, blank, pos).free, Free(m, blank, pos).used)
  {
  }

  lemma ReleaseKeepsInv<P(!new)>(m: Manager<P>, blank: P, id: uint32)
    requires Inv(m, blank)
    ensures Inv(Release(m, blank, id), blank)
    ensures Release(m, blank, id).index == m.index - {id}
    ensures forall i :: i in m.index && i != id ==> Object(Release(m, blank, id), i) == Object(m, i)
  {
    if id in m.index {
      FreeKeepsFree(m, blank, m.index[id]);
      FreeKeepsIndex(m, Release(m, blank, id), blank, id);
    } else {
      assert m.index - {id} == m.index;
    }
  }

  lemma FreeKeepsIndex<P(!new)>(m: Manager<P>, m': Manager<P>, blank: P, id: uint32)
    requires |m.pool| == m.size && IndexOk(m, blank) && id in m.index
    requires m'.size == m.size && m'.used == m.used - {m.index[id]} && m'.pool == m.pool[m.index[id] := Slot(0, blank)]
    requires m'.index == m.index - {id} && m'.leaked == m.leaked && m'.failed == m.failed
    ensures IndexOk(m', blank)
  {
    assert m'.index.Keys == m.index.Keys - {id};
    forall i | i in m'.index
      ensures m'.index[i] in m'.used - m'.leaked && m'.index[i] < m'.size && m'.pool[m'.index[i]].id == i
    {
      assert m.index[i] != m.index[id];
    }
    forall p | p in m'.used && p < m'.size
      ensures if p in m'.leaked then m'.pool[p] == Slot(0, blank) else m'.pool[p].id in m'.index && m'.index[m'.pool[p].id] == p
    {
      assert p in m.used;
    }
  }

  /** Writing to an object changes that one alone. */
  lemma UpdateKeepsInv<P(!new)>(m: Manager<P>, blank: P, id: uint32, body: P)
    requires Inv(m, blank)
    ensures Inv(Update(m, id, body), blank)
    ensures Update(m, id, body) == m.(pool := Update(m, id, body).pool)
    ensures forall i :: i in m.index ==>
              Object(Update(m, id, body), i) == if i == id then Some(Slot(id, body)) else Object(m, i)
  {
  }

  /** A create never wraps the counter, never hands out id 0, and on a pool with room fails
      only when the next ten ids are all in use. */
  lemma CreateKeepsCounter<P(!new)>(m: Manager<P>, blank: P, body: P, top: int)
    requires Inv(m, blank) && CounterOk(m, top) && CounterFits(m.size, top)
    ensures CounterOk(Create(m, blank, body).0, top)
    ensures m.cur + MAX_TRIES < U32
    ensures var r := Create(m, blank, body).1;
            && (r.Some? ==> r.value != 0 && r.value !in m.index)
            && (r.None? && m.free != [] ==> forall id: uint32 :: m.cur < id <= m.cur + MAX_TRIES ==> id in m.index)
            && (r.None? && m.free != [] ==> |m.index| >= MAX_TRIES)
  {
    hide FreeOk, IndexOk, Search;
    CurBelow(m, blank, top);
    if m.free != [] {
      SearchResult(m.index, m.cur, 0);
      CounterAfterCreate(m, blank, body, top);
      if Search(m.index, m.cur, 0).0.None? {
        TenInUse(m.index, m.cur);
      }
    }
  }

  lemma CurBelow<P(!new)>(m: Manager<P>, blank: P, top: int)
    requires Inv(m, blank) && CounterOk(m, top) && CounterFits(m.size, top)
    ensures m.cur + MAX_TRIES < U32
  {
    hide FreeOk, IndexOk;
    UsedBound(m, blank);
  }

  lemma CounterAfterCreate<P>(m: Manager<P>, blank: P, body: P, top: int)
    requires CounterOk(m, top) && m.free != []
    requires m.cur < Search(m.index, m.cur, 0).1 <= m.cur + MAX_TRIES
    requires Search(m.index, m.cur, 0).0.Some? ==> Search(m.index, m.cur, 0).0.value == Search(m.index, m.cur, 0).1
    ensures CounterOk(Create(m, blank, body).0, top)
  {
    hide Search;
  }

  lemma UsedBound<P(!new)>(m: Manager<P>, blank: P)
    requires Inv(m, blank)
    ensures m.failed <= |m.used| <= m.size
    ensures m.free != [] ==> |m.used| < m.size
  {
    BoundedSet(m.used, m.size);
    if m.free != [] {
      MallocKeepsFree(m, blank);
      BoundedSet(m.used + {m.free[0]}, m.size);
    }
  }

  lemma TenInUse(index: map<uint32, nat>, cur: uint32)
    requires cur + MAX_TRIES < U32
    requires forall id: uint32 :: cur < id <= cur + MAX_TRIES ==> id in index
    ensures |index| >= MAX_TRIES
  {
    var ids := Following(cur, MAX_TRIES);
    forall id | id in ids
      ensures id in index.Keys
    {
      var u: uint32 := id;
      assert u in index;
    }
    SubsetSize(ids, index.Keys);
  }

  // ---------------------------------------------------------------------------------------
  // Runs
  // ---------------------------------------------------------------------------------------

  datatype Op<P> =
    | OpCreate(body: P)
    | OpRelease(id: uint32)
    | OpReleaseAll(ids: seq<uint32>)
    | OpUpdate(id: uint32, body: P)

  function Apply<P>(m: Manager<P>, blank: P, op: Op<P>): Manager<P> {
    match op
    case OpCreate(body) => Create(m, blank, body).0
    case OpRelease(id) => Release(m, blank, id)
    case OpReleaseAll(ids) => ReleaseAll(m, blank, ids)
    case OpUpdate(id, body) => Update(m, id, body)
  }

  function RunOps<P>(m: Manager<P>, blank: P, ops: seq<Op<P>>): Manager<P>
    decreases |ops|
  {
    if ops == [] then m else RunOps(Apply(m, blank, ops[0]), blank, ops[1..])
  }

  lemma {:induction false} ReleaseAllKeeps<P(!new)>(m: Manager<P>, blank: P, ids: seq<uint32>)
    requires Inv(m, blank)
    ensures var m' := ReleaseAll(m, blank, ids);
            && Inv(m', blank)
            && (forall i :: i in m'.index <==> i in m.index && i !in ids)
            && (forall i :: i in m'.index ==> Object(m', i) == Object(m, i))
            && m'.size == m.size && m'.cur == m.cur && m'.leaked == m.leaked && m'.failed == m.failed
    decreases |ids|
  {
    hide FreeOk, IndexOk, Object;
    if ids != [] {
      ReleaseKeepsInv(m, blank, ids[0]);
      ReleaseAllKeeps(Release(m, blank, ids[0]), blank, ids[1..]);
      assert ids == [ids[0]] + ids[1..];
    }
  }

  lemma CounterStays<P>(m: Manager<P>, m': Manager<P>, top: int)
    requires CounterOk(m, top) && m'.cur == m.cur && m'.failed == m.failed
    requires forall id :: id in m'.index ==> id in m.index
    ensures CounterOk(m', top)
  {
  }

  lemma ApplyKeeps<P(!new)>(m: Manager<P>, blank: P, op: Op<P>, top: int)
    requires Inv(m, blank) && CounterOk(m, top) && CounterFits(m.size, top) && 0 !in m.index
    ensures Inv(Apply(m, blank, op), blank) && CounterOk(Apply(m, blank, op), top)
    ensures Apply(m, blank, op).size == m.size && 0 !in Apply(m, blank, op).index
  {
    hide Inv, CounterOk, Object, Search;
    match op {
      case OpCreate(body) => CreateKeepsInv(m, blank, body); CreateAddsOne(m, blank, body); CreateKeepsCounter(m, blank, body, top);
      case OpRelease(id) => ReleaseKeepsInv(m, blank, id); CounterStays(m, Release(m, blank, id), top);
      case OpReleaseAll(ids) => ReleaseAllKeeps(m, blank, ids); CounterStays(m, ReleaseAll(m, blank, ids), top);
      case OpUpdate(id, body) => UpdateKeepsInv(m, blank, id, body); CounterStays(m, Update(m, id, body), top);
    }
  }

  lemma {:induction false} RunKeeps<P(!new)>(m: Manager<P>, blank: P, ops: seq<Op<P>>, top: int)
    requires Inv(m, blank) && CounterOk(m, top) && CounterFits(m.size, top) && 0 !in m.index
    ensures Inv(RunOps(m, blank, ops), blank) && CounterOk(RunOps(m, blank, ops), top)
    ensures RunOps(m, blank, ops).size == m.size && 0 !in RunOps(m, blank, ops).index
    decreases |ops|
  {
    if ops != [] {
      ApplyKeeps(m, blank, ops[0], top);
      RunKeeps(Apply(m, blank, ops[0]), blank, ops[1..], top);
    }
  }

  /** From a fresh pool of at most 2^28 slots, after any run: the free list and the used set
      partition the slots, the index names used slots one to one, every failed search has
      cost one slot for good, the counter has not wrapped, and no object has id 0. */
  lemma EveryRun<P(!new)>(size: nat, blank: P, ops: seq<Op<P>>)
    requires size <= ID_MASK + 1
    ensures var m := RunOps(Fresh(size, blank), blank, ops);
            && Inv(m, blank)
            && |m.used| == |m.index| + m.failed
            && CounterOk(m, ID_MASK) && m.cur + MAX_TRIES < U32 && 0 !in m.index
  {
    var f := Fresh(size, blank);
    assert Inv(f, blank) by {
      forall p: nat | p < size
        ensures p in f.free
      {
        assert f.free[p] == p;
      }
    }
    RunKeeps(f, blank, ops, ID_MASK);
    var m := RunOps(f, blank, ops);
    BoundedSet(m.used, m.size);
  }

  // ---------------------------------------------------------------------------------------
  // Which id and which slot
  // ---------------------------------------------------------------------------------------

  /** A creation takes the slot at the front of the free list and the first id behind the counter
      that is not in use, up to the tenth; the counter moves to that id, cut to 28 bits, or by
      ten if there was none. */
  lemma CreateTakesNext<P(!new)>(m: Manager<P>, blank: P, body: P, top: int)
    requires Inv(m, blank) && CounterOk(m, top) && CounterFits(m.size, top) && m.free != []
    ensures var (m', r) := Create(m, blank, body);
            && m'.free == m.free[1..] && m'.used == m.used + {m.free[0]}
            && (r.Some? ==>
                 && m.cur < r.value <= m.cur + 10 && r.value !in m.index
                 && (forall id: uint32 :: m.cur < id < r.value ==> id in m.index)
                 && m'.cur == r.value % 0x1000_0000 && m'.index == m.index[r.value := m.free[0]])
            && (r.None? ==>
                 && (forall id: uint32 :: m.cur < id <= m.cur + 10 ==> id in m.index)
                 && m'.cur == m.cur + 10 && m'.index == m.index && m'.leaked == m.leaked + {m.free[0]})
  {
    hide FreeOk, IndexOk, Search, CounterOk;
    CurBelow(m, blank, top);
    SearchResult(m.index, m.cur, 0);
    var (found, cur) := Search(m.index, m.cur, 0);
    assert Create(m, blank, body).1 == found;
  }

  function Creates<P>(bodies: seq<P>): seq<Op<P>>
    decreases |bodies|
  {
    if bodies == [] then [] else [OpCreate(bodies[0])] + Creates(bodies[1..])
  }

  /** Slots are taken in the order of the free list, also by creations that fail. */
  lemma {:induction false} SlotsInTurn<P>(m: Manager<P>, blank: P, bodies: seq<P>)
    requires |bodies| <= |m.free|
    ensures RunOps(m, blank, Creates(bodies)).free == m.free[|bodies|..]
    decreases |bodies|
  {
    hide Search;
    if bodies != [] {
      var m' := Create(m, blank, bodies[0]).0;
      assert Creates(bodies)[0] == OpCreate(bodies[0]) && Creates(bodies)[1..] == Creates(bodies[1..]);
      SlotsInTurn(m', blank, bodies[1..]);
    }
  }

  /** A released slot is taken again only after every slot that was free before it. */
  lemma ReleasedSlotIsLast<P(!new)>(m: Manager<P>, blank: P, id: uint32, bodies: seq<P>)
    requires Inv(m, blank) && id in m.index && |bodies| == |m.free|
    ensures RunOps(m, blank, [OpRelease(id)] + Creates(bodies)).free == [m.index[id]]
  {
    hide FreeOk, Search, Create;
    var ops := [OpRelease(id)] + Creates(bodies);
    assert ops[1..] == Creates(bodies);
    SlotsInTurn(Release(m, blank, id), blank, bodies);
  }
}
