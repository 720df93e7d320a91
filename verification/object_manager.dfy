/** The pool with its id index as the managers keep it: one object whose methods change the
    lists, the pool and the index in place. */
module ObjectManagers {
  import opened Shared
  import opened Bytes
  import opened IdPool

  /** `SessionManager` and `TimerManager` share this code, each with its own body type. */
  class ObjectManager<P(!new)> {
    const blank: P
    var size: nat
    var free: seq<nat>
    var used: set<nat>
    const pool: array<Slot<P>>
    var index: map<uint32, nat>
    var cur: uint32
    ghost var failed: nat
    ghost var leaked: set<nat>

    ghost function View(): Manager<P>
      reads this, pool
    {
      Manager(size, free, used, pool[..], index, cur, failed, leaked)
    }

    ghost predicate Valid()
      reads this, pool
    {
      Inv(View(), blank)
    }

    /** The free list and the used set agree, whatever the index says. */
    ghost predicate PoolOk()
      reads this, pool
    {
      pool.Length == size && FreeOk(size, free, used)
    }

    constructor (size: uint32, blank: P)
      ensures fresh(pool) && this.blank == blank
      ensures View() == Fresh(size, blank) && Valid()
    {
      this.size := size;
      this.blank := blank;
      pool := new Slot<P>[size](_ => Slot(0, blank));
      free, used, index, cur, failed, leaked := [], {}, map[], 0, 0, {};
      new;
      for pos := 0 to size
        invariant free == seq(pos, (i: nat) => i)
        invariant this.size == size && used == {} && index == map[] && cur == 0 && failed == 0 && leaked == {}
        invariant pool.Length == size && forall i :: 0 <= i < size ==> pool[i] == Slot(0, blank)
      {
        free := free + [pos];
      }
      assert pool[..] == seq(size, _ => Slot(0, blank));
      forall p: nat | p < size
        ensures p in free
      {
        assert free[p] == p;
      }
    }

    /** The position taken, or -1 when the pool is full. */
    method Malloc() returns (pos: int)
      requires PoolOk()
      modifies this`free, this`used, pool
      ensures old(free) == [] ==> pos == -1 && View() == old(View())
      ensures old(free) != [] ==> pos == old(free[0]) && View() == IdPool.Malloc(old(View()), blank)
      ensures PoolOk()
    {
      if free == [] {
        return -1;
      }
      pos := free[0];
      MallocKeepsFree(View(), blank);
      free := free[1..];
      used := used + {pos};
      pool[pos] := Slot(0, blank);
    }

    method Free(pos: nat) returns (ok: bool)
      requires Valid()
      modifies this`free, this`used, pool
      ensures View() == IdPool.Free(old(View()), blank, pos) && ok == (pos < size)
    {
      if pos >= size {
        return false;
      }
      free := free + [pos];
      used := used - {pos};
      pool[pos] := Slot(0, blank);
      ok := true;
    }

    /** The id search: up to ten consecutive ids are tried. */
    method SearchId() returns (id: Option<uint32>)
      modifies this`cur
      ensures (id, cur) == Search(index, old(cur), 0)
    {
      var count := 0;
      while true
        invariant count < MAX_TRIES
        invariant Search(index, cur, count) == Search(index, old(cur), 0)
        decreases MAX_TRIES - count
      {
        cur := NextId(cur);
        if cur !in index {
          return Some(cur);
        }
        count := count + 1;
        if count >= MAX_TRIES {
          return None;
        }
      }
    }

    /** Takes a slot, then searches for an id.  A search that gives up keeps the slot. */
    method CreateObject(body: P) returns (id: Option<uint32>)
      requires Valid()
      modifies this, pool
      ensures Valid()
      ensures (View(), id) == Create(old(View()), blank, body)
    {
      ghost var v := View();
      assert Inv(Create(v, blank, body).0, blank) by {
        CreateKeepsInv(v, blank, body);
      }
      id := TakeSlot(body);
    }

    method TakeSlot(body: P) returns (id: Option<uint32>)
      requires PoolOk()
      modifies this, pool
      ensures (View(), id) == Create(old(View()), blank, body)
    {
      var pos := Malloc();
      if pos == -1 {
        return None;
      }
      id := SearchId();
      if id.None? {
        leaked, failed := leaked + {pos}, failed + 1;
        return;
      }
      SearchFound(index, old(cur), 0);
      cur := cur % (ID_MASK + 1);
      pool[pos] := Slot(id.value, body);
      index := index[id.value := pos];
    }

    method GetObject(id: uint32) returns (obj: Option<Slot<P>>)
      requires Valid()
      ensures obj == Object(View(), id)
    {
      if id !in index {
        return None;
      }
      return Some(pool[index[id]]);
    }

    method ReleaseObject(id: uint32) returns (ok: bool)
      requires Valid()
      modifies this, pool
      ensures Valid()
      ensures View() == Release(old(View()), blank, id) && ok == (id in old(index))
    {
      ReleaseKeepsInv(View(), blank, id);
      if id !in index {
        return false;
      }
      ok := Free(index[id]);
      index := index - {id};
    }

    /** A handler writing to an object it holds. */
    method SetBody(id: uint32, body: P)
      requires Valid() && id in index
      modifies pool
      ensures Valid() && View() == Update(old(View()), id, body)
    {
      UpdateKeepsInv(View(), blank, id, body);
      pool[index[id]] := Slot(pool[index[id]].id, body);
    }

    /** The second loop of the two sweeps. */
    method ReleaseObjects(ids: seq<uint32>)
      requires Valid()
      modifies this, pool
      ensures Valid()
      ensures View() == ReleaseAll(old(View()), blank, ids)
    {
      for i := 0 to |ids|
        invariant Valid()
        invariant ReleaseAll(View(), blank, ids[i..]) == ReleaseAll(old(View()), blank, ids)
      {
        assert ids[i..][1..] == ids[i + 1..];
        var _ := ReleaseObject(ids[i]);
      }
    }
  }
}
