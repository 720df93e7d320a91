/** When the id search can fail at all. */
module IdLeak {
  import opened Shared
  import opened Bytes
  import opened IdPool

  lemma {:induction false} RunAppend<P>(m: Manager<P>, blank: P, ops: seq<Op<P>>, more: seq<Op<P>>)
    ensures RunOps(m, blank, ops + more) == RunOps(RunOps(m, blank, ops), blank, more)
    decreases |ops|
  {
    if ops == [] {
      assert ops + more == more;
    } else {
      RunAppend(Apply(m, blank, ops[0]), blank, ops[1..], more);
      assert (ops + more)[1..] == ops[1..] + more;
    }
  }

  /** The ids from 1 to `n` are in use, and the counter stands at `cur`. */
  ghost predicate Live<P(!new)>(m: Manager<P>, blank: P, size: nat, n: nat, cur: int) {
    && Inv(m, blank) && m.size == size && m.failed == 0 && m.cur == cur
    && |m.index| == n && forall id :: id in m.index <==> 1 <= id <= n
  }

  lemma {:induction false} AllBelow(s: set<nat>, n: nat)
    requires forall p: nat :: p < n ==> p in s
    ensures |s| >= n
  {
    if n > 0 {
      AllBelow(s - {n - 1}, n - 1);
    }
  }

  lemma RoomLeft<P(!new)>(m: Manager<P>, blank: P)
    requires Inv(m, blank) && |m.used| < m.size
    ensures m.free != []
  {
    if m.free == [] {
      AllBelow(m.used, m.size);
    }
  }

  lemma LiveHasRoom<P(!new)>(m: Manager<P>, blank: P, size: nat, n: nat, cur: int)
    requires Live(m, blank, size, n, cur) && n < size
    ensures m.free != []
  {
    RoomLeft(m, blank);
  }

  /** The next id is free: it is given out. */
  lemma NextIsFree<P(!new)>(m: Manager<P>, blank: P, body: P)
    requires Inv(m, blank) && m.free != [] && m.cur + 1 < U32 && m.cur + 1 !in m.index
    ensures var (m', id) := Create(m, blank, body);
            && id == Some(m.cur + 1) && Inv(m', blank) && m'.size == m.size && m'.failed == m.failed
            && m'.cur == (m.cur + 1) % (ID_MASK + 1) && |m'.index| == |m.index| + 1
            && forall i :: i in m'.index <==> i in m.index || i == m.cur + 1
  {
    hide Inv;
    CreateKeepsInv(m, blank, body);
    CreateIs(m, blank, body);
  }

  lemma CreateIs<P>(m: Manager<P>, blank: P, body: P)
    requires m.free != [] && m.cur + 1 < U32 && m.cur + 1 !in m.index
    ensures Create(m, blank, body).0 == Register(Malloc(m, blank), m.free[0], m.cur + 1, body)
    ensures Create(m, blank, body).1 == Some(m.cur + 1)
  {
    assert NextId(m.cur) == m.cur + 1;
  }

  /** One more id is in use. */
  lemma OneMoreLive<P(!new)>(m: Manager<P>, blank: P, body: P, size: nat, n: nat)
    requires Live(m, blank, size, n, n) && n < MAX_TRIES < size
    ensures Live(Create(m, blank, body).0, blank, size, n + 1, n + 1)
  {
    hide Inv, Create;
    LiveHasRoom(m, blank, size, n, n);
    NextIsFree(m, blank, body);
  }

  lemma {:induction false} FirstTen<P(!new)>(size: nat, blank: P, body: P, n: nat) returns (ops: seq<Op<P>>)
    requires n <= MAX_TRIES < size
    ensures Live(RunOps(Fresh(size, blank), blank, ops), blank, size, n, n)
    decreases n
  {
    hide Live, Create;
    if n == 0 {
      ops := [];
      FreshIsLive(size, blank);
    } else {
      var before := FirstTen(size, blank, body, n - 1);
      var m := RunOps(Fresh(size, blank), blank, before);
      OneMoreLive(m, blank, body, size, n - 1);
      ops := before + [OpCreate(body)];
      RunAppend(Fresh(size, blank), blank, before, [OpCreate(body)]);
      RunOne(m, blank, OpCreate(body));
    }
  }

  lemma RunOne<P>(m: Manager<P>, blank: P, op: Op<P>)
    ensures RunOps(m, blank, [op]) == Apply(m, blank, op)
  {
    assert [op][1..] == [];
  }

  lemma RunTwo<P>(m: Manager<P>, blank: P, op: Op<P>, next: Op<P>)
    ensures RunOps(m, blank, [op, next]) == Apply(Apply(m, blank, op), blank, next)
  {
    assert [op, next] == [op] + [next];
    RunAppend(m, blank, [op], [next]);
    RunOne(m, blank, op);
    RunOne(Apply(m, blank, op), blank, next);
  }

  lemma FreshIsLive<P(!new)>(size: nat, blank: P)
    ensures Live(Fresh(size, blank), blank, size, 0, 0)
  {
    EveryRunInv(size, blank);
  }

  lemma EveryRunInv<P(!new)>(size: nat, blank: P)
    ensures Inv(Fresh(size, blank), blank)
  {
    var f := Fresh(size, blank);
    forall p: nat | p < size
      ensures p in f.free
    {
      assert f.free[p] == p;
    }
  }

  /** Creating an object and releasing it again moves the counter on by one. */
  lemma Turn<P(!new)>(m: Manager<P>, blank: P, body: P, size: nat, cur: int)
    requires Live(m, blank, size, MAX_TRIES, cur) && MAX_TRIES <= cur <= ID_MASK && size > MAX_TRIES
    ensures Live(RunOps(m, blank, [OpCreate(body), OpRelease(cur + 1)]), blank, size, MAX_TRIES, (cur + 1) % (ID_MASK + 1))
  {
    hide Live, Create, Release, RunOps;
    RunTwo(m, blank, OpCreate(body), OpRelease(cur + 1));
    TurnedOnce(m, blank, body, size, cur);
  }

  lemma TurnedOnce<P(!new)>(m: Manager<P>, blank: P, body: P, size: nat, cur: int)
    requires Live(m, blank, size, MAX_TRIES, cur) && MAX_TRIES <= cur <= ID_MASK && size > MAX_TRIES
    ensures Live(Release(Create(m, blank, body).0, blank, cur + 1), blank, size, MAX_TRIES, (cur + 1) % (ID_MASK + 1))
  {
    hide Inv, Create;
    LiveHasRoom(m, blank, size, MAX_TRIES, cur);
    NextIsFree(m, blank, body);
    var m1 := Create(m, blank, body).0;
    ReleaseKeepsInv(m1, blank, cur + 1);
    assert (m1.index - {cur + 1}).Keys == m.index.Keys;
  }

  /** After enough turns the counter is masked back to 0. */
  lemma {:induction false} TurnOver<P(!new)>(m: Manager<P>, blank: P, body: P, size: nat, cur: int) returns (ops: seq<Op<P>>)
    requires Live(m, blank, size, MAX_TRIES, cur) && MAX_TRIES <= cur <= ID_MASK && size > MAX_TRIES
    ensures Live(RunOps(m, blank, ops), blank, size, MAX_TRIES, 0)
    decreases ID_MASK - cur
  {
    hide Live, RunOps;
    Turn(m, blank, body, size, cur);
    ops := [OpCreate(body), OpRelease(cur + 1)];
    if cur < ID_MASK {
      var m1 := RunOps(m, blank, ops);
      var rest := TurnOver(m1, blank, body, size, cur + 1);
      RunAppend(m, blank, ops, rest);
      ops := ops + rest;
    }
  }

  /** The ten ids behind the counter are in use. */
  lemma SearchFails<P(!new)>(m: Manager<P>, blank: P, body: P, size: nat)
    requires Live(m, blank, size, MAX_TRIES, 0) && size > MAX_TRIES
    ensures Create(m, blank, body).0.failed == 1
  {
    RoomLeft(m, blank);
    SearchResult(m.index, m.cur, 0);
  }

  lemma SomeRunLeaks<P(!new)>(size: nat, blank: P, body: P) returns (ops: seq<Op<P>>)
    requires size > MAX_TRIES
    ensures RunOps(Fresh(size, blank), blank, ops).failed == 1
  {
    var ten := FirstTen(size, blank, body, MAX_TRIES);
    var m := RunOps(Fresh(size, blank), blank, ten);
    var turn := TurnOver(m, blank, body, size, MAX_TRIES);
    SearchFails(RunOps(m, blank, turn), blank, body, size);
    RunOne(RunOps(m, blank, turn), blank, OpCreate(body));
    RunAppend(m, blank, turn, [OpCreate(body)]);
    RunAppend(Fresh(size, blank), blank, ten, turn + [OpCreate(body)]);
    ops := ten + (turn + [OpCreate(body)]);
  }

  lemma CreateNeverFails<P(!new)>(m: Manager<P>, blank: P, op: Op<P>)
    requires Inv(m, blank) && CounterOk(m, ID_MASK) && 0 !in m.index && m.size <= MAX_TRIES && m.failed == 0
    ensures Apply(m, blank, op).failed == 0
  {
    match op
    case OpCreate(body) =>
      CreateKeepsCounter(m, blank, body, ID_MASK);
      UsedBound(m, blank);
    case OpRelease(id) =>
    case OpReleaseAll(ids) => ReleaseAllKeeps(m, blank, ids);
    case OpUpdate(id, body) =>
  }

  lemma {:induction false} SmallPoolsNeverLeak<P(!new)>(m: Manager<P>, blank: P, ops: seq<Op<P>>)
    requires Inv(m, blank) && CounterOk(m, ID_MASK) && 0 !in m.index && m.size <= MAX_TRIES && m.failed == 0
    ensures RunOps(m, blank, ops).failed == 0
    decreases |ops|
  {
    if ops != [] {
      CreateNeverFails(m, blank, ops[0]);
      ApplyKeeps(m, blank, ops[0], ID_MASK);
      SmallPoolsNeverLeak(Apply(m, blank, ops[0]), blank, ops[1..]);
    }
  }

  /** Some run loses a slot to a failed id search if and only if the pool has more slots than
      the search makes tries: the counter comes round after 2^28 creations and meets ten ids
      that were never released. */
  lemma LeaksArePossible<P(!new)>(size: nat, blank: P, body: P)
    ensures (exists ops: seq<Op<P>> :: RunOps(Fresh(size, blank), blank, ops).failed > 0) <==> size > 10
  {
    if size > MAX_TRIES {
      var ops := SomeRunLeaks(size, blank, body);
      assert RunOps(Fresh(size, blank), blank, ops).failed > 0;
    } else {
      EveryRunInv(size, blank);
      forall ops: seq<Op<P>>
        ensures RunOps(Fresh(size, blank), blank, ops).failed == 0
      {
        SmallPoolsNeverLeak(Fresh(size, blank), blank, ops);
      }
    }
  }
}
