/** Timers in the pool: deadlines, the sweep that posts their messages, and what every run of
    sweeps posts. */
module TimerManagers {
  import opened Shared
  import opened Bytes
  import opened IdPool
  import opened ObjectManagers
  import S = SessionManagers

  /** A timer apart from its id.  `serial` tells timers apart when ids are reused; no code
      reads it. */
  datatype Timer = Timer(timeoutMsec: nat, msg: seq<byte>, serial: nat)

  const BLANK: Timer := Timer(0, [], 0)

  function Due(t: Timer, now: nat): bool {
    t.timeoutMsec <= now
  }

  method CreateTimerMsec(m: ObjectManager<Timer>, msec: uint32, msg: seq<byte>, now: nat, serial: nat)
    returns (id: Option<uint32>)
    requires m.Valid() && m.blank == BLANK
    modifies m, m.pool
    ensures m.Valid()
    ensures (m.View(), id) == Create(old(m.View()), BLANK, Timer((now + msec) % U64, msg, serial))
  {
    id := m.CreateObject(Timer((now + msec) % U64, msg, serial));
  }

  /** The used slots that are due, in the order of the walk. */
  function DueSlots(pool: seq<Slot<Timer>>, order: seq<nat>, now: nat): seq<Slot<Timer>> {
    if order == [] then []
    else
      var rest := DueSlots(pool, order[..|order| - 1], now);
      var p := order[|order| - 1];
      if p < |pool| && Due(pool[p].body, now) then rest + [pool[p]] else rest
  }

  function Ids(slots: seq<Slot<Timer>>): seq<uint32> {
    seq(|slots|, i requires 0 <= i < |slots| => slots[i].id)
  }

  /** One message posted: for the timer with this serial, at this time. */
  datatype Post = Post(serial: nat, time: nat, msg: seq<byte>)

  function Posts(slots: seq<Slot<Timer>>, now: nat): seq<Post> {
    seq(|slots|, i requires 0 <= i < |slots| => Post(slots[i].body.serial, now, slots[i].body.msg))
  }

  /** `posted` has, entry by entry, the messages of `posts`. */
  ghost predicate Carries(posted: seq<seq<byte>>, posts: seq<Post>) {
    |posted| == |posts| && forall i :: 0 <= i < |posts| ==> posted[i] == posts[i].msg
  }

  /** Posts the message of every due slot, then releases those timers. */
  method Tick(m: ObjectManager<Timer>, now: nat) returns (posted: seq<seq<byte>>, order: seq<nat>)
    requires m.Valid() && m.blank == BLANK
    modifies m, m.pool
    ensures m.Valid() && S.Enumerates(order, old(m.used))
    ensures Carries(posted, Posts(DueSlots(old(m.View()).pool, order, now), now))
    ensures m.View() == TickAll(old(m.View()), order, now)
  {
    order := S.Walk(m.used);
    ghost var v := m.View();
    var ids: seq<uint32> := [];
    posted := [];
    assert order[..0] == [];
    for i := 0 to |order|
      invariant m.View() == v && m.Valid()
      invariant ids == Ids(DueSlots(v.pool, order[..i], now))
      invariant Carries(posted, Posts(DueSlots(v.pool, order[..i], now), now))
    {
      assert order[i] in order;
      assert order[..i + 1][..i] == order[..i];
      var slot := m.pool[order[i]];
      if Due(slot.body, now) {
        posted := posted + [slot.body.msg];
        ids := ids + [slot.id];
      }
    }
    assert order[..|order|] == order;
    m.ReleaseObjects(ids);
  }

  function TickAll(m: Manager<Timer>, order: seq<nat>, now: nat): Manager<Timer> {
    ReleaseAll(m, BLANK, Ids(DueSlots(m.pool, order, now)))
  }

  // ---------------------------------------------------------------------------------------
  // One sweep
  // ---------------------------------------------------------------------------------------

  /** The walk finds the due slots, all of them and nothing else. */
  lemma {:induction false} DueSlotsAre(pool: seq<Slot<Timer>>, order: seq<nat>, now: nat)
    ensures forall s :: s in DueSlots(pool, order, now) <==>
              exists p :: p in order && p < |pool| && pool[p] == s && Due(s.body, now)
    decreases |order|
  {
    if order != [] {
      var front, p := order[..|order| - 1], order[|order| - 1];
      assert order == front + [p];
      DueSlotsAre(pool, front, now);
      forall s | exists q :: q in order && q < |pool| && pool[q] == s && Due(s.body, now)
        ensures s in DueSlots(pool, order, now)
      {
        var q :| q in order && q < |pool| && pool[q] == s && Due(s.body, now);
        assert q == p || q in front;
      }
    }
  }

  /** A sweep removes exactly the timers that are due, leaves every other timer unchanged, and
      leaves leaked slots leaked. */
  lemma TickExact(m: Manager<Timer>, order: seq<nat>, now: nat)
    requires Inv(m, BLANK) && 0 !in m.index && S.Enumerates(order, m.used)
    ensures var m' := TickAll(m, order, now);
            && Inv(m', BLANK) && 0 !in m'.index && m'.leaked == m.leaked
            && m'.cur == m.cur && m'.failed == m.failed && m'.size == m.size
            && (forall id :: id in m'.index <==> id in m.index && !Due(m.pool[m.index[id]].body, now))
            && (forall id :: id in m'.index ==> Object(m', id) == Object(m, id))
  {
    var ids := Ids(DueSlots(m.pool, order, now));
    ReleaseAllKeeps(m, BLANK, ids);
    forall id | id in m.index
      ensures id in ids <==> Due(m.pool[m.index[id]].body, now)
    {
      DueIds(m, order, now, id);
    }
  }

  lemma DueIds(m: Manager<Timer>, order: seq<nat>, now: nat, id: uint32)
    requires Inv(m, BLANK) && 0 !in m.index && S.Enumerates(order, m.used) && id in m.index
    ensures id in Ids(DueSlots(m.pool, order, now)) <==> Due(m.pool[m.index[id]].body, now)
  {
    var due := DueSlots(m.pool, order, now);
    var ids, p := Ids(due), m.index[id];
    DueSlotsAre(m.pool, order, now);
    if Due(m.pool[p].body, now) {
      assert p in order && m.pool[p] in due;
      var i :| 0 <= i < |due| && due[i] == m.pool[p];
      assert ids[i] == id;
    }
    if id in ids {
      var i :| 0 <= i < |ids| && ids[i] == id;
      assert due[i] in due;
      var q :| q in order && q < |m.pool| && m.pool[q] == due[i] && Due(due[i].body, now);
      assert q in m.used && m.pool[q].id == id;
    }
  }

  function BlankCount(slots: seq<Slot<Timer>>): nat {
    if slots == [] then 0
    else BlankCount(slots[..|slots| - 1]) + if slots[|slots| - 1].body.serial == 0 then 1 else 0
  }

  /** A leaked slot is due from the start and is never released, so every sweep posts one empty
      message for it. */
  lemma TickPostsForLeaks(m: Manager<Timer>, order: seq<nat>, now: nat)
    requires Inv(m, BLANK) && SerialsOk(m) && S.Enumerates(order, m.used)
    ensures BlankCount(DueSlots(m.pool, order, now)) == m.failed
  {
    forall p | p in order
      ensures p < |m.pool| && if p in m.leaked then m.pool[p].body == BLANK else m.pool[p].body.serial != 0
    {
      assert p in m.used;
      if p !in m.leaked {
        assert Object(m, m.pool[p].id) == Some(m.pool[p]);
      }
    }
    BlankPrefix(m.pool, m.leaked, order, now);
    assert Common(order, m.leaked) == m.leaked;
  }

  ghost function Common(order: seq<nat>, leaked: set<nat>): set<nat> {
    set q | q in order && q in leaked
  }

  lemma CountOneMore(front: seq<nat>, p: nat, leaked: set<nat>)
    requires p !in front
    ensures |Common(front + [p], leaked)| == |Common(front, leaked)| + if p in leaked then 1 else 0
  {
    if p in leaked {
      assert Common(front + [p], leaked) == Common(front, leaked) + {p};
    } else {
      assert Common(front + [p], leaked) == Common(front, leaked);
    }
  }

  lemma BlankSnoc(slots: seq<Slot<Timer>>, s: Slot<Timer>)
    ensures BlankCount(slots + [s]) == BlankCount(slots) + if s.body.serial == 0 then 1 else 0
  {
    assert (slots + [s])[..|slots + [s]| - 1] == slots;
  }

  lemma {:induction false} BlankPrefix(pool: seq<Slot<Timer>>, leaked: set<nat>, order: seq<nat>, now: nat)
    requires forall i, j :: 0 <= i < j < |order| ==> order[i] != order[j]
    requires forall p :: p in order ==>
               p < |pool| && if p in leaked then pool[p].body == BLANK else pool[p].body.serial != 0
    ensures BlankCount(DueSlots(pool, order, now)) == |Common(order, leaked)|
    decreases |order|
  {
    hide BlankCount, Common;
    if order == [] {
      NoBlanks(leaked);
    } else {
      var front, p := order[..|order| - 1], order[|order| - 1];
      assert order == front + [p] && p in order && p !in front;
      assert forall q :: q in front ==> q in order;
      BlankPrefix(pool, leaked, front, now);
      CountOneMore(front, p, leaked);
      BlankSnoc(DueSlots(pool, front, now), pool[p]);
    }
  }

  lemma NoBlanks(leaked: set<nat>)
    ensures BlankCount([]) == 0 == |Common([], leaked)|
  {
    assert Common([], leaked) == {};
  }

  /** Live timers have a serial, and no two share one. */
  ghost predicate SerialsOk(m: Manager<Timer>) {
    && (forall id :: id in m.index && Object(m, id).Some? ==> Object(m, id).value.body.serial != 0)
    && (forall a, b :: a in m.index && b in m.index && a != b && Object(m, a).Some? && Object(m, b).Some? ==>
          Object(m, a).value.body.serial != Object(m, b).value.body.serial)
  }

  // ---------------------------------------------------------------------------------------
  // Runs
  // ---------------------------------------------------------------------------------------

  /** The timers, the next serial, the deadline and the message each serial was created with, and
      everything posted so far. */
  datatype Run = Run(m: Manager<Timer>, next: nat, deadlines: map<nat, nat>, messages: map<nat, seq<byte>>, log: seq<Post>)

  datatype Action = Start(now: nat, msec: uint32, msg: seq<byte>) | Stop(id: uint32) | Sweep(now: nat, order: seq<nat>)

  ghost function Step(r: Run, a: Action): Run {
    match a
    case Start(now, msec, msg) =>
      r.(m := Create(r.m, BLANK, Timer((now + msec) % U64, msg, r.next)).0, next := r.next + 1,
         deadlines := r.deadlines[r.next := (now + msec) % U64], messages := r.messages[r.next := msg])
    case Stop(id) => r.(m := Release(r.m, BLANK, id))
    case Sweep(now, order) =>
      if S.Enumerates(order, r.m.used) then
        r.(m := TickAll(r.m, order, now), log := r.log + Posts(DueSlots(r.m.pool, order, now), now))
      else r
  }

  ghost function RunAll(r: Run, actions: seq<Action>): Run
    decreases |actions|
  {
    if actions == [] then r else RunAll(Step(r, actions[0]), actions[1..])
  }

  function Logged(log: seq<Post>, serial: nat): bool {
    exists i :: 0 <= i < |log| && log[i].serial == serial
  }

  ghost predicate LiveOk(r: Run) {
    forall id :: id in r.m.index && Object(r.m, id).Some? ==>
      var t := Object(r.m, id).value.body;
      && 0 < t.serial < r.next && t.serial in r.deadlines && r.deadlines[t.serial] == t.timeoutMsec
      && t.serial in r.messages && r.messages[t.serial] == t.msg && !Logged(r.log, t.serial)
  }

  ghost predicate OnceEach(log: seq<Post>) {
    forall i, j :: 0 <= i < j < |log| && log[i].serial == log[j].serial ==> log[i].serial == 0
  }

  ghost predicate NotEarly(log: seq<Post>, next: nat, deadlines: map<nat, nat>) {
    forall i :: 0 <= i < |log| && log[i].serial != 0 ==>
      log[i].serial < next && log[i].serial in deadlines && deadlines[log[i].serial] <= log[i].time
  }

  ghost predicate OwnMessage(log: seq<Post>, messages: map<nat, seq<byte>>) {
    forall i :: 0 <= i < |log| && log[i].serial != 0 ==>
      log[i].serial in messages && messages[log[i].serial] == log[i].msg
  }

  /** No timer is posted twice, none before its deadline, and each with its own message.  Serial 0
      is a leaked slot. */
  ghost predicate LogOk(r: Run) {
    OnceEach(r.log) && NotEarly(r.log, r.next, r.deadlines) && OwnMessage(r.log, r.messages)
  }

  lemma LogGrows(log: seq<Post>, more: seq<Post>)
    requires OnceEach(log) && OnceEach(more)
    requires forall i :: 0 <= i < |more| && more[i].serial != 0 ==> !Logged(log, more[i].serial)
    ensures OnceEach(log + more)
    ensures forall serial :: Logged(log + more, serial) ==> Logged(log, serial) || Logged(more, serial)
  {
    var all := log + more;
    forall i, j | 0 <= i < j < |all| && all[i].serial == all[j].serial
      ensures all[i].serial == 0
    {
      if i < |log| <= j {
        assert Logged(log, all[i].serial) && all[j] == more[j - |log|];
      }
    }
    forall serial | Logged(all, serial)
      ensures Logged(log, serial) || Logged(more, serial)
    {
      var i :| 0 <= i < |all| && all[i].serial == serial;
      assert if i < |log| then log[i] == all[i] else more[i - |log|] == all[i];
    }
  }

  ghost predicate PoolInv(m: Manager<Timer>) {
    Inv(m, BLANK) && CounterOk(m, ID_MASK) && m.size <= ID_MASK + 1 && 0 !in m.index
  }

  ghost predicate TimersInv(r: Run) {
    r.next > 0 && SerialsOk(r.m) && LiveOk(r) && LogOk(r)
  }

  ghost predicate RunInv(r: Run) {
    PoolInv(r.m) && TimersInv(r)
  }

  lemma PoolKept(m: Manager<Timer>, op: Op<Timer>)
    requires PoolInv(m)
    ensures PoolInv(IdPool.Apply(m, BLANK, op))
  {
    hide Inv, CounterOk, IdPool.Apply;
    IdPool.ApplyKeeps(m, BLANK, op, ID_MASK);
  }

  lemma StartKeeps(r: Run, now: nat, msec: uint32, msg: seq<byte>)
    requires RunInv(r)
    ensures RunInv(Step(r, Start(now, msec, msg)))
  {
    hide Create, Inv, CounterOk, SerialsOk, LiveOk, LogOk, Object;
    var body := Timer((now + msec) % U64, msg, r.next);
    PoolKept(r.m, OpCreate(body));
    CreateAddsOne(r.m, BLANK, body);
    StartedOk(r, Step(r, Start(now, msec, msg)), Create(r.m, BLANK, body).1, body);
  }

  lemma StartedOk(r: Run, r': Run, id: Option<uint32>, body: Timer)
    requires SerialsOk(r.m) && LiveOk(r) && LogOk(r) && r.next > 0 && body.serial == r.next
    requires r'.next == r.next + 1 && r'.deadlines == r.deadlines[r.next := body.timeoutMsec] && r'.log == r.log
    requires r'.messages == r.messages[r.next := body.msg]
    requires forall i :: i in r'.m.index <==> i in r.m.index || id == Some(i)
    requires forall i :: i in r.m.index ==> Object(r'.m, i) == Object(r.m, i)
    requires id.Some? ==> id.value !in r.m.index && Object(r'.m, id.value) == Some(Slot(id.value, body))
    ensures SerialsOk(r'.m) && LiveOk(r') && LogOk(r')
  {
    hide Object;
    assert SerialsOk(r'.m) by {
      NewSerial(r, r', id, body);
    }
    assert forall k :: 0 <= k < |r.log| ==> r.log[k].serial != r.next;
  }

  lemma NewSerial(r: Run, r': Run, id: Option<uint32>, body: Timer)
    requires SerialsOk(r.m) && LiveOk(r) && r.next > 0 && body.serial == r.next
    requires forall i :: i in r'.m.index <==> i in r.m.index || id == Some(i)
    requires forall i :: i in r.m.index ==> Object(r'.m, i) == Object(r.m, i)
    requires id.Some? ==> id.value !in r.m.index && Object(r'.m, id.value) == Some(Slot(id.value, body))
    ensures SerialsOk(r'.m)
  {
    hide Object, Logged;
  }

  /** Every due slot is a live timer or a leaked slot. */
  lemma DueIsLive(m: Manager<Timer>, order: seq<nat>, now: nat, s: Slot<Timer>)
    requires Inv(m, BLANK) && (forall p :: p in order ==> p in m.used) && s in DueSlots(m.pool, order, now)
    ensures Due(s.body, now)
    ensures s.body.serial != 0 ==> s.id in m.index && Object(m, s.id) == Some(s)
  {
    DueSlotsAre(m.pool, order, now);
    var p :| p in order && p < |m.pool| && m.pool[p] == s && Due(s.body, now);
    assert p in m.used;
  }

  ghost predicate Distinct(slots: seq<Slot<Timer>>) {
    forall i, j :: 0 <= i < j < |slots| && slots[i].body.serial == slots[j].body.serial ==> slots[i].body.serial == 0
  }

  lemma DistinctSnoc(slots: seq<Slot<Timer>>, s: Slot<Timer>)
    requires Distinct(slots) && forall t :: t in slots && t.body.serial == s.body.serial ==> t.body.serial == 0
    ensures Distinct(slots + [s])
  {
    assert forall i :: 0 <= i < |slots| ==> slots[i] in slots;
  }

  /** Two used slots with the same serial are the same slot, or both leaked. */
  lemma SerialOwner(m: Manager<Timer>, p: nat, q: nat)
    requires Inv(m, BLANK) && SerialsOk(m) && p in m.used && q in m.used && p != q
    requires p < |m.pool| && q < |m.pool| && m.pool[p].body.serial == m.pool[q].body.serial
    ensures m.pool[p].body.serial == 0
  {
    assert p !in m.leaked ==> Object(m, m.pool[p].id) == Some(m.pool[p]);
    assert q !in m.leaked ==> Object(m, m.pool[q].id) == Some(m.pool[q]);
  }

  lemma {:induction false} DueDistinct(m: Manager<Timer>, order: seq<nat>, now: nat)
    requires Inv(m, BLANK) && SerialsOk(m)
    requires (forall i, j :: 0 <= i < j < |order| ==> order[i] != order[j]) && forall p :: p in order ==> p in m.used
    ensures Distinct(DueSlots(m.pool, order, now))
    decreases |order|
  {
    hide IndexOk, FreeOk, SerialsOk, Distinct;
    if order == [] {
      NoneDistinct();
    } else {
      var front, p := order[..|order| - 1], order[|order| - 1];
      assert order == front + [p] && p in order && p !in front;
      assert forall q :: q in front ==> q in order;
      DueDistinct(m, front, now);
      if p < |m.pool| {
        var before := DueSlots(m.pool, front, now);
        forall t | t in before && t.body.serial == m.pool[p].body.serial
          ensures t.body.serial == 0
        {
          DueSlotsAre(m.pool, front, now);
          var q :| q in front && q < |m.pool| && m.pool[q] == t;
          SerialOwner(m, q, p);
        }
        DistinctSnoc(before, m.pool[p]);
      }
    }
  }

  lemma NoneDistinct()
    ensures Distinct([])
  {
  }

  lemma DueFacts(r: Run, now: nat, order: seq<nat>)
    requires Inv(r.m, BLANK) && SerialsOk(r.m) && LiveOk(r) && S.Enumerates(order, r.m.used)
    ensures var posts := Posts(DueSlots(r.m.pool, order, now), now);
            && OnceEach(posts) && NotEarly(posts, r.next, r.deadlines) && OwnMessage(posts, r.messages)
            && (forall i :: 0 <= i < |posts| && posts[i].serial != 0 ==> !Logged(r.log, posts[i].serial))
  {
    var due := DueSlots(r.m.pool, order, now);
    DueDistinct(r.m, order, now);
    forall i | 0 <= i < |due| && due[i].body.serial != 0
      ensures due[i].body.serial < r.next && due[i].body.serial in r.deadlines
      ensures r.deadlines[due[i].body.serial] <= now && !Logged(r.log, due[i].body.serial)
      ensures due[i].body.serial in r.messages && r.messages[due[i].body.serial] == due[i].body.msg
    {
      assert due[i] in due;
      DueIsLive(r.m, order, now, due[i]);
    }
  }

  /** A timer that survives a sweep was not posted by it. */
  lemma SurvivorNotPosted(m: Manager<Timer>, order: seq<nat>, now: nat, id: uint32)
    requires Inv(m, BLANK) && SerialsOk(m) && S.Enumerates(order, m.used)
    requires id in m.index && !Due(m.pool[m.index[id]].body, now)
    ensures !Logged(Posts(DueSlots(m.pool, order, now), now), m.pool[m.index[id]].body.serial)
  {
    var due := DueSlots(m.pool, order, now);
    var posts, serial := Posts(due, now), m.pool[m.index[id]].body.serial;
    assert Object(m, id) == Some(m.pool[m.index[id]]);
    if Logged(posts, serial) {
      var i :| 0 <= i < |posts| && posts[i].serial == serial;
      assert due[i] in due;
      DueIsLive(m, order, now, due[i]);
    }
  }

  lemma SweepLogOk(r: Run, now: nat, order: seq<nat>)
    requires PoolInv(r.m) && TimersInv(r) && S.Enumerates(order, r.m.used)
    ensures var r', posts := Step(r, Sweep(now, order)), Posts(DueSlots(r.m.pool, order, now), now);
            LogOk(r') && forall serial :: Logged(r'.log, serial) ==> Logged(r.log, serial) || Logged(posts, serial)
  {
    hide Inv, CounterOk, SerialsOk, LiveOk, DueSlots, TickAll;
    DueFacts(r, now, order);
    LogGrows(r.log, Posts(DueSlots(r.m.pool, order, now), now));
  }

  lemma SurvivorsNotPosted(m: Manager<Timer>, order: seq<nat>, now: nat)
    requires PoolInv(m) && SerialsOk(m) && S.Enumerates(order, m.used)
    ensures var m' := TickAll(m, order, now);
            && (forall id :: id in m'.index ==> id in m.index && Object(m', id) == Object(m, id))
            && (forall id :: id in m'.index && Object(m, id).Some? ==>
                  !Logged(Posts(DueSlots(m.pool, order, now), now), Object(m, id).value.body.serial))
  {
    hide Logged, TickAll;
    var m' := TickAll(m, order, now);
    TickExact(m, order, now);
    forall id | id in m'.index && Object(m, id).Some?
      ensures !Logged(Posts(DueSlots(m.pool, order, now), now), Object(m, id).value.body.serial)
    {
      SurvivorNotPosted(m, order, now, id);
    }
  }

  lemma SweepKeeps(r: Run, now: nat, order: seq<nat>)
    requires RunInv(r) && S.Enumerates(order, r.m.used)
    ensures RunInv(Step(r, Sweep(now, order)))
  {
    hide PoolInv, SerialsOk, LiveOk, LogOk, Object, Logged, Posts, DueSlots;
    SweepLogOk(r, now, order);
    SurvivorsNotPosted(r.m, order, now);
    PoolKept(r.m, OpReleaseAll(Ids(DueSlots(r.m.pool, order, now))));
    SurvivorsOk(r, Step(r, Sweep(now, order)), Posts(DueSlots(r.m.pool, order, now), now));
  }

  lemma SurvivorsOk(r: Run, r': Run, posts: seq<Post>)
    requires SerialsOk(r.m) && LiveOk(r) && r'.next == r.next && r'.deadlines == r.deadlines && r'.messages == r.messages
    requires forall id :: id in r'.m.index ==> id in r.m.index && Object(r'.m, id) == Object(r.m, id)
    requires forall id :: id in r'.m.index && Object(r.m, id).Some? ==> !Logged(posts, Object(r.m, id).value.body.serial)
    requires forall serial :: Logged(r'.log, serial) ==> Logged(r.log, serial) || Logged(posts, serial)
    ensures SerialsOk(r'.m) && LiveOk(r')
  {
  }

  lemma StopKeeps(r: Run, id: uint32)
    requires RunInv(r)
    ensures RunInv(Step(r, Stop(id)))
  {
    hide PoolInv, Release, Object, Logged, SerialsOk, LiveOk, LogOk;
    PoolKept(r.m, OpRelease(id));
    ReleasedOnly(r.m, id);
    StoppedOk(r, Step(r, Stop(id)));
  }

  lemma ReleasedOnly(m: Manager<Timer>, id: uint32)
    requires PoolInv(m)
    ensures var m' := Release(m, BLANK, id);
            forall i :: i in m'.index ==> i in m.index && Object(m', i) == Object(m, i)
  {
    hide Object, Release;
    ReleaseKeepsInv(m, BLANK, id);
  }

  lemma StoppedOk(r: Run, r': Run)
    requires TimersInv(r) && r' == r.(m := r'.m)
    requires forall i :: i in r'.m.index ==> i in r.m.index && Object(r'.m, i) == Object(r.m, i)
    ensures TimersInv(r')
  {
  }

  lemma StepKeeps(r: Run, a: Action)
    requires RunInv(r)
    ensures RunInv(Step(r, a))
  {
    match a
    case Start(now, msec, msg) => StartKeeps(r, now, msec, msg);
    case Stop(id) => StopKeeps(r, id);
    case Sweep(now, order) =>
      if S.Enumerates(order, r.m.used) {
        SweepKeeps(r, now, order);
      }
  }

  lemma {:induction false} RunKeeps(r: Run, actions: seq<Action>)
    requires RunInv(r)
    ensures RunInv(RunAll(r, actions))
    decreases |actions|
  {
    if actions != [] {
      StepKeeps(r, actions[0]);
      RunKeeps(Step(r, actions[0]), actions[1..]);
    }
  }

  ghost function FreshRun(size: nat): Run {
    Run(IdPool.Fresh(size, BLANK), 1, map[], map[], [])
  }

  /** Over any run of starts, stops and sweeps each timer is posted at most once, never before
      its deadline, and never while it is still waiting. */
  lemma PostedOnceAndNotEarly(size: nat, actions: seq<Action>, i: nat)
    requires size <= ID_MASK + 1
    requires i < |RunAll(FreshRun(size), actions).log|
    ensures var r := RunAll(FreshRun(size), actions);
            && (r.log[i].serial != 0 ==> forall j :: 0 <= j < |r.log| && j != i ==> r.log[j].serial != r.log[i].serial)
            && (r.log[i].serial != 0 ==> r.log[i].serial in r.deadlines && r.deadlines[r.log[i].serial] <= r.log[i].time)
            && (forall id :: id in r.m.index && Object(r.m, id).Some? ==>
                  Object(r.m, id).value.body.serial != r.log[i].serial)
  {
    FreshIsOk(size);
    RunKeeps(FreshRun(size), actions);
  }

  /** Every message posted for a timer is the one that it was started with. */
  lemma PostedWithOwnMessage(size: nat, actions: seq<Action>, i: nat)
    requires size <= ID_MASK + 1
    requires i < |RunAll(FreshRun(size), actions).log|
    ensures var r := RunAll(FreshRun(size), actions);
            r.log[i].serial != 0 ==> r.log[i].serial in r.messages && r.messages[r.log[i].serial] == r.log[i].msg
  {
    FreshIsOk(size);
    RunKeeps(FreshRun(size), actions);
  }

  /** A slot that the walk finds due is posted with its message. */
  lemma DueIsPosted(pool: seq<Slot<Timer>>, order: seq<nat>, now: nat, p: nat) returns (i: nat)
    requires p in order && p < |pool| && pool[p].body.timeoutMsec <= now
    ensures var posts := Posts(DueSlots(pool, order, now), now);
            i < |posts| && posts[i] == Post(pool[p].body.serial, now, pool[p].body.msg)
  {
    var due := DueSlots(pool, order, now);
    DueSlotsAre(pool, order, now);
    assert pool[p] in due;
    i :| 0 <= i < |due| && due[i] == pool[p];
  }

  lemma LiveSlot(r: Run, id: uint32)
    requires PoolInv(r.m) && LiveOk(r) && id in r.m.index && Object(r.m, id).Some?
    ensures r.m.index[id] in r.m.used && r.m.index[id] < |r.m.pool|
    ensures var t := r.m.pool[r.m.index[id]].body;
            && t == Object(r.m, id).value.body
            && t.serial in r.deadlines && r.deadlines[t.serial] == t.timeoutMsec
            && t.serial in r.messages && r.messages[t.serial] == t.msg
  {
    hide CounterOk, Logged;
    assert Object(r.m, id) == Some(r.m.pool[r.m.index[id]]);
  }

  /** A sweep posts every live timer whose deadline has come, with the message that it was started
      with. */
  lemma DueTimerIsPosted(size: nat, actions: seq<Action>, now: nat, order: seq<nat>, id: uint32) returns (i: nat)
    requires size <= ID_MASK + 1
    requires var r := RunAll(FreshRun(size), actions);
             && S.Enumerates(order, r.m.used) && id in r.m.index && Object(r.m, id).Some?
             && var serial := Object(r.m, id).value.body.serial;
                serial in r.deadlines ==> r.deadlines[serial] <= now
    ensures var r := RunAll(FreshRun(size), actions);
            var serial, log' := Object(r.m, id).value.body.serial, Step(r, Sweep(now, order)).log;
            && serial in r.messages && serial in r.deadlines
            && |r.log| <= i < |log'| && log'[i] == Post(serial, now, r.messages[serial])
  {
    hide Inv, CounterOk, PoolInv, LiveOk, SerialsOk, LogOk, Object, DueSlots, TickAll;
    FreshIsOk(size);
    RunKeeps(FreshRun(size), actions);
    var r := RunAll(FreshRun(size), actions);
    LiveSlot(r, id);
    var k := DueIsPosted(r.m.pool, order, now, r.m.index[id]);
    i := |r.log| + k;
  }

  lemma FreshIsOk(size: nat)
    requires size <= ID_MASK + 1
    ensures RunInv(FreshRun(size))
  {
    EveryRun(size, BLANK, []);
  }
}
