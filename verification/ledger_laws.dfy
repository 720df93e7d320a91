/** What every run of ledger operations keeps. */
module LedgerLaws {
  import opened Bytes
  import opened Shared
  import opened Ledger

  // ---------------------------------------------------------------------------------------
  // Double entry
  // ---------------------------------------------------------------------------------------

  /** The stakes, added without wrapping. */
  function Stakes(buyIns: seq<BuyIn>): nat {
    if buyIns == [] then 0 else Stakes(buyIns[..|buyIns| - 1]) + buyIns[|buyIns| - 1].num
  }

  /** What came in minus what is there and what went out. */
  function Gap(a: Account): int {
    a.charge + a.giving - (a.gold + Stakes(a.buyIns) + a.consume + a.gmRemoved)
  }

  /** A multiple of 2^64. */
  ghost predicate Whole(x: int) {
    x % M64 == 0
  }

  lemma Multiple(x: int, p: int)
    requires x == p * M64
    ensures Whole(x)
  {
    assert x / M64 == p;
  }

  lemma WholeSum(x: int, y: int)
    requires Whole(x) && Whole(y)
    ensures Whole(x + y) && Whole(x - y)
  {
    var p, q := x / M64, y / M64;
    assert x == p * M64 && y == q * M64;
    Multiple(x + y, p + q);
    Multiple(x - y, p - q);
  }

  lemma WrapsAreWhole(x: int)
    requires Wraps(x)
    ensures Whole(x)
  {
  }

  /** Charged plus given equals held plus staked plus consumed plus removed, up to 64-bit wrap. */
  ghost predicate Balanced(a: Account) {
    Whole(Gap(a))
  }

  /** When the totals fit in 64 bits the books balance exactly. */
  lemma BalancedExactly(a: Account)
    requires Balanced(a)
    requires a.charge + a.giving < M64 && a.gold + Stakes(a.buyIns) + a.consume + a.gmRemoved < M64
    ensures a.charge + a.giving == a.gold + Stakes(a.buyIns) + a.consume + a.gmRemoved
  {
  }

  /** Zero, or one or two wraps. */
  predicate Wraps(x: int) {
    x == 0 || x == M64 || x == -M64 || x == 2 * M64 || x == -2 * M64 || x == 3 * M64 || x == -3 * M64
  }

  lemma WrapKeeps(a: Account, a': Account)
    requires Balanced(a) && Wraps(Gap(a') - Gap(a))
    ensures Balanced(a')
  {
    hide Whole, Gap;
    WrapsAreWhole(Gap(a') - Gap(a));
    WholeSum(Gap(a), Gap(a') - Gap(a));
  }

  lemma {:induction false} StakesAppend(s: seq<BuyIn>, t: seq<BuyIn>)
    ensures Stakes(s + t) == Stakes(s) + Stakes(t)
    decreases |t|
  {
    if t == [] {
      assert s + t == s;
    } else {
      StakesAppend(s, t[..|t| - 1]);
      assert (s + t)[..|s + t| - 1] == s + t[..|t| - 1];
    }
  }

  lemma StakesOne(b: BuyIn)
    ensures Stakes([b]) == b.num
  {
    assert [b][..0] == [];
  }

  lemma StakesAt(s: seq<BuyIn>, i: nat, b: BuyIn)
    requires i < |s|
    ensures Stakes(s[i := b]) == Stakes(s) - s[i].num + b.num
    ensures Stakes(s[..i] + s[i + 1..]) == Stakes(s) - s[i].num
  {
    assert s == s[..i] + ([s[i]] + s[i + 1..]) && s[i := b] == s[..i] + ([b] + s[i + 1..]);
    StakesAppend(s[..i], [s[i]] + s[i + 1..]);
    StakesAppend(s[..i], [b] + s[i + 1..]);
    StakesAppend([s[i]], s[i + 1..]);
    StakesAppend([b], s[i + 1..]);
    StakesAppend(s[..i], s[i + 1..]);
    StakesOne(s[i]);
    StakesOne(b);
  }

  lemma AddBuyInBalances(a: Account, num: uint64, machineId: uint64, now: uint32)
    requires Balanced(a)
    ensures Balanced(AddBuyIn(a, num, machineId, now))
  {
    hide Whole, Stakes, SumBuyIns;
    var i, n := FindMachine(a.buyIns, machineId), Min(num, a.gold);
    if i >= 0 {
      StakesAt(a.buyIns, i, BuyIn(machineId, Plus(a.buyIns[i].num, n), now));
    } else {
      StakesAppend(a.buyIns, [BuyIn(machineId, n, now)]);
      StakesOne(BuyIn(machineId, n, now));
    }
    WrapKeeps(a, AddBuyIn(a, num, machineId, now));
  }

  lemma SubBuyInBalances(a: Account, reason: int, cost: uint64, machineId: uint64, now: uint32)
    requires Balanced(a)
    ensures Balanced(SubBuyIn(a, reason, cost, machineId, now))
  {
    hide Whole;
    var i := FindMachine(a.buyIns, machineId);
    if i >= 0 {
      StakesAt(a.buyIns, i, BuyIn(machineId, a.buyIns[i].num - Min(cost, a.buyIns[i].num), now));
    }
    WrapKeeps(a, SubBuyIn(a, reason, cost, machineId, now));
  }

  lemma Shift(x: int, y: int)
    requires Whole(x) && Wraps(y)
    ensures Whole(x + y)
  {
    hide Whole;
    WrapsAreWhole(y);
    WholeSum(x, y);
  }

  /** The sweep moves exactly the expired stakes into gold. */
  lemma {:induction false} SweepMoves(gold: uint64, buyIns: seq<BuyIn>, now: uint32)
    ensures Whole(Refunded(gold, buyIns, now) + Stakes(Kept(buyIns, now)) - gold - Stakes(buyIns))
  {
    hide Whole;
    if buyIns == [] {
      WrapsAreWhole(0);
    } else {
      var front, last := buyIns[..|buyIns| - 1], buyIns[|buyIns| - 1];
      SweepMoves(gold, front, now);
      StakesAppend(Kept(front, now), [last]);
      StakesOne(last);
      assert Kept(buyIns, now) == if Expired(last, now) then Kept(front, now) else Kept(front, now) + [last];
      var before := Refunded(gold, front, now) + Stakes(Kept(front, now)) - gold - Stakes(front);
      var after := Refunded(gold, buyIns, now) + Stakes(Kept(buyIns, now)) - gold - Stakes(buyIns);
      Shift(before, after - before);
    }
  }

  lemma SweepGold(gold: uint64, buyIns: seq<BuyIn>, now: uint32)
    ensures Refunded(gold, buyIns, now) == (gold + Stakes(buyIns) - Stakes(Kept(buyIns, now))) % M64
  {
    hide Whole;
    SweepMoves(gold, buyIns, now);
    Congruent(Refunded(gold, buyIns, now), gold + Stakes(buyIns) - Stakes(Kept(buyIns, now)));
  }

  lemma Congruent(r: uint64, x: int)
    requires Whole(r - x)
    ensures r == x % M64
  {
  }

  lemma CheckTimeoutBalances(a: Account, now: uint32)
    requires Balanced(a)
    ensures Balanced(CheckTimeout(a, now))
  {
    hide Whole;
    SweepMoves(a.gold, a.buyIns, now);
    SweptBalances(a, CheckTimeout(a, now));
  }

  lemma SweptBalances(a: Account, a': Account)
    requires Balanced(a) && Whole(a'.gold + Stakes(a'.buyIns) - a.gold - Stakes(a.buyIns))
    requires a'.charge == a.charge && a'.giving == a.giving && a'.consume == a.consume && a'.gmRemoved == a.gmRemoved
    ensures Balanced(a')
  {
    hide Whole;
    var moved := a'.gold + Stakes(a'.buyIns) - a.gold - Stakes(a.buyIns);
    WholeSum(Gap(a), moved);
    assert Gap(a') == Gap(a) - moved;
  }

  lemma ClearBuyInBalances(a: Account, machineId: uint64)
    requires Balanced(a)
    ensures Balanced(ClearBuyIn(a, machineId))
  {
    hide Whole;
    var i := FindMachine(a.buyIns, machineId);
    if i >= 0 {
      StakesAt(a.buyIns, i, a.buyIns[i]);
    }
    WrapKeeps(a, ClearBuyIn(a, machineId));
  }

  function Carry(a: uint64, b: uint64): int {
    if a + b < M64 then 0 else M64
  }

  lemma AddGoldBalances(a: Account, reason: int, giving: uint64, charge: uint64)
    requires Balanced(a)
    ensures Balanced(AddGold(a, reason, giving, charge))
  {
    hide Whole, Stakes, SumBuyIns, Balanced;
    var g, c := if reason == R_LIP_LOTTERY then charge else giving, if reason == R_LIP_LOTTERY then giving else charge;
    if Plus(g, c) != 0 {
      AddGoldGap(a, reason, giving, charge);
      var carries := Carry(g, c) + Carry(a.gold, Plus(g, c)) - Carry(a.giving, g) - Carry(a.charge, c);
      CarriesWrap(Carry(g, c), Carry(a.gold, Plus(g, c)), Carry(a.giving, g), Carry(a.charge, c));
      WrapKeeps(a, AddGold(a, reason, giving, charge));
    }
  }

  lemma CarriesWrap(p: int, q: int, r: int, s: int)
    requires p in {0, M64} && q in {0, M64} && r in {0, M64} && s in {0, M64}
    ensures Wraps(p + q - r - s)
  {
  }

  /** What adding gold does to the gap: one wrap for each addition that overflowed. */
  lemma AddGoldGap(a: Account, reason: int, giving: uint64, charge: uint64)
    requires var g, c := if reason == R_LIP_LOTTERY then charge else giving, if reason == R_LIP_LOTTERY then giving else charge;
             Plus(g, c) != 0
    ensures var g, c := if reason == R_LIP_LOTTERY then charge else giving, if reason == R_LIP_LOTTERY then giving else charge;
            Gap(AddGold(a, reason, giving, charge)) - Gap(a)
            == Carry(g, c) + Carry(a.gold, Plus(g, c)) - Carry(a.giving, g) - Carry(a.charge, c)
  {
    hide Stakes, SumBuyIns;
    var g, c := if reason == R_LIP_LOTTERY then charge else giving, if reason == R_LIP_LOTTERY then giving else charge;
    var a' := AddGold(a, reason, giving, charge);
    assert a'.gold == a.gold + g + c - Carry(g, c) - Carry(a.gold, Plus(g, c));
    assert a'.giving - a'.consume == a.giving + g - Carry(a.giving, g) - a.consume;
    assert a'.charge == a.charge + c - Carry(a.charge, c);
  }

  lemma SubGoldBalances(a: Account, reason: int, num: uint64)
    requires Balanced(a)
    ensures Balanced(SubGold(a, reason, num))
  {
    hide Whole;
    WrapKeeps(a, SubGold(a, reason, num));
  }

  lemma {:induction false} AddAwardsBalances(a: Account, reason: int, values: map<uint64, uint64>, awards: seq<Award>)
    requires Balanced(a)
    ensures Balanced(AddAwards(a, reason, values, awards))
    decreases |awards|
  {
    hide Whole;
    if awards != [] {
      var front := awards[..|awards| - 1];
      AddAwardsBalances(a, reason, values, front);
      match awards[|awards| - 1]
      case GoldAward(g, c) => AddGoldBalances(AddAwards(a, reason, values, front), reason, g, c);
      case _ =>
    }
  }

  // ---------------------------------------------------------------------------------------
  // The stakes as a map from machines to amounts
  // ---------------------------------------------------------------------------------------

  ghost predicate NoRepeat(buyIns: seq<BuyIn>) {
    forall i, j :: 0 <= i < j < |buyIns| ==> buyIns[i].machineId != buyIns[j].machineId
  }

  lemma AmountIs(buyIns: seq<BuyIn>, i: nat)
    requires NoRepeat(buyIns) && i < |buyIns|
    ensures AmountAt(buyIns, buyIns[i].machineId) == buyIns[i].num
  {
  }

  lemma AmountNone(buyIns: seq<BuyIn>, machineId: uint64)
    requires forall i :: 0 <= i < |buyIns| ==> buyIns[i].machineId != machineId
    ensures AmountAt(buyIns, machineId) == 0
  {
  }

  lemma SetAmount(buyIns: seq<BuyIn>, i: nat, b: BuyIn, m: uint64)
    requires NoRepeat(buyIns) && i < |buyIns| && b.machineId == buyIns[i].machineId
    ensures NoRepeat(buyIns[i := b])
    ensures AmountAt(buyIns[i := b], m) == if m == b.machineId then b.num else AmountAt(buyIns, m)
  {
    var after := buyIns[i := b];
    var j := FindMachine(buyIns, m);
    if j >= 0 {
      assert after[j].machineId == m;
      AmountIs(after, j);
    } else {
      AmountNone(after, m);
    }
  }

  lemma NewAmount(buyIns: seq<BuyIn>, b: BuyIn, m: uint64)
    requires NoRepeat(buyIns) && FindMachine(buyIns, b.machineId) < 0
    ensures NoRepeat(buyIns + [b])
    ensures AmountAt(buyIns + [b], m) == if m == b.machineId then b.num else AmountAt(buyIns, m)
  {
    var after, j := buyIns + [b], FindMachine(buyIns, m);
    if m == b.machineId {
      assert after[|buyIns|] == b;
      AmountIs(after, |buyIns|);
    } else if j >= 0 {
      assert after[j] == buyIns[j];
      AmountIs(after, j);
    } else {
      AmountNone(after, m);
    }
  }

  lemma DropAmount(buyIns: seq<BuyIn>, i: nat, m: uint64)
    requires NoRepeat(buyIns) && i < |buyIns|
    ensures NoRepeat(buyIns[..i] + buyIns[i + 1..])
    ensures AmountAt(buyIns[..i] + buyIns[i + 1..], m) == if m == buyIns[i].machineId then 0 else AmountAt(buyIns, m)
  {
    var after, j := buyIns[..i] + buyIns[i + 1..], FindMachine(buyIns, m);
    assert forall k :: 0 <= k < |after| ==> after[k] == if k < i then buyIns[k] else buyIns[k + 1];
    if m == buyIns[i].machineId || j < 0 {
      AmountNone(after, m);
    } else {
      var k := if j < i then j else j - 1;
      assert after[k] == buyIns[j];
      AmountIs(after, k);
    }
  }

  lemma AddBuyInAmounts(a: Account, num: uint64, machineId: uint64, now: uint32, m: uint64)
    requires NoRepeat(a.buyIns)
    ensures var a' := AddBuyIn(a, num, machineId, now);
            && NoRepeat(a'.buyIns) && a'.gold == a.gold - Min(num, a.gold)
            && AmountAt(a'.buyIns, m) == if m == machineId then Plus(AmountAt(a.buyIns, m), Min(num, a.gold)) else AmountAt(a.buyIns, m)
  {
    var i, n := FindMachine(a.buyIns, machineId), Min(num, a.gold);
    if i >= 0 {
      SetAmount(a.buyIns, i, BuyIn(machineId, Plus(a.buyIns[i].num, n), now), m);
    } else {
      NewAmount(a.buyIns, BuyIn(machineId, n, now), m);
    }
  }

  lemma SubBuyInAmounts(a: Account, reason: int, cost: uint64, machineId: uint64, now: uint32, m: uint64)
    requires NoRepeat(a.buyIns)
    ensures var a' := SubBuyIn(a, reason, cost, machineId, now);
            && NoRepeat(a'.buyIns)
            && AmountAt(a'.buyIns, m) == AmountAt(a.buyIns, m) - if m == machineId then Min(cost, AmountAt(a.buyIns, m)) else 0
  {
    var i := FindMachine(a.buyIns, machineId);
    if i >= 0 {
      SetAmount(a.buyIns, i, BuyIn(machineId, a.buyIns[i].num - Min(cost, a.buyIns[i].num), now), m);
    }
  }

  lemma ClearBuyInAmounts(a: Account, machineId: uint64, m: uint64)
    requires NoRepeat(a.buyIns)
    ensures var a' := ClearBuyIn(a, machineId);
            && NoRepeat(a'.buyIns) && a'.gold == Plus(a.gold, AmountAt(a.buyIns, machineId))
            && AmountAt(a'.buyIns, m) == if m == machineId then 0 else AmountAt(a.buyIns, m)
  {
    var i := FindMachine(a.buyIns, machineId);
    if i >= 0 {
      DropAmount(a.buyIns, i, m);
    }
  }

  lemma {:induction false} KeptMembers(buyIns: seq<BuyIn>, now: uint32)
    requires NoRepeat(buyIns)
    ensures NoRepeat(Kept(buyIns, now))
    ensures forall b :: b in Kept(buyIns, now) <==> b in buyIns && !Expired(b, now)
    decreases |buyIns|
  {
    if buyIns != [] {
      var front, last := buyIns[..|buyIns| - 1], buyIns[|buyIns| - 1];
      assert buyIns == front + [last];
      KeptMembers(front, now);
      assert forall b :: b in Kept(front, now) ==> b in front && b.machineId != last.machineId;
    }
  }

  /** Sweeping two lists one after the other is sweeping them joined: the order is kept. */
  lemma {:induction false} KeptAppend(a: seq<BuyIn>, b: seq<BuyIn>, now: uint32)
    ensures Kept(a + b, now) == Kept(a, now) + Kept(b, now)
    decreases |b|
  {
    if b == [] {
      assert a + b == a;
    } else {
      KeptAppend(a, b[..|b| - 1], now);
      assert (a + b)[..|a + b| - 1] == a + b[..|b| - 1];
    }
  }

  /** The sweep is a filter, and a machine keeps its stake exactly if that has not expired. */
  lemma SweepIsFilter(buyIns: seq<BuyIn>, now: uint32, m: uint64)
    requires NoRepeat(buyIns)
    ensures var kept := Kept(buyIns, now);
            && NoRepeat(kept)
            && (forall b :: b in kept <==> b in buyIns && !Expired(b, now))
            && (var i := FindMachine(buyIns, m);
                AmountAt(kept, m) == if i >= 0 && !Expired(buyIns[i], now) then buyIns[i].num else 0)
  {
    hide Kept, AmountAt;
    var kept, i := Kept(buyIns, now), FindMachine(buyIns, m);
    KeptMembers(buyIns, now);
    if i >= 0 && !Expired(buyIns[i], now) {
      var k :| 0 <= k < |kept| && kept[k] == buyIns[i];
      AmountIs(kept, k);
    } else {
      forall k | 0 <= k < |kept| ensures kept[k].machineId != m {
        assert kept[k] in buyIns;
      }
      AmountNone(kept, m);
    }
  }

  // ---------------------------------------------------------------------------------------
  // Runs
  // ---------------------------------------------------------------------------------------

  datatype Op =
    | OpAddBuyIn(num: uint64, machineId: uint64, now: uint32)
    | OpSubBuyIn(reason: int, cost: uint64, machineId: uint64, now: uint32)
    | OpCheckTimeout(now: uint32)
    | OpClearBuyIn(machineId: uint64)
    | OpAddGold(reason: int, giving: uint64, charge: uint64)
    | OpSubGold(reason: int, num: uint64)
    | OpAddAwards(reason: int, values: map<uint64, uint64>, awards: seq<Award>)
    | OpSubPrize(prizeId: uint64, count: uint32)

  function Apply(a: Account, op: Op): Account {
    match op
    case OpAddBuyIn(num, machineId, now) => AddBuyIn(a, num, machineId, now)
    case OpSubBuyIn(reason, cost, machineId, now) => SubBuyIn(a, reason, cost, machineId, now)
    case OpCheckTimeout(now) => CheckTimeout(a, now)
    case OpClearBuyIn(machineId) => ClearBuyIn(a, machineId)
    case OpAddGold(reason, giving, charge) => AddGold(a, reason, giving, charge)
    case OpSubGold(reason, num) => SubGold(a, reason, num)
    case OpAddAwards(reason, values, awards) => AddAwards(a, reason, values, awards)
    case OpSubPrize(prizeId, n) => SubPrize(a, prizeId, n)
  }

  function RunOps(a: Account, ops: seq<Op>): Account
    decreases |ops|
  {
    if ops == [] then a else RunOps(Apply(a, ops[0]), ops[1..])
  }

  lemma {:induction false} AwardsKeepStakes(a: Account, reason: int, values: map<uint64, uint64>, awards: seq<Award>)
    ensures AddAwards(a, reason, values, awards).buyIns == a.buyIns
    decreases |awards|
  {
    if awards != [] {
      AwardsKeepStakes(a, reason, values, awards[..|awards| - 1]);
    }
  }

  lemma ApplyKeeps(a: Account, op: Op)
    requires Balanced(a) && NoRepeat(a.buyIns)
    ensures Balanced(Apply(a, op)) && NoRepeat(Apply(a, op).buyIns)
  {
    match op
    case OpAddBuyIn(num, machineId, now) => AddBuyInBalances(a, num, machineId, now); AddBuyInAmounts(a, num, machineId, now, 0);
    case OpSubBuyIn(reason, cost, machineId, now) =>
      SubBuyInBalances(a, reason, cost, machineId, now);
      SubBuyInAmounts(a, reason, cost, machineId, now, 0);
    case OpCheckTimeout(now) => CheckTimeoutBalances(a, now); SweepIsFilter(a.buyIns, now, 0);
    case OpClearBuyIn(machineId) => ClearBuyInBalances(a, machineId); ClearBuyInAmounts(a, machineId, 0);
    case OpAddGold(reason, giving, charge) => AddGoldBalances(a, reason, giving, charge);
    case OpSubGold(reason, num) => SubGoldBalances(a, reason, num);
    case OpAddAwards(reason, values, awards) =>
      AddAwardsBalances(a, reason, values, awards);
      AwardsKeepStakes(a, reason, values, awards);
    case OpSubPrize(prizeId, n) =>
  }

  lemma {:induction false} RunKeeps(a: Account, ops: seq<Op>)
    requires Balanced(a) && NoRepeat(a.buyIns)
    ensures Balanced(RunOps(a, ops)) && NoRepeat(RunOps(a, ops).buyIns)
    decreases |ops|
  {
    if ops != [] {
      ApplyKeeps(a, ops[0]);
      RunKeeps(Apply(a, ops[0]), ops[1..]);
    }
  }

  /** From an empty account, any run of operations leaves the books balanced and at most one
      stake per machine, through every clamp, swap and refund, and whatever wraps. */
  lemma EveryRunBalances(ops: seq<Op>)
    ensures Balanced(RunOps(EMPTY, ops)) && NoRepeat(RunOps(EMPTY, ops).buyIns)
  {
    RunKeeps(EMPTY, ops);
  }

  // ---------------------------------------------------------------------------------------
  // The event log
  // ---------------------------------------------------------------------------------------

  function Holdings(a: Account): nat {
    a.gold + Stakes(a.buyIns)
  }

  /** The changes reported in the "num" fields. */
  function Reported(events: seq<Event>): int {
    if events == [] then 0 else Reported(events[..|events| - 1]) + events[|events| - 1].num
  }

  function Drift(a: Account): int {
    Holdings(a) - Reported(a.events)
  }

  lemma LogReports(a: Account, num: int, charge: uint64, giving: uint64, reason: int)
    ensures Reported(Log(a, num, charge, giving, reason).events) == Reported(a.events) + num
  {
    var e := Log(a, num, charge, giving, reason).events;
    assert e[..|e| - 1] == a.events;
  }

  lemma {:induction false} AwardsReported(a: Account, reason: int, values: map<uint64, uint64>, awards: seq<Award>)
    ensures EventsMatch(a, AddAwards(a, reason, values, awards))
    decreases |awards|
  {
    hide Drift;
    if awards == [] {
      WrapsAreWhole(Drift(a) - Drift(a));
    } else {
      var mid := AddAwards(a, reason, values, awards[..|awards| - 1]);
      AwardsReported(a, reason, values, awards[..|awards| - 1]);
      OneAwardReported(mid, reason, values, awards[|awards| - 1]);
      Shift(Drift(mid) - Drift(a), Drift(AddAward(mid, reason, values, awards[|awards| - 1])) - Drift(mid));
    }
  }

  lemma OneAwardReported(a: Account, reason: int, values: map<uint64, uint64>, award: Award)
    ensures Wraps(Drift(AddAward(a, reason, values, award)) - Drift(a))
  {
    match award
    case GoldAward(g, c) => AddGoldReported(a, reason, g, c);
    case _ =>
  }

  lemma AddGoldReported(a: Account, reason: int, giving: uint64, charge: uint64)
    ensures Wraps(Drift(AddGold(a, reason, giving, charge)) - Drift(a))
  {
    hide Stakes, SumBuyIns;
    var g, c := if reason == R_LIP_LOTTERY then charge else giving, if reason == R_LIP_LOTTERY then giving else charge;
    var total, a' := Plus(g, c), AddGold(a, reason, giving, charge);
    if total != 0 {
      var e := a'.events;
      assert e[..|e| - 1] == a.events && e[|e| - 1].num == total;
      assert a'.gold == Plus(a.gold, total) && a'.buyIns == a.buyIns;
    }
  }

  /** The events between two accounts add up to the change of the holdings, up to wrap. */
  ghost predicate EventsMatch(a: Account, a': Account) {
    Whole(Drift(a') - Drift(a))
  }

  /** The events of every operation add up to the change of the player's holdings, with one
      exception: taking from a stake that does not exist reports a cost that was not taken. */
  lemma EventsMatchHoldings(a: Account, op: Op)
    ensures EventsMatch(a, Apply(a, op))
       <==> !(op.OpSubBuyIn? && op.cost != 0 && FindMachine(a.buyIns, op.machineId) < 0)
  {
    match op
    case OpAddBuyIn(num, machineId, now) => AddBuyInReported(a, num, machineId, now);
    case OpSubBuyIn(reason, cost, machineId, now) => SubBuyInReported(a, reason, cost, machineId, now);
    case OpCheckTimeout(now) => CheckTimeoutReported(a, now);
    case OpClearBuyIn(machineId) => ClearBuyInReported(a, machineId);
    case OpAddGold(reason, giving, charge) =>
      AddGoldReported(a, reason, giving, charge);
      WrapsAreWhole(Drift(AddGold(a, reason, giving, charge)) - Drift(a));
    case OpSubGold(reason, num) => SubGoldReported(a, reason, num);
    case OpAddAwards(reason, values, awards) => AwardsReported(a, reason, values, awards);
    case OpSubPrize(prizeId, n) => SubPrizeReported(a, prizeId, n);
  }

  lemma SubPrizeReported(a: Account, prizeId: uint64, n: uint32)
    ensures EventsMatch(a, SubPrize(a, prizeId, n))
  {
    hide Whole;
    WrapsAreWhole(0);
  }

  lemma AddBuyInReported(a: Account, num: uint64, machineId: uint64, now: uint32)
    ensures EventsMatch(a, AddBuyIn(a, num, machineId, now))
  {
    hide Whole, Stakes, Reported, SumBuyIns;
    var i, n := FindMachine(a.buyIns, machineId), Min(num, a.gold);
    if i >= 0 {
      StakesAt(a.buyIns, i, BuyIn(machineId, Plus(a.buyIns[i].num, n), now));
    } else {
      StakesAppend(a.buyIns, [BuyIn(machineId, n, now)]);
      StakesOne(BuyIn(machineId, n, now));
      LogReports(a.(gold := a.gold - n, buyIns := a.buyIns + [BuyIn(machineId, n, now)]), 0, 0, 0, R_BUY_IN);
    }
    WrapsAreWhole(Drift(AddBuyIn(a, num, machineId, now)) - Drift(a));
  }

  lemma SubBuyInReported(a: Account, reason: int, cost: uint64, machineId: uint64, now: uint32)
    ensures EventsMatch(a, SubBuyIn(a, reason, cost, machineId, now))
       <==> cost == 0 || FindMachine(a.buyIns, machineId) >= 0
  {
    hide Stakes, Reported, SumBuyIns;
    var i := FindMachine(a.buyIns, machineId);
    var a' := SubBuyIn(a, reason, cost, machineId, now);
    if i >= 0 {
      StakeTaken(a, reason, cost, machineId, now, i);
    } else {
      LogReports(a, -(cost as int), 0, 0, reason);
      assert Drift(a') - Drift(a) == cost;
    }
  }

  lemma StakeTaken(a: Account, reason: int, cost: uint64, machineId: uint64, now: uint32, i: nat)
    requires i == FindMachine(a.buyIns, machineId)
    ensures Drift(SubBuyIn(a, reason, cost, machineId, now)) == Drift(a)
  {
    hide Stakes, Reported, SumBuyIns;
    var c := Min(cost, a.buyIns[i].num);
    var b := BuyIn(machineId, a.buyIns[i].num - c, now);
    StakesAt(a.buyIns, i, b);
    LogReports(a.(consume := Plus(a.consume, c), buyIns := a.buyIns[i := b]), -(c as int), 0, 0, reason);
  }

  lemma CheckTimeoutReported(a: Account, now: uint32)
    ensures EventsMatch(a, CheckTimeout(a, now))
  {
    hide Whole, Stakes, Reported, SumBuyIns, Refunded, Kept, EventsMatch;
    SweepMoves(a.gold, a.buyIns, now);
    var swept := a.(gold := Refunded(a.gold, a.buyIns, now), buyIns := Kept(a.buyIns, now));
    LogReports(swept, 0, 0, 0, R_BUY_IN_TIMEOUT);
    DriftIs(a, swept, CheckTimeout(a, now));
  }

  lemma DriftIs(a: Account, swept: Account, a': Account)
    requires swept.events == a.events && Reported(a'.events) == Reported(a.events)
    requires a'.gold == swept.gold && a'.buyIns == swept.buyIns
    requires Whole(swept.gold + Stakes(swept.buyIns) - a.gold - Stakes(a.buyIns))
    ensures EventsMatch(a, a')
  {
    hide Whole;
    assert Drift(a') - Drift(a) == swept.gold + Stakes(swept.buyIns) - a.gold - Stakes(a.buyIns);
  }

  lemma ClearBuyInReported(a: Account, machineId: uint64)
    ensures EventsMatch(a, ClearBuyIn(a, machineId))
  {
    hide Whole, Stakes, Reported, SumBuyIns;
    var i := FindMachine(a.buyIns, machineId);
    if i >= 0 {
      StakesAt(a.buyIns, i, a.buyIns[i]);
      LogReports(a.(gold := Plus(a.gold, a.buyIns[i].num), buyIns := a.buyIns[..i] + a.buyIns[i + 1..]), 0, 0, 0, R_CLEAR_BUY_IN);
    }
    WrapsAreWhole(Drift(ClearBuyIn(a, machineId)) - Drift(a));
  }

  lemma SubGoldReported(a: Account, reason: int, num: uint64)
    ensures EventsMatch(a, SubGold(a, reason, num))
  {
    hide Whole, Stakes, Reported, SumBuyIns;
    if num != 0 {
      var n := Min(num, a.gold);
      var a1 := a.(gold := a.gold - n);
      LogReports(if reason == R_GM_SUB then a1.(gmRemoved := a1.gmRemoved + n) else a1.(consume := Plus(a1.consume, n)),
                 -(n as int), 0, 0, reason);
    }
    WrapsAreWhole(Drift(SubGold(a, reason, num)) - Drift(a));
  }
}
