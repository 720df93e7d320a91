/** What each ledger operation changes, by how much, and what its event says. */
module LedgerAmounts {
  import opened Bytes
  import opened Shared
  import opened Ledger
  import opened LedgerLaws
  import O = AwardOrder

  // ---------------------------------------------------------------------------------------
  // Gold
  // ---------------------------------------------------------------------------------------

  /** One event more, with what the player now has. */
  ghost predicate Logs(a: Account, a': Account, num: int, charge: uint64, giving: uint64, reason: int) {
    a'.events == a.events + [Event(num, charge, giving, a'.gold, SumBuyIns(a'.buyIns), reason)]
  }

  /** Stakes and prizes are as they were. */
  ghost predicate OnlyGold(a: Account, a': Account) {
    a'.buyIns == a.buyIns && a'.prizes == a.prizes && a'.prizeValue == a.prizeValue
  }

  /** Gold falls by the amount asked for, down to zero.  What was taken counts as consumed, or as
      removed if an operator took it; nothing else changes. */
  lemma SubGoldAmounts(a: Account, reason: int, num: uint64)
    ensures var a' := SubGold(a, reason, num);
            var fall := a.gold - a'.gold;
            && a'.gold == (if num <= a.gold then a.gold - num else 0)
            && (reason == 3 ==> a'.gmRemoved == a.gmRemoved + fall && a'.consume == a.consume)
            && (reason != 3 ==> a'.gmRemoved == a.gmRemoved && a'.consume == (a.consume + fall) % 0x1_0000_0000_0000_0000)
            && a'.charge == a.charge && a'.giving == a.giving && OnlyGold(a, a')
            && (num == 0 ==> a' == a) && (num != 0 ==> Logs(a, a', -fall, 0, 0, reason))
  {
  }

  /** Gold rises by both parts together.  Each part counts for its total, the two exchanged for
      a lottery; a refund takes the given part back out of what was consumed and given, as far as
      both reach.  Parts that wrap to zero together change nothing. */
  lemma AddGoldAmounts(a: Account, reason: int, giving: uint64, charge: uint64)
    ensures var a' := AddGold(a, reason, giving, charge);
            var wrap := 0x1_0000_0000_0000_0000;
            var given, charged := if reason == 7 then charge else giving, if reason == 7 then giving else charge;
            if (giving + charge) % wrap == 0 then a' == a
            else
              && a'.gold == (a.gold + giving + charge) % wrap
              && a'.charge == (a.charge + charged) % wrap
              && (var total, back := (a.giving + given) % wrap, a.consume - a'.consume;
                  && a'.giving == total - back
                  && (reason != 9 ==> back == 0 && Logs(a, a', (giving + charge) % wrap, charged, given, reason))
                  && (reason == 9 ==>
                       && 0 <= back <= given && (back == given || back == a.consume || back == total)
                       && Logs(a, a', (giving + charge) % wrap, charged, back, reason)))
              && a'.gmRemoved == a.gmRemoved && OnlyGold(a, a')
  {
    hide SumBuyIns;
  }

  // ---------------------------------------------------------------------------------------
  // Stakes
  // ---------------------------------------------------------------------------------------

  /** The stake with the machine's number, if there is one. */
  function StakeAt(buyIns: seq<BuyIn>, m: uint64): Option<BuyIn> {
    var i := FindMachine(buyIns, m);
    if i < 0 then None else Some(buyIns[i])
  }

  /** Only the gold, the stake of `machineId` and what `consumed` says have changed. */
  ghost predicate OnlyStake(a: Account, a': Account, machineId: uint64, consumed: uint64) {
    && a'.consume == (a.consume + consumed) % 0x1_0000_0000_0000_0000
    && a'.charge == a.charge && a'.giving == a.giving && a'.gmRemoved == a.gmRemoved
    && a'.prizes == a.prizes && a'.prizeValue == a.prizeValue
    && forall m :: m != machineId ==> StakeAt(a'.buyIns, m) == StakeAt(a.buyIns, m)
  }

  lemma StakeIs(buyIns: seq<BuyIn>, i: nat)
    requires LedgerLaws.NoRepeat(buyIns) && i < |buyIns|
    ensures StakeAt(buyIns, buyIns[i].machineId) == Some(buyIns[i])
  {
  }

  lemma StakesMove(before: seq<BuyIn>, after: seq<BuyIn>, m: uint64)
    requires LedgerLaws.NoRepeat(before) && LedgerLaws.NoRepeat(after)
    requires forall b :: b in after && b.machineId == m <==> b in before && b.machineId == m
    ensures StakeAt(after, m) == StakeAt(before, m)
  {
    var i := FindMachine(before, m);
    if i >= 0 {
      assert before[i] in before;
      var k :| 0 <= k < |after| && after[k] == before[i];
      StakeIs(after, k);
    } else {
      forall k | 0 <= k < |after|
        ensures after[k].machineId != m
      {
        assert after[k] in after;
      }
    }
  }

  lemma Replaced(buyIns: seq<BuyIn>, i: nat, b: BuyIn)
    requires LedgerLaws.NoRepeat(buyIns) && i < |buyIns| && b.machineId == buyIns[i].machineId
    ensures LedgerLaws.NoRepeat(buyIns[i := b]) && StakeAt(buyIns[i := b], b.machineId) == Some(b)
    ensures forall m :: m != b.machineId ==> StakeAt(buyIns[i := b], m) == StakeAt(buyIns, m)
  {
    var after := buyIns[i := b];
    assert after[i] == b;
    StakeIs(after, i);
    forall m | m != b.machineId
      ensures StakeAt(after, m) == StakeAt(buyIns, m)
    {
      forall x: BuyIn | x.machineId == m
        ensures x in after <==> x in buyIns
      {
        if x in buyIns {
          var k :| 0 <= k < |buyIns| && buyIns[k] == x;
          assert after[k] == x;
        }
      }
      StakesMove(buyIns, after, m);
    }
  }

  lemma Appended(buyIns: seq<BuyIn>, b: BuyIn)
    requires LedgerLaws.NoRepeat(buyIns) && FindMachine(buyIns, b.machineId) < 0
    ensures LedgerLaws.NoRepeat(buyIns + [b]) && StakeAt(buyIns + [b], b.machineId) == Some(b)
    ensures forall m :: m != b.machineId ==> StakeAt(buyIns + [b], m) == StakeAt(buyIns, m)
  {
    var after := buyIns + [b];
    assert after[|buyIns|] == b;
    StakeIs(after, |buyIns|);
    forall m | m != b.machineId
      ensures StakeAt(after, m) == StakeAt(buyIns, m)
    {
      StakesMove(buyIns, after, m);
    }
  }

  lemma Dropped(buyIns: seq<BuyIn>, i: nat)
    requires LedgerLaws.NoRepeat(buyIns) && i < |buyIns|
    ensures var after := buyIns[..i] + buyIns[i + 1..];
            && LedgerLaws.NoRepeat(after) && StakeAt(after, buyIns[i].machineId) == None
            && forall m :: m != buyIns[i].machineId ==> StakeAt(after, m) == StakeAt(buyIns, m)
  {
    var after := buyIns[..i] + buyIns[i + 1..];
    assert forall k :: 0 <= k < |after| ==> after[k] == if k < i then buyIns[k] else buyIns[k + 1];
    forall m | m != buyIns[i].machineId
      ensures StakeAt(after, m) == StakeAt(buyIns, m)
    {
      forall x: BuyIn | x.machineId == m
        ensures x in after <==> x in buyIns
      {
        if x in buyIns {
          var k :| 0 <= k < |buyIns| && buyIns[k] == x;
          assert after[if k < i then k else k - 1] == x;
        }
      }
      StakesMove(buyIns, after, m);
    }
  }

  /** Placing gold on a machine moves what was asked for, or all there is, to its stake, and
      restarts the clock of that stake. */
  lemma AddBuyInStake(a: Account, num: uint64, machineId: uint64, now: uint32)
    requires LedgerLaws.NoRepeat(a.buyIns)
    ensures var a' := AddBuyIn(a, num, machineId, now);
            var taken, before := a.gold - a'.gold, StakeAt(a.buyIns, machineId);
            && a'.gold == (if num <= a.gold then a.gold - num else 0)
            && StakeAt(a'.buyIns, machineId)
               == Some(BuyIn(machineId, ((if before.Some? then before.value.num else 0) + taken) % 0x1_0000_0000_0000_0000, now))
            && OnlyStake(a, a', machineId, 0)
            && (if before.Some? then a'.events == a.events else Logs(a, a', 0, 0, 0, 10))
  {
    hide StakeAt, SumBuyIns, FindMachine;
    var i, n := FindMachine(a.buyIns, machineId), Min(num, a.gold);
    if i >= 0 {
      StakeIs(a.buyIns, i);
      Replaced(a.buyIns, i, BuyIn(machineId, Plus(a.buyIns[i].num, n), now));
    } else {
      NoStake(a.buyIns, machineId);
      Appended(a.buyIns, BuyIn(machineId, n, now));
    }
  }

  lemma NoStake(buyIns: seq<BuyIn>, machineId: uint64)
    requires FindMachine(buyIns, machineId) < 0
    ensures StakeAt(buyIns, machineId) == None
  {
  }

  /** Playing takes the cost out of the machine's stake, as far as it reaches, and counts what was
      taken as consumed; the clock restarts if anything was taken. */
  lemma SubBuyInStake(a: Account, reason: int, cost: uint64, machineId: uint64, now: uint32)
    requires LedgerLaws.NoRepeat(a.buyIns)
    ensures var a' := SubBuyIn(a, reason, cost, machineId, now);
            var before, after := StakeAt(a.buyIns, machineId), StakeAt(a'.buyIns, machineId);
            && a'.gold == a.gold
            && (before.None? ==> after.None? && OnlyStake(a, a', machineId, 0) && Logs(a, a', -(cost as int), 0, 0, reason))
            && (before.Some? ==>
                 var taken: uint64 := if cost <= before.value.num then cost else before.value.num;
                 && after == (if taken == 0 then before else Some(BuyIn(machineId, before.value.num - taken, now)))
                 && OnlyStake(a, a', machineId, taken)
                 && (if taken == 0 then a'.events == a.events else Logs(a, a', -(taken as int), 0, 0, reason)))
  {
    hide StakeAt, SumBuyIns, FindMachine;
    var i := FindMachine(a.buyIns, machineId);
    if i >= 0 {
      StakeIs(a.buyIns, i);
      Replaced(a.buyIns, i, BuyIn(machineId, a.buyIns[i].num - Min(cost, a.buyIns[i].num), now));
    } else {
      NoStake(a.buyIns, machineId);
    }
  }

  /** Leaving a machine returns its stake to the gold. */
  lemma ClearBuyInStake(a: Account, machineId: uint64)
    requires LedgerLaws.NoRepeat(a.buyIns)
    ensures var a', before := ClearBuyIn(a, machineId), StakeAt(a.buyIns, machineId);
            && a'.gold == (a.gold + if before.Some? then before.value.num else 0) % 0x1_0000_0000_0000_0000
            && StakeAt(a'.buyIns, machineId) == None && OnlyStake(a, a', machineId, 0)
            && (if FindMachine(a.buyIns, machineId) >= 0 then Logs(a, a', 0, 0, 0, 11) else a' == a)
  {
    hide StakeAt, SumBuyIns, OnlyStake, ClearBuyIn, FindMachine;
    var i := FindMachine(a.buyIns, machineId);
    Cleared(a, machineId);
    if i >= 0 {
      StakeIs(a.buyIns, i);
    } else {
      NoStake(a.buyIns, machineId);
    }
  }

  lemma Cleared(a: Account, machineId: uint64)
    requires LedgerLaws.NoRepeat(a.buyIns)
    ensures var a', i := ClearBuyIn(a, machineId), FindMachine(a.buyIns, machineId);
            && a'.gold == Plus(a.gold, if i >= 0 then a.buyIns[i].num else 0)
            && StakeAt(a'.buyIns, machineId) == None && OnlyStake(a, a', machineId, 0)
            && (if FindMachine(a.buyIns, machineId) >= 0 then Logs(a, a', 0, 0, 0, 11) else a' == a)
  {
    hide StakeAt, SumBuyIns, LedgerLaws.NoRepeat, Plus, FindMachine;
    var i := FindMachine(a.buyIns, machineId);
    PlusZero(a.gold);
    PlusZero(a.consume);
    if i >= 0 {
      Dropped(a.buyIns, i);
    } else {
      NoStake(a.buyIns, machineId);
    }
  }

  lemma PlusZero(x: uint64)
    ensures Plus(x, 0) == x && (x + 0) % 0x1_0000_0000_0000_0000 == x
  {
  }

  ghost predicate SomeExpired(buyIns: seq<BuyIn>, now: uint32) {
    exists b :: b in buyIns && (b.updateTime + 600) % 0x1_0000_0000 <= now
  }

  lemma OneMoreStake(front: seq<BuyIn>, last: BuyIn, now: uint32)
    ensures SomeExpired(front + [last], now) <==> SomeExpired(front, now) || Expired(last, now)
  {
    var buyIns := front + [last];
    if SomeExpired(front, now) {
      var b :| b in front && (b.updateTime + 600) % 0x1_0000_0000 <= now;
      assert b in buyIns;
    }
    if Expired(last, now) {
      assert last in buyIns;
    }
  }

  lemma {:induction false} SweptSome(buyIns: seq<BuyIn>, now: uint32)
    ensures Kept(buyIns, now) == buyIns <==> !SomeExpired(buyIns, now)
    decreases |buyIns|
  {
    if buyIns != [] {
      hide SomeExpired, Expired;
      var front, last := buyIns[..|buyIns| - 1], buyIns[|buyIns| - 1];
      assert buyIns == front + [last];
      OneMoreStake(front, last, now);
      SweptSome(front, now);
      KeptAll(front, now);
    }
  }

  /** The sweep returns the expired stakes to the gold.  It logs one event if there were any, and
      otherwise changes nothing. */
  lemma CheckTimeoutAmounts(a: Account, now: uint32)
    ensures var a' := CheckTimeout(a, now);
            && a'.gold == (a.gold + Stakes(a.buyIns) - Stakes(a'.buyIns)) % 0x1_0000_0000_0000_0000
            && a' == a.(gold := a'.gold, buyIns := a'.buyIns, events := a'.events)
            && (if SomeExpired(a.buyIns, now) then Logs(a, a', 0, 0, 0, 12) else a' == a)
  {
    hide Kept, Refunded, Stakes, SumBuyIns, SomeExpired;
    SweepGold(a.gold, a.buyIns, now);
    SweptSome(a.buyIns, now);
    if !SomeExpired(a.buyIns, now) {
      NothingRefunded(a.gold, a.buyIns, now);
    }
  }

  lemma NothingRefunded(gold: uint64, buyIns: seq<BuyIn>, now: uint32)
    requires Kept(buyIns, now) == buyIns
    ensures Refunded(gold, buyIns, now) == gold
  {
    hide Kept, Refunded;
    SweepGold(gold, buyIns, now);
  }

  /** A stake lasts for ten minutes after it was last touched, by a clock of 32 bits: then the next
      sweep returns it to the gold, and no earlier one does. */
  lemma StakeLasts(a: Account, num: uint64, machineId: uint64, touched: uint32, now: uint32)
    requires LedgerLaws.NoRepeat(a.buyIns)
    ensures var placed := AddBuyIn(a, num, machineId, touched);
            StakeAt(CheckTimeout(placed, now).buyIns, machineId)
            == if (touched + 600) % 0x1_0000_0000 <= now then None else StakeAt(placed.buyIns, machineId)
  {
    hide Kept, Refunded, AddBuyIn, StakeAt;
    AddBuyInStake(a, num, machineId, touched);
    AddBuyInAmounts(a, num, machineId, touched, machineId);
    SweptStake(AddBuyIn(a, num, machineId, touched).buyIns, now, machineId);
  }

  lemma SweptStake(buyIns: seq<BuyIn>, now: uint32, m: uint64)
    requires LedgerLaws.NoRepeat(buyIns)
    ensures var before := StakeAt(buyIns, m);
            StakeAt(Kept(buyIns, now), m) == if before.Some? && Expired(before.value, now) then None else before
  {
    hide Kept;
    SweepIsFilter(buyIns, now, m);
    var i, kept := FindMachine(buyIns, m), Kept(buyIns, now);
    if i >= 0 && Expired(buyIns[i], now) {
      assert forall b :: b in kept && b.machineId == m ==> b in buyIns && FindMachine(buyIns, m) == i;
      forall k | 0 <= k < |kept|
        ensures kept[k].machineId != m
      {
        assert kept[k] in kept;
        var j :| 0 <= j < |buyIns| && buyIns[j] == kept[k];
        assert j == i || buyIns[j].machineId != buyIns[i].machineId;
      }
    } else {
      forall b: BuyIn | b.machineId == m && b in buyIns
        ensures !Expired(b, now)
      {
        var j :| 0 <= j < |buyIns| && buyIns[j] == b;
        assert i >= 0 && j == i;
      }
      StakesMove(buyIns, kept, m);
    }
  }

  // ---------------------------------------------------------------------------------------
  // Prizes
  // ---------------------------------------------------------------------------------------

  lemma PrizeDropped(prizes: seq<Prize>, i: nat, other: uint64)
    requires O.NoRepeat(prizes) && i < |prizes|
    ensures var after := prizes[..i] + prizes[i + 1..];
            O.NoRepeat(after) && O.CountAt(after, other) == (if other == prizes[i].prizeId then 0 else O.CountAt(prizes, other))
            && FindPrize(after, prizes[i].prizeId) < 0
  {
    var after, j := prizes[..i] + prizes[i + 1..], FindPrize(prizes, other);
    assert forall k :: 0 <= k < |after| ==> after[k] == if k < i then prizes[k] else prizes[k + 1];
    if j >= 0 && j != i {
      var k := if j < i then j else j - 1;
      assert after[k] == prizes[j];
      O.CountIs(after, k);
    }
  }

  lemma PrizeReplaced(prizes: seq<Prize>, i: nat, n: uint32, other: uint64)
    requires O.NoRepeat(prizes) && i < |prizes|
    ensures var after := prizes[i := Prize(prizes[i].prizeId, n)];
            O.NoRepeat(after) && O.CountAt(after, other) == if other == prizes[i].prizeId then n else O.CountAt(prizes, other)
  {
    var after, j := prizes[i := Prize(prizes[i].prizeId, n)], FindPrize(prizes, other);
    if j >= 0 {
      assert after[j].prizeId == other;
      O.CountIs(after, j);
    }
  }

  /** Taking prizes lowers one count, down to zero, and touches nothing else; a prize whose count
      reaches zero is no longer listed. */
  lemma SubPrizeCounts(a: Account, prizeId: uint64, num: uint32, other: uint64)
    requires O.NoRepeat(a.prizes)
    ensures var a', before := SubPrize(a, prizeId, num), O.CountAt(a.prizes, other);
            && O.NoRepeat(a'.prizes) && a' == a.(prizes := a'.prizes)
            && O.CountAt(a'.prizes, other) == (if other != prizeId then before else if num <= before then before - num else 0)
            && (O.CountAt(a'.prizes, prizeId) == 0 ==> FindPrize(a'.prizes, prizeId) < 0)
  {
    hide FindPrize, O.NoRepeat;
    var i := FindPrize(a.prizes, prizeId);
    if i >= 0 {
      PrizeDropped(a.prizes, i, other);
      PrizeReplaced(a.prizes, i, if num > a.prizes[i].num then 0 else a.prizes[i].num - num, other);
      PrizeReplaced(a.prizes, i, if num > a.prizes[i].num then 0 else a.prizes[i].num - num, prizeId);
    }
  }

  // ---------------------------------------------------------------------------------------
  // Events
  // ---------------------------------------------------------------------------------------

  lemma {:induction false} SumIsStakes(buyIns: seq<BuyIn>)
    ensures SumBuyIns(buyIns) == Stakes(buyIns) % 0x1_0000_0000_0000_0000
  {
    if buyIns != [] {
      SumIsStakes(buyIns[..|buyIns| - 1]);
    }
  }

  /** The newest event shows what the player now has. */
  ghost predicate Tells(a: Account, a': Account) {
    && a.events <= a'.events
    && (a'.events != a.events ==>
          var e := a'.events[|a'.events| - 1];
          e.afterGold == a'.gold && e.afterBuyIn == Stakes(a'.buyIns) % 0x1_0000_0000_0000_0000)
  }

  lemma GoldTells(a: Account, reason: int, giving: uint64, charge: uint64)
    ensures Tells(a, AddGold(a, reason, giving, charge))
  {
    hide Stakes, SumBuyIns;
    SumIsStakes(a.buyIns);
  }

  lemma {:induction false} AwardsTell(a: Account, reason: int, values: map<uint64, uint64>, awards: seq<Award>)
    ensures Tells(a, AddAwards(a, reason, values, awards))
    decreases |awards|
  {
    hide Stakes, SumBuyIns;
    if awards != [] {
      var front, w := awards[..|awards| - 1], awards[|awards| - 1];
      AwardsTell(a, reason, values, front);
      if w.GoldAward? {
        GoldTells(AddAwards(a, reason, values, front), reason, w.giving, w.charge);
      }
    }
  }

  /** Whatever an operation logs, its last event shows the gold and the sum of the stakes as the
      operation leaves them, and earlier events stay. */
  lemma EventsTellHoldings(a: Account, op: Op)
    ensures Tells(a, Apply(a, op))
  {
    hide Tells, Log, AddBuyIn, SubBuyIn, CheckTimeout, ClearBuyIn, AddGold, SubGold, AddAwards, SubPrize;
    match op
    case OpAddGold(reason, giving, charge) => GoldTells(a, reason, giving, charge);
    case OpAddAwards(reason, values, awards) => AwardsTell(a, reason, values, awards);
    case OpAddBuyIn(num, machineId, now) => AddBuyInTells(a, num, machineId, now);
    case OpSubBuyIn(reason, cost, machineId, now) => SubBuyInTells(a, reason, cost, machineId, now);
    case OpCheckTimeout(now) => CheckTimeoutTells(a, now);
    case OpClearBuyIn(machineId) => ClearBuyInTells(a, machineId);
    case OpSubGold(reason, num) => SubGoldTells(a, reason, num);
    case OpSubPrize(prizeId, n) => SubPrizeTells(a, prizeId, n);
  }

  lemma AddBuyInTells(a: Account, num: uint64, machineId: uint64, now: uint32)
    ensures Tells(a, AddBuyIn(a, num, machineId, now))
  {
    hide Stakes, SumBuyIns, FindMachine, Plus;
    SumIsStakes(AddBuyIn(a, num, machineId, now).buyIns);
  }

  lemma SubBuyInTells(a: Account, reason: int, cost: uint64, machineId: uint64, now: uint32)
    ensures Tells(a, SubBuyIn(a, reason, cost, machineId, now))
  {
    hide Stakes, SumBuyIns, FindMachine, Plus;
    SumIsStakes(SubBuyIn(a, reason, cost, machineId, now).buyIns);
  }

  lemma CheckTimeoutTells(a: Account, now: uint32)
    ensures Tells(a, CheckTimeout(a, now))
  {
    hide Stakes, SumBuyIns, Kept, Refunded;
    SumIsStakes(CheckTimeout(a, now).buyIns);
  }

  lemma ClearBuyInTells(a: Account, machineId: uint64)
    ensures Tells(a, ClearBuyIn(a, machineId))
  {
    hide Stakes, SumBuyIns, FindMachine, Plus;
    SumIsStakes(ClearBuyIn(a, machineId).buyIns);
  }

  lemma SubGoldTells(a: Account, reason: int, num: uint64)
    ensures Tells(a, SubGold(a, reason, num))
  {
    hide Stakes, SumBuyIns, Plus;
    SumIsStakes(a.buyIns);
  }

  lemma SubPrizeTells(a: Account, prizeId: uint64, n: uint32)
    ensures Tells(a, SubPrize(a, prizeId, n))
  {
    hide Stakes, SumBuyIns, FindPrize;
  }
}
