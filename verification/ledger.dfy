/** A player's gold: balance, stakes placed on machines, running totals, and prizes.  All sums
    wrap at 64 bits (32 for prize counts), as the code's do. */
module Ledger {
  import opened Bytes
  import opened Shared

  const M64: int := U64
  const M32: int := U32

  const R_GM_SUB: int := 3
  const R_LIP_LOTTERY: int := 7
  const R_GAME_REFUND: int := 9
  const R_BUY_IN: int := 10
  const R_CLEAR_BUY_IN: int := 11
  const R_BUY_IN_TIMEOUT: int := 12
  const BUY_IN_TIMEOUT: int := 600

  datatype BuyIn = BuyIn(machineId: uint64, num: uint64, updateTime: uint32)

  datatype Prize = Prize(prizeId: uint64, num: uint32)

  /** The "gold_account" event. */
  datatype Event = Event(num: int, charge: uint64, giving: uint64, afterGold: uint64, afterBuyIn: uint64, reason: int)

  /** `gmRemoved` is the gold taken by the operator; no code reads it. */
  datatype Account = Account(
    gold: uint64, buyIns: seq<BuyIn>, charge: uint64, giving: uint64, consume: uint64, prizeValue: uint64,
    prizes: seq<Prize>, events: seq<Event>, gmRemoved: nat)

  const EMPTY: Account := Account(0, [], 0, 0, 0, 0, [], [], 0)

  function Plus(a: uint64, b: uint64): (r: uint64)
    ensures r == a + b || r == a + b - M64
    ensures a + b < M64 ==> r == a + b
    ensures r == (a + b) % M64
  {
    if a + b < M64 then a + b else a + b - M64
  }

  function Min(a: uint64, b: uint64): uint64 {
    if a > b then b else a
  }

  /** `GetPlayerBuyIn` over all machines. */
  function SumBuyIns(buyIns: seq<BuyIn>): uint64 {
    if buyIns == [] then 0 else Plus(SumBuyIns(buyIns[..|buyIns| - 1]), buyIns[|buyIns| - 1].num)
  }

  function FindMachine(buyIns: seq<BuyIn>, machineId: uint64): (i: int)
    ensures -1 <= i < |buyIns|
    ensures i >= 0 ==> buyIns[i].machineId == machineId && forall j :: 0 <= j < i ==> buyIns[j].machineId != machineId
    ensures i < 0 ==> forall j :: 0 <= j < |buyIns| ==> buyIns[j].machineId != machineId
  {
    FirstIndex(buyIns, (b: BuyIn) => b.machineId == machineId)
  }

  function FindPrize(prizes: seq<Prize>, prizeId: uint64): (i: int)
    ensures -1 <= i < |prizes|
    ensures i >= 0 ==> prizes[i].prizeId == prizeId && forall j :: 0 <= j < i ==> prizes[j].prizeId != prizeId
    ensures i < 0 ==> forall j :: 0 <= j < |prizes| ==> prizes[j].prizeId != prizeId
  {
    FirstIndex(prizes, (b: Prize) => b.prizeId == prizeId)
  }

  function Log(a: Account, num: int, charge: uint64, giving: uint64, reason: int): Account {
    a.(events := a.events + [Event(num, charge, giving, a.gold, SumBuyIns(a.buyIns), reason)])
  }

  // ---------------------------------------------------------------------------------------
  // Operations
  // ---------------------------------------------------------------------------------------

  function AddBuyIn(a: Account, num: uint64, machineId: uint64, now: uint32): Account {
    var n := Min(num, a.gold);
    var i := FindMachine(a.buyIns, machineId);
    if i >= 0 then
      a.(gold := a.gold - n, buyIns := a.buyIns[i := BuyIn(machineId, Plus(a.buyIns[i].num, n), now)])
    else
      Log(a.(gold := a.gold - n, buyIns := a.buyIns + [BuyIn(machineId, n, now)]), 0, 0, 0, R_BUY_IN)
  }

  /** A stake of zero is reported without an event; a missing stake with one, for the cost that
      was asked. */
  function SubBuyIn(a: Account, reason: int, cost: uint64, machineId: uint64, now: uint32): Account {
    var i := FindMachine(a.buyIns, machineId);
    if i < 0 then Log(a, -(cost as int), 0, 0, reason)
    else
      var c := Min(cost, a.buyIns[i].num);
      if c == 0 then a
      else
        Log(a.(consume := Plus(a.consume, c), buyIns := a.buyIns[i := BuyIn(machineId, a.buyIns[i].num - c, now)]),
            -(c as int), 0, 0, reason)
  }

  predicate Expired(b: BuyIn, now: uint32) {
    (b.updateTime + BUY_IN_TIMEOUT) % M32 <= now
  }

  function Kept(buyIns: seq<BuyIn>, now: uint32): seq<BuyIn> {
    if buyIns == [] then []
    else Kept(buyIns[..|buyIns| - 1], now) + if Expired(buyIns[|buyIns| - 1], now) then [] else [buyIns[|buyIns| - 1]]
  }

  function Refunded(gold: uint64, buyIns: seq<BuyIn>, now: uint32): uint64 {
    if buyIns == [] then gold
    else
      var g := Refunded(gold, buyIns[..|buyIns| - 1], now);
      if Expired(buyIns[|buyIns| - 1], now) then Plus(g, buyIns[|buyIns| - 1].num) else g
  }

  function CheckTimeout(a: Account, now: uint32): Account {
    var a' := a.(gold := Refunded(a.gold, a.buyIns, now), buyIns := Kept(a.buyIns, now));
    if Kept(a.buyIns, now) == a.buyIns then a' else Log(a', 0, 0, 0, R_BUY_IN_TIMEOUT)
  }

  function ClearBuyIn(a: Account, machineId: uint64): Account {
    var i := FindMachine(a.buyIns, machineId);
    if i < 0 then a
    else
      Log(a.(gold := Plus(a.gold, a.buyIns[i].num), buyIns := a.buyIns[..i] + a.buyIns[i + 1..]), 0, 0, 0, R_CLEAR_BUY_IN)
  }

  /** A refund takes back what was consumed; the amount taken is limited by both totals. */
  function AddGold(a: Account, reason: int, giving: uint64, charge: uint64): Account {
    var g, c := if reason == R_LIP_LOTTERY then charge else giving, if reason == R_LIP_LOTTERY then giving else charge;
    var total := Plus(g, c);
    if total == 0 then a
    else
      var a1 := a.(gold := Plus(a.gold, total), giving := Plus(a.giving, g), charge := Plus(a.charge, c));
      if reason == R_GAME_REFUND then
        var back := Min(Min(g, a1.consume), a1.giving);
        Log(a1.(consume := a1.consume - back, giving := a1.giving - back), total, c, back, reason)
      else Log(a1, total, c, g, reason)
  }

  function SubGold(a: Account, reason: int, num: uint64): Account {
    if num == 0 then a
    else
      var n := Min(num, a.gold);
      var a1 := a.(gold := a.gold - n);
      Log(if reason == R_GM_SUB then a1.(gmRemoved := a1.gmRemoved + n) else a1.(consume := Plus(a1.consume, n)),
          -(n as int), 0, 0, reason)
  }

  /** `value` is the configured value of the prize, if it has one. */
  function AddPrize(a: Account, prizeId: uint64, num: uint32, value: uint64): Account {
    var i := FindPrize(a.prizes, prizeId);
    a.(prizes := if i >= 0 then a.prizes[i := Prize(prizeId, (a.prizes[i].num + num) % M32)] else a.prizes + [Prize(prizeId, num)],
       prizeValue := Plus(a.prizeValue, value))
  }

  function SubPrize(a: Account, prizeId: uint64, num: uint32): Account {
    var i := FindPrize(a.prizes, prizeId);
    if i < 0 then a
    else
      var left: uint32 := if num > a.prizes[i].num then 0 else a.prizes[i].num - num;
      a.(prizes := if left == 0 then a.prizes[..i] + a.prizes[i + 1..] else a.prizes[i := Prize(prizeId, left)])
  }

  datatype Award = GoldAward(giving: uint64, charge: uint64) | PrizeAward(prizeId: uint64, count: uint64) | OtherAward

  /** `values` is the configured value of each prize.  A count is cut to 32 bits. */
  function AddAward(a: Account, reason: int, values: map<uint64, uint64>, award: Award): Account {
    match award
    case GoldAward(g, c) => AddGold(a, reason, g, c)
    case PrizeAward(id, n) => AddPrize(a, id, n % M32, if id in values then values[id] else 0)
    case OtherAward => a
  }

  function AddAwards(a: Account, reason: int, values: map<uint64, uint64>, awards: seq<Award>): Account {
    if awards == [] then a
    else AddAward(AddAwards(a, reason, values, awards[..|awards| - 1]), reason, values, awards[|awards| - 1])
  }

  // ---------------------------------------------------------------------------------------
  // The account as the code keeps it
  // ---------------------------------------------------------------------------------------

  class PlayerAccount {
    var gold: uint64
    var buyIns: seq<BuyIn>
    var charge: uint64
    var giving: uint64
    var consume: uint64
    var prizeValue: uint64
    var prizes: seq<Prize>
    var events: seq<Event>
    ghost var gmRemoved: nat

    constructor ()
      ensures View() == EMPTY
    {
      gold, buyIns, charge, giving, consume, prizeValue, prizes, events := 0, [], 0, 0, 0, 0, [], [];
      gmRemoved := 0;
    }

    ghost function View(): Account
      reads this
    {
      Account(gold, buyIns, charge, giving, consume, prizeValue, prizes, events, gmRemoved)
    }

    method GetBuyIn(machineId: uint64) returns (num: uint64)
      ensures num == AmountAt(buyIns, machineId)
    {
      for i := 0 to |buyIns|
        invariant forall j :: 0 <= j < i ==> buyIns[j].machineId != machineId
      {
        if buyIns[i].machineId == machineId {
          return buyIns[i].num;
        }
      }
      return 0;
    }

    method GetBuyInSum() returns (sum: uint64)
      ensures sum == SumBuyIns(buyIns)
    {
      sum := 0;
      assert buyIns[..0] == [];
      for i := 0 to |buyIns|
        invariant sum == SumBuyIns(buyIns[..i])
      {
        assert buyIns[..i + 1][..i] == buyIns[..i];
        sum := Plus(sum, buyIns[i].num);
      }
      assert buyIns[..|buyIns|] == buyIns;
    }

    method AddEvent(num: int, charge: uint64, giving: uint64, reason: int)
      modifies this`events
      ensures View() == Log(old(View()), num, charge, giving, reason)
    {
      var sum := GetBuyInSum();
      events := events + [Event(num, charge, giving, gold, sum, reason)];
    }

    method PlayerAddBuyIn(num: uint64, machineId: uint64, now: uint32) returns (ret: uint64)
      modifies this
      ensures View() == AddBuyIn(old(View()), num, machineId, now)
      ensures ret == AmountAt(buyIns, machineId)
    {
      hide SumBuyIns, Plus, FindMachine;
      var n := num;
      if n > gold {
        n := gold;
      }
      gold := gold - n;
      for i := 0 to |buyIns|
        invariant gold == old(gold) - n && View() == old(View()).(gold := gold)
        invariant forall j :: 0 <= j < i ==> buyIns[j].machineId != machineId
      {
        if buyIns[i].machineId == machineId {
          buyIns := buyIns[i := BuyIn(machineId, Plus(buyIns[i].num, n), now)];
          return buyIns[i].num;
        }
      }
      buyIns := buyIns + [BuyIn(machineId, n, now)];
      assert buyIns[|buyIns| - 1].machineId == machineId;
      AddEvent(0, 0, 0, R_BUY_IN);
      return n;
    }

    method PlayerSubBuyIn(reason: int, cost: uint64, machineId: uint64, now: uint32) returns (ret: uint64)
      modifies this
      ensures View() == SubBuyIn(old(View()), reason, cost, machineId, now)
      ensures ret == AmountAt(buyIns, machineId)
    {
      hide SumBuyIns, Plus, FindMachine;
      ret := 0;
      var c := cost;
      for i := 0 to |buyIns|
        invariant View() == old(View()) && c == cost && ret == 0
        invariant forall j :: 0 <= j < i ==> buyIns[j].machineId != machineId
      {
        if buyIns[i].machineId == machineId {
          if c > buyIns[i].num {
            c := buyIns[i].num;
          }
          if c == 0 {
            return buyIns[i].num;
          }
          consume := Plus(consume, c);
          buyIns := buyIns[i := BuyIn(machineId, buyIns[i].num - c, now)];
          ret := buyIns[i].num;
          break;
        }
      }
      AddEvent(-(c as int), 0, 0, reason);
    }

    method CheckPlayerBuyInTimeout(now: uint32)
      modifies this
      ensures View() == CheckTimeout(old(View()), now)
    {
      var needEvent := SweepBuyIns(now);
      KeptAll(old(buyIns), now);
      if needEvent {
        AddEvent(0, 0, 0, R_BUY_IN_TIMEOUT);
      }
    }

    /** Deletes while it walks. */
    method SweepBuyIns(now: uint32) returns (needEvent: bool)
      modifies this`gold, this`buyIns
      ensures gold == Refunded(old(gold), old(buyIns), now) && buyIns == Kept(old(buyIns), now)
      ensures needEvent <==> |Kept(old(buyIns), now)| < |old(buyIns)|
    {
      hide Plus, Kept, Refunded;
      needEvent := false;
      var i := 0;
      ghost var was, kept, j := buyIns, [], 0;
      assert was[..0] == [] && was[0..] == was;
      NothingSwept(gold, now);
      while i < |buyIns|
        invariant 0 <= j <= |was| && kept == Kept(was[..j], now)
        invariant buyIns == kept + was[j..] && i == |kept| <= j && (needEvent <==> |kept| < j)
        invariant gold == Refunded(old(gold), was[..j], now)
        decreases |was| - j
      {
        SweepStep(old(gold), was, j, now);
        CutAt(kept, was, j);
        if Expired(buyIns[i], now) {
          needEvent := true;
          gold := Plus(gold, buyIns[i].num);
          buyIns := buyIns[..i] + buyIns[i + 1..];
        } else {
          i := i + 1;
          kept := kept + [was[j]];
        }
        j := j + 1;
      }
      assert was[..|was|] == was;
    }

    method PlayerClearBuyIn(machineId: uint64) returns (needSave: bool)
      modifies this
      ensures View() == ClearBuyIn(old(View()), machineId)
      ensures needSave == (FindMachine(old(buyIns), machineId) >= 0)
    {
      needSave := false;
      for i := 0 to |buyIns|
        invariant View() == old(View()) && !needSave
        invariant forall j :: 0 <= j < i ==> buyIns[j].machineId != machineId
      {
        if buyIns[i].machineId == machineId {
          gold := Plus(gold, buyIns[i].num);
          buyIns := buyIns[..i] + buyIns[i + 1..];
          needSave := true;
          break;
        }
      }
      if needSave {
        AddEvent(0, 0, 0, R_CLEAR_BUY_IN);
      }
    }

    method PlayerAddGold(reason: int, givingNum: uint64, chargeNum: uint64)
      modifies this
      ensures View() == AddGold(old(View()), reason, givingNum, chargeNum)
    {
      hide SumBuyIns, Plus;
      var g, c := givingNum, chargeNum;
      if reason == R_LIP_LOTTERY {
        g, c := c, g;
      }
      var total := Plus(g, c);
      if total == 0 {
        return;
      }
      gold := Plus(gold, total);
      if g != 0 {
        giving := Plus(giving, g);
      }
      if c != 0 {
        charge := Plus(charge, c);
      }
      if reason == R_GAME_REFUND {
        if g > consume {
          g := consume;
        }
        if g > giving {
          g := giving;
        }
        consume := consume - g;
        giving := giving - g;
      }
      AddEvent(total, c, g, reason);
    }

    method PlayerSubGold(reason: int, num: uint64) returns (left: uint64)
      modifies this
      ensures View() == SubGold(old(View()), reason, num) && left == gold
    {
      if num == 0 {
        return gold;
      }
      var n := num;
      if n > gold {
        n := gold;
      }
      gold := gold - n;
      if reason != R_GM_SUB {
        consume := Plus(consume, n);
      } else {
        gmRemoved := gmRemoved + n;
      }
      AddEvent(-(n as int), 0, 0, reason);
      return gold;
    }

    method PlayerAddPrize(prizeId: uint64, num: uint32, value: uint64)
      modifies this
      ensures View() == AddPrize(old(View()), prizeId, num, value)
    {
      var find := false;
      for i := 0 to |prizes|
        invariant View() == old(View()) && !find
        invariant forall j :: 0 <= j < i ==> prizes[j].prizeId != prizeId
      {
        if prizes[i].prizeId == prizeId {
          find := true;
          prizes := prizes[i := Prize(prizeId, (prizes[i].num + num) % M32)];
          break;
        }
      }
      if !find {
        prizes := prizes + [Prize(prizeId, num)];
      }
      prizeValue := Plus(prizeValue, value);
    }

    method PlayerAddAwards(reason: int, values: map<uint64, uint64>, awards: seq<Award>)
      modifies this
      ensures View() == AddAwards(old(View()), reason, values, awards)
    {
      assert awards[..0] == [];
      for i := 0 to |awards|
        invariant View() == AddAwards(old(View()), reason, values, awards[..i])
      {
        assert awards[..i + 1][..i] == awards[..i];
        match awards[i] {
          case GoldAward(g, c) => PlayerAddGold(reason, g, c);
          case PrizeAward(id, n) => PlayerAddPrize(id, n % M32, if id in values then values[id] else 0);
          case OtherAward =>
        }
      }
      assert awards[..|awards|] == awards;
    }

    method PlayerSubPrize(prizeId: uint64, num: uint32)
      modifies this
      ensures View() == SubPrize(old(View()), prizeId, num)
    {
      for i := 0 to |prizes|
        invariant View() == old(View())
        invariant forall j :: 0 <= j < i ==> prizes[j].prizeId != prizeId
      {
        if prizes[i].prizeId == prizeId {
          var n := num;
          if n > prizes[i].num {
            n := prizes[i].num;
          }
          prizes := prizes[i := Prize(prizeId, prizes[i].num - n)];
          if prizes[i].num == 0 {
            prizes := prizes[..i] + prizes[i + 1..];
          }
          break;
        }
      }
    }
  }

  /** `GetPlayerBuyIn` for one machine. */
  function AmountAt(buyIns: seq<BuyIn>, machineId: uint64): uint64 {
    var i := FindMachine(buyIns, machineId);
    if i < 0 then 0 else buyIns[i].num
  }

  /** The element under the cursor, deleted or passed over. */
  lemma CutAt(kept: seq<BuyIn>, was: seq<BuyIn>, j: nat)
    requires j < |was|
    ensures var all := kept + was[j..];
            && all[|kept|] == was[j]
            && all[..|kept|] + all[|kept| + 1..] == kept + was[j + 1..]
            && all == (kept + [was[j]]) + was[j + 1..]
  {
    assert was[j..] == [was[j]] + was[j + 1..];
  }

  lemma NothingSwept(gold: uint64, now: uint32)
    ensures Kept([], now) == [] && Refunded(gold, [], now) == gold
  {
  }

  lemma SweepStep(gold: uint64, buyIns: seq<BuyIn>, j: nat, now: uint32)
    requires j < |buyIns|
    ensures Kept(buyIns[..j + 1], now) == Kept(buyIns[..j], now) + if Expired(buyIns[j], now) then [] else [buyIns[j]]
    ensures Refunded(gold, buyIns[..j + 1], now)
         == if Expired(buyIns[j], now) then Plus(Refunded(gold, buyIns[..j], now), buyIns[j].num) else Refunded(gold, buyIns[..j], now)
  {
    assert buyIns[..j + 1][..j] == buyIns[..j];
  }

  lemma {:induction false} KeptAll(buyIns: seq<BuyIn>, now: uint32)
    ensures |Kept(buyIns, now)| <= |buyIns|
    ensures Kept(buyIns, now) == buyIns <==> |Kept(buyIns, now)| == |buyIns|
  {
    if buyIns != [] {
      var front := buyIns[..|buyIns| - 1];
      KeptAll(front, now);
      assert buyIns == front + [buyIns[|buyIns| - 1]];
    }
  }
}
