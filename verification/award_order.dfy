/** Granting a list of awards: the order does not matter. */
module AwardOrder {
  import opened Bytes
  import opened Shared
  import opened Ledger

  /** The totals that awards add to. */
  datatype Total = GoldTotal | GivingTotal(reason: int) | ChargeTotal(reason: int)
                 | ValueTotal(values: map<uint64, uint64>) | PrizeTotal(prizeId: uint64)

  /** What one award adds to a total.  Nothing at all if its two parts wrap to zero. */
  function Part(total: Total, w: Award): uint64 {
    match total
    case GoldTotal => if w.GoldAward? then Plus(w.giving, w.charge) else 0
    case GivingTotal(reason) =>
      if !w.GoldAward? || Plus(w.giving, w.charge) == 0 then 0 else if reason == R_LIP_LOTTERY then w.charge else w.giving
    case ChargeTotal(reason) =>
      if !w.GoldAward? || Plus(w.giving, w.charge) == 0 then 0 else if reason == R_LIP_LOTTERY then w.giving else w.charge
    case ValueTotal(values) => if w.PrizeAward? && w.prizeId in values then values[w.prizeId] else 0
    case PrizeTotal(prizeId) => if w.PrizeAward? && w.prizeId == prizeId then w.count % M32 else 0
  }

  function SumOf(total: Total, s: seq<Award>): nat {
    if s == [] then 0 else SumOf(total, s[..|s| - 1]) + Part(total, s[|s| - 1])
  }

  lemma {:induction false} SumAppend(total: Total, s: seq<Award>, t: seq<Award>)
    ensures SumOf(total, s + t) == SumOf(total, s) + SumOf(total, t)
    decreases |t|
  {
    if t == [] {
      assert s + t == s;
    } else {
      SumAppend(total, s, t[..|t| - 1]);
      assert (s + t)[..|s + t| - 1] == s + t[..|t| - 1];
    }
  }

  lemma SumWithout(total: Total, t: seq<Award>, i: nat)
    requires i < |t|
    ensures SumOf(total, t) == SumOf(total, t[..i] + t[i + 1..]) + Part(total, t[i])
  {
    var a, x, b := t[..i], [t[i]], t[i + 1..];
    assert t == a + (x + b) && x[..0] == [];
    SumAppend(total, a, x + b);
    SumAppend(total, x, b);
    SumAppend(total, a, b);
  }

  lemma TakeOut(s: seq<Award>, t: seq<Award>) returns (i: nat)
    requires s != [] && multiset(s) == multiset(t)
    ensures i < |t| && t[i] == s[|s| - 1]
    ensures multiset(s[..|s| - 1]) == multiset(t[..i] + t[i + 1..])
  {
    var x := s[|s| - 1];
    assert x in multiset(s);
    assert x in t;
    i :| 0 <= i < |t| && t[i] == x;
    WithoutOne(s, |s| - 1);
    WithoutOne(t, i);
    assert s[..|s| - 1] + s[|s|..] == s[..|s| - 1];
  }

  lemma WithoutOne(s: seq<Award>, i: nat)
    requires i < |s|
    ensures multiset(s[..i] + s[i + 1..]) == multiset(s) - multiset{s[i]}
  {
    assert s == s[..i] + ([s[i]] + s[i + 1..]);
  }

  lemma {:induction false} SumOfPermutation(total: Total, s: seq<Award>, t: seq<Award>)
    requires multiset(s) == multiset(t)
    ensures SumOf(total, s) == SumOf(total, t)
    decreases |s|
  {
    if s == [] {
      assert |t| == |multiset(t)| == 0;
    } else {
      var i := TakeOut(s, t);
      SumOfPermutation(total, s[..|s| - 1], t[..i] + t[i + 1..]);
      SumWithout(total, t, i);
    }
  }

  /** `GetPlayerPrizeNum` for one prize, when no prize is listed twice. */
  function CountAt(prizes: seq<Prize>, prizeId: uint64): uint32 {
    var i := FindPrize(prizes, prizeId);
    if i < 0 then 0 else prizes[i].num
  }

  ghost predicate NoRepeat(prizes: seq<Prize>) {
    forall i, j :: 0 <= i < j < |prizes| ==> prizes[i].prizeId != prizes[j].prizeId
  }

  lemma PlusSum(x: uint64, s: nat, c: uint64)
    ensures Plus((x + s) % M64, c) == (x + (s + c)) % M64
  {
  }

  lemma OneSimple(a: Account, reason: int, values: map<uint64, uint64>, w: Award)
    ensures var a' := AddAward(a, reason, values, w);
            && a'.gold == Plus(a.gold, Part(GoldTotal, w))
            && a'.charge == Plus(a.charge, Part(ChargeTotal(reason), w))
            && a'.prizeValue == Plus(a.prizeValue, Part(ValueTotal(values), w))
  {
    hide SumBuyIns, FindPrize;
  }

  /** The totals that never depend on clamping. */
  lemma {:induction false} SimpleTotals(a: Account, reason: int, values: map<uint64, uint64>, awards: seq<Award>)
    ensures SimpleTotalsAre(a, AddAwards(a, reason, values, awards), SumOf(GoldTotal, awards),
                            SumOf(ChargeTotal(reason), awards), SumOf(ValueTotal(values), awards))
    decreases |awards|
  {
    hide Part, Plus, AddAward;
    if awards != [] {
      var front, w := awards[..|awards| - 1], awards[|awards| - 1];
      SimpleTotals(a, reason, values, front);
      OneSimple(AddAwards(a, reason, values, front), reason, values, w);
      PlusSum(a.gold, SumOf(GoldTotal, front), Part(GoldTotal, w));
      PlusSum(a.charge, SumOf(ChargeTotal(reason), front), Part(ChargeTotal(reason), w));
      PlusSum(a.prizeValue, SumOf(ValueTotal(values), front), Part(ValueTotal(values), w));
    }
  }

  ghost predicate SimpleTotalsAre(a: Account, a': Account, gold: nat, charge: nat, value: nat) {
    a'.gold == (a.gold + gold) % M64 && a'.charge == (a.charge + charge) % M64 && a'.prizeValue == (a.prizeValue + value) % M64
  }

  lemma OnePlain(a: Account, reason: int, values: map<uint64, uint64>, w: Award)
    requires reason != R_GAME_REFUND
    ensures var a' := AddAward(a, reason, values, w);
            a'.consume == a.consume && a'.giving == Plus(a.giving, Part(GivingTotal(reason), w))
  {
    hide SumBuyIns, FindPrize;
  }

  /** Without a refund nothing is clamped. */
  lemma {:induction false} PlainTotals(a: Account, reason: int, values: map<uint64, uint64>, awards: seq<Award>)
    requires reason != R_GAME_REFUND
    ensures var a' := AddAwards(a, reason, values, awards);
            a'.consume == a.consume && a'.giving == (a.giving + SumOf(GivingTotal(reason), awards)) % M64
    decreases |awards|
  {
    hide Part, Plus, AddAward;
    if awards != [] {
      var front, w := awards[..|awards| - 1], awards[|awards| - 1];
      PlainTotals(a, reason, values, front);
      OnePlain(AddAwards(a, reason, values, front), reason, values, w);
      PlusSum(a.giving, SumOf(GivingTotal(reason), front), Part(GivingTotal(reason), w));
    }
  }

  /** Some gift is so large that adding it to the total given wraps. */
  ghost predicate SomeWrap(given: uint64, awards: seq<Award>) {
    exists w :: w in awards && given + Part(GivingTotal(R_GAME_REFUND), w) >= M64
  }

  /** What `sum` gifts leave of the total consumed and the total given, which start at `consumed`
      and `given`.  All the gifts are taken back, less what the first wrap of the total given
      swallows; once nothing is left to take, the total given grows. */
  ghost predicate Reduced(given: uint64, consumed: uint64, sum: nat, wrap: bool, consume: int, giving: int) {
    var taken := sum - if wrap then M64 - given else 0;
    if taken <= consumed then consume == consumed - taken && giving == if wrap then 0 else given
    else consume == 0 && giving == (given + sum - consumed) % M64
  }

  ghost predicate RefundedAre(a: Account, a': Account, awards: seq<Award>) {
    Reduced(a.giving, a.consume, SumOf(GivingTotal(R_GAME_REFUND), awards), SomeWrap(a.giving, awards), a'.consume, a'.giving)
  }

  lemma ModPlus(x: int, g: uint64)
    ensures Plus((x % M64) as uint64, g) == (x + g) % M64
  {
  }

  lemma ReducedStep(given: uint64, consumed: uint64, sum: nat, wrap: bool, consume: uint64, giving: uint64, g: uint64)
    requires Reduced(given, consumed, sum, wrap, consume, giving)
    ensures var raised := Plus(giving, g);
            var back := Min(Min(g, consume), raised);
            Reduced(given, consumed, sum + g, wrap || given + g >= M64, consume - back, raised - back)
  {
    var taken := sum - if wrap then M64 - given else 0;
    if taken > consumed {
      ModPlus(given + sum - consumed, g);
    }
  }

  lemma WrapSnoc(given: uint64, front: seq<Award>, w: Award)
    ensures SomeWrap(given, front + [w]) <==> SomeWrap(given, front) || given + Part(GivingTotal(R_GAME_REFUND), w) >= M64
  {
    forall v | v in front
      ensures v in front + [w]
    {
    }
    assert w in front + [w];
  }

  lemma RefundStep(a: Account, mid: Account, values: map<uint64, uint64>, front: seq<Award>, w: Award)
    requires RefundedAre(a, mid, front)
    ensures RefundedAre(a, AddAward(mid, R_GAME_REFUND, values, w), front + [w])
  {
    var all := front + [w];
    assert all[..|all| - 1] == front;
    WrapSnoc(a.giving, front, w);
    ReducedStep(a.giving, a.consume, SumOf(GivingTotal(R_GAME_REFUND), front), SomeWrap(a.giving, front),
                mid.consume, mid.giving, Part(GivingTotal(R_GAME_REFUND), w));
    RefundEffect(mid, values, w);
  }

  lemma RefundEffect(a: Account, values: map<uint64, uint64>, w: Award)
    ensures var a', raised := AddAward(a, R_GAME_REFUND, values, w), Plus(a.giving, Part(GivingTotal(R_GAME_REFUND), w));
            var back := Min(Min(Part(GivingTotal(R_GAME_REFUND), w), a.consume), raised);
            a'.consume == a.consume - back && a'.giving == raised - back
  {
  }

  /** The closed form of a list of refunds: consumption falls by what is taken back, down to
      zero, and the total given absorbs the rest, whatever wraps on the way. */
  lemma {:induction false} RefundTotals(a: Account, values: map<uint64, uint64>, awards: seq<Award>)
    ensures RefundedAre(a, AddAwards(a, R_GAME_REFUND, values, awards), awards)
    decreases |awards|
  {
    if awards != [] {
      var front, w := awards[..|awards| - 1], awards[|awards| - 1];
      assert awards == front + [w];
      RefundTotals(a, values, front);
      RefundStep(a, AddAwards(a, R_GAME_REFUND, values, front), values, front, w);
    }
  }

  /** Without wrapping: all the gifts are taken back from what was consumed, down to zero, and
      the limit by the total given never applies. */
  lemma RefundWithoutWrap(a: Account, values: map<uint64, uint64>, awards: seq<Award>)
    requires a.giving + SumOf(GivingTotal(R_GAME_REFUND), awards) < M64
    ensures var a', sum := AddAwards(a, R_GAME_REFUND, values, awards), SumOf(GivingTotal(R_GAME_REFUND), awards);
            && a'.consume == (if a.consume > sum then a.consume - sum else 0)
            && a'.giving == a.giving + sum - (a.consume - a'.consume)
  {
    RefundTotals(a, values, awards);
    forall w | w in awards
      ensures a.giving + Part(GivingTotal(R_GAME_REFUND), w) < M64
    {
      PartAtMostSum(GivingTotal(R_GAME_REFUND), awards, w);
    }
  }

  lemma {:induction false} PartAtMostSum(total: Total, s: seq<Award>, w: Award)
    requires w in s
    ensures Part(total, w) <= SumOf(total, s)
    decreases |s|
  {
    var front := s[..|s| - 1];
    assert s == front + [s[|s| - 1]];
    if w in front {
      PartAtMostSum(total, front, w);
    }
  }

  /** The prize list alone. */
  function Granted(prizes: seq<Prize>, awards: seq<Award>): seq<Prize> {
    if awards == [] then prizes
    else
      var w, before := awards[|awards| - 1], Granted(prizes, awards[..|awards| - 1]);
      if w.PrizeAward? then PrizesAfter(before, w.prizeId, w.count % M32) else before
  }

  lemma {:induction false} GrantedIs(a: Account, reason: int, values: map<uint64, uint64>, awards: seq<Award>)
    ensures AddAwards(a, reason, values, awards).prizes == Granted(a.prizes, awards)
    decreases |awards|
  {
    if awards != [] {
      GrantedIs(a, reason, values, awards[..|awards| - 1]);
    }
  }

  lemma {:induction false} PrizeCounts(prizes: seq<Prize>, awards: seq<Award>, prizeId: uint64)
    requires NoRepeat(prizes)
    ensures NoRepeat(Granted(prizes, awards))
    ensures CountAt(Granted(prizes, awards), prizeId) == Cut(CountAt(prizes, prizeId) + SumOf(PrizeTotal(prizeId), awards))
    decreases |awards|
  {
    hide CountAt, PrizesAfter, NoRepeat, Part, Cut;
    if awards == [] {
      CutSmall(CountAt(prizes, prizeId));
    } else {
      var front, w := awards[..|awards| - 1], awards[|awards| - 1];
      PrizeCounts(prizes, front, prizeId);
      OnePrize(Granted(prizes, front), w, prizeId);
      CutSum(CountAt(prizes, prizeId), SumOf(PrizeTotal(prizeId), front), Part(PrizeTotal(prizeId), w));
    }
  }

  /** What one award does to the count of a prize. */
  lemma OnePrize(prizes: seq<Prize>, w: Award, prizeId: uint64)
    requires NoRepeat(prizes)
    ensures w.PrizeAward? ==> NoRepeat(PrizesAfter(prizes, w.prizeId, w.count % M32))
    ensures w.PrizeAward? ==> CountAt(PrizesAfter(prizes, w.prizeId, w.count % M32), prizeId)
                              == Cut(CountAt(prizes, prizeId) + Part(PrizeTotal(prizeId), w))
    ensures !w.PrizeAward? ==> CountAt(prizes, prizeId) == Cut(CountAt(prizes, prizeId) + Part(PrizeTotal(prizeId), w))
  {
    hide CountAt, PrizesAfter, NoRepeat;
    if w.PrizeAward? {
      AddPrizeCounts(prizes, w.prizeId, w.count % M32, prizeId);
    }
  }

  lemma CutSmall(x: uint32)
    ensures Cut(x) == x
  {
  }

  function Cut(n: nat): uint32 {
    n % M32
  }

  lemma CutSum(x: uint32, s: nat, c: nat)
    ensures Cut(Cut(x + s) + c) == Cut(x + (s + c))
  {
  }

  function PrizesAfter(prizes: seq<Prize>, prizeId: uint64, num: uint32): seq<Prize> {
    AddPrize(EMPTY.(prizes := prizes), prizeId, num, 0).prizes
  }

  lemma CountIs(prizes: seq<Prize>, i: nat)
    requires NoRepeat(prizes) && i < |prizes|
    ensures CountAt(prizes, prizes[i].prizeId) == prizes[i].num
  {
  }

  lemma AddPrizeCounts(prizes: seq<Prize>, id: uint64, num: uint32, prizeId: uint64)
    requires NoRepeat(prizes)
    ensures NoRepeat(PrizesAfter(prizes, id, num))
    ensures CountAt(PrizesAfter(prizes, id, num), prizeId) == (CountAt(prizes, prizeId) + if id == prizeId then num else 0) % M32
  {
    var after := PrizesAfter(prizes, id, num);
    var i, j := FindPrize(prizes, id), FindPrize(prizes, prizeId);
    assert forall k :: 0 <= k < |prizes| ==> after[k].prizeId == prizes[k].prizeId;
    if j >= 0 {
      assert after[j].prizeId == prizeId;
      CountIs(after, j);
    } else if id == prizeId {
      assert after[|prizes|].prizeId == prizeId;
      CountIs(after, |prizes|);
    } else {
      assert FindPrize(after, prizeId) < 0;
    }
  }

  ghost predicate SameSimple(x: Account, y: Account) {
    x.gold == y.gold && x.charge == y.charge && x.prizeValue == y.prizeValue
  }

  ghost predicate SameClamped(x: Account, y: Account) {
    x.giving == y.giving && x.consume == y.consume
  }

  lemma OrderKeepsSimple(a: Account, reason: int, values: map<uint64, uint64>, s: seq<Award>, t: seq<Award>)
    requires multiset(s) == multiset(t)
    ensures SameSimple(AddAwards(a, reason, values, s), AddAwards(a, reason, values, t))
  {
    SumOfPermutation(GoldTotal, s, t);
    SumOfPermutation(ChargeTotal(reason), s, t);
    SumOfPermutation(ValueTotal(values), s, t);
    SimpleTotals(a, reason, values, s);
    SimpleTotals(a, reason, values, t);
    SimpleDetermined(a, AddAwards(a, reason, values, s), AddAwards(a, reason, values, t),
                     SumOf(GoldTotal, s), SumOf(ChargeTotal(reason), s), SumOf(ValueTotal(values), s));
  }

  lemma SimpleDetermined(a: Account, x: Account, y: Account, gold: nat, charge: nat, value: nat)
    requires SimpleTotalsAre(a, x, gold, charge, value) && SimpleTotalsAre(a, y, gold, charge, value)
    ensures SameSimple(x, y)
  {
  }

  lemma OrderKeepsClamped(a: Account, reason: int, values: map<uint64, uint64>, s: seq<Award>, t: seq<Award>)
    requires multiset(s) == multiset(t)
    ensures SameClamped(AddAwards(a, reason, values, s), AddAwards(a, reason, values, t))
  {
    hide SumOf, AddAwards, Reduced, SomeWrap;
    SumOfPermutation(GivingTotal(reason), s, t);
    if reason == R_GAME_REFUND {
      SameWrap(a.giving, s, t);
      RefundTotals(a, values, s);
      RefundTotals(a, values, t);
      ReducedDetermines(a.giving, a.consume, SumOf(GivingTotal(reason), s), SomeWrap(a.giving, s),
                        AddAwards(a, reason, values, s), AddAwards(a, reason, values, t));
    } else {
      PlainTotals(a, reason, values, s);
      PlainTotals(a, reason, values, t);
    }
  }

  lemma SameWrap(given: uint64, s: seq<Award>, t: seq<Award>)
    requires multiset(s) == multiset(t)
    ensures SomeWrap(given, s) <==> SomeWrap(given, t)
  {
    assert forall w :: w in s <==> w in multiset(s);
    assert forall w :: w in t <==> w in multiset(t);
  }

  lemma ReducedDetermines(given: uint64, consumed: uint64, sum: nat, wrap: bool, x: Account, y: Account)
    requires Reduced(given, consumed, sum, wrap, x.consume, x.giving) && Reduced(given, consumed, sum, wrap, y.consume, y.giving)
    ensures SameClamped(x, y)
  {
  }

  /** Permuting the award list changes none of the totals, refunds and wrap-around included. */
  lemma OrderKeepsTotals(a: Account, reason: int, values: map<uint64, uint64>, s: seq<Award>, t: seq<Award>)
    requires multiset(s) == multiset(t)
    ensures var x, y := AddAwards(a, reason, values, s), AddAwards(a, reason, values, t);
            SameSimple(x, y) && SameClamped(x, y)
  {
    OrderKeepsSimple(a, reason, values, s, t);
    OrderKeepsClamped(a, reason, values, s, t);
  }

  /** Permuting the award list does not change how many of any prize the player has. */
  lemma OrderKeepsPrizes(a: Account, reason: int, values: map<uint64, uint64>, s: seq<Award>, t: seq<Award>, prizeId: uint64)
    requires multiset(s) == multiset(t) && NoRepeat(a.prizes)
    ensures CountAt(AddAwards(a, reason, values, s).prizes, prizeId) == CountAt(AddAwards(a, reason, values, t).prizes, prizeId)
  {
    GrantedIs(a, reason, values, s);
    GrantedIs(a, reason, values, t);
    PrizeCounts(a.prizes, s, prizeId);
    PrizeCounts(a.prizes, t, prizeId);
    SumOfPermutation(PrizeTotal(prizeId), s, t);
  }
}
