/** The ledger on top of the store: accounts that many sessions change at the same time. */
module LedgerStore {
  import opened Bytes
  import opened Sessions
  import opened KVStores
  import opened StoreProtocol
  import L = Ledger
  import Laws = LedgerLaws

  /** What is stored with the gold: everything but the prizes, which have a key of their own,
      the events, and what no code reads. */
  function Stored(a: L.Account): L.Account {
    a.(prizes := [], events := [], gmRemoved := 0)
  }

  /** The stored books after the operations `ops` on the books stored as `a`. */
  function Books(decode: Value -> L.Account, a: Value, ops: seq<Laws.Op>): L.Account {
    Laws.RunOps(Stored(decode(a)), ops)
  }

  /** The value `b` comes from `a` by the operations `ops` of the ledger. */
  ghost predicate StepBy(decode: Value -> L.Account, a: Value, b: Value, ops: seq<Laws.Op>) {
    Stored(decode(b)) == Stored(Books(decode, a, ops))
  }

  ghost predicate LedgerStep(decode: Value -> L.Account, a: Value, b: Value) {
    exists ops :: StepBy(decode, a, b, ops)
  }

  /** Handlers that touch the gold only through the ledger. */
  ghost function LedgerLaw(init: Key -> Value, decode: Value -> L.Account): Law {
    Law(init, (k, a, b) => k == K_GOLD ==> LedgerStep(decode, a, b), (k, a, b) => k == K_GOLD ==> LedgerStep(decode, a, b))
  }

  function Flatten(opss: seq<seq<Laws.Op>>): seq<Laws.Op> {
    if opss == [] then [] else Flatten(opss[..|opss| - 1]) + opss[|opss| - 1]
  }

  /** `opss` has, for every write, the operations that its own save performed. */
  ghost predicate OpsOf(decode: Value -> L.Account, h: seq<Write>, opss: seq<seq<Laws.Op>>) {
    |opss| == |h| && forall i :: 0 <= i < |h| ==> StepBy(decode, h[i].basis, h[i].value, opss[i])
  }

  lemma NothingChanged(decode: Value -> L.Account, v: Value)
    ensures LedgerStep(decode, v, v)
  {
    assert StepBy(decode, v, v, []);
  }

  // ---------------------------------------------------------------------------------------
  // What is not stored does not matter
  // ---------------------------------------------------------------------------------------

  lemma AwardOnStored(a: L.Account, b: L.Account, reason: int, values: map<uint64, uint64>, award: L.Award)
    requires Stored(a) == Stored(b)
    ensures Stored(L.AddAward(a, reason, values, award)) == Stored(L.AddAward(b, reason, values, award))
  {
  }

  lemma {:induction false} AwardsOnStored(a: L.Account, b: L.Account, reason: int, values: map<uint64, uint64>, awards: seq<L.Award>)
    requires Stored(a) == Stored(b)
    ensures Stored(L.AddAwards(a, reason, values, awards)) == Stored(L.AddAwards(b, reason, values, awards))
    decreases |awards|
  {
    if awards != [] {
      var front := awards[..|awards| - 1];
      AwardsOnStored(a, b, reason, values, front);
      AwardOnStored(L.AddAwards(a, reason, values, front), L.AddAwards(b, reason, values, front), reason, values, awards[|awards| - 1]);
    }
  }

  lemma OpOnStored(a: L.Account, b: L.Account, op: Laws.Op)
    requires Stored(a) == Stored(b)
    ensures Stored(Laws.Apply(a, op)) == Stored(Laws.Apply(b, op))
  {
    if op.OpAddAwards? {
      AwardsOnStored(a, b, op.reason, op.values, op.awards);
    }
  }

  lemma {:induction false} RunOnStored(a: L.Account, b: L.Account, ops: seq<Laws.Op>)
    requires Stored(a) == Stored(b)
    ensures Stored(Laws.RunOps(a, ops)) == Stored(Laws.RunOps(b, ops))
    decreases |ops|
  {
    if ops != [] {
      OpOnStored(a, b, ops[0]);
      RunOnStored(Laws.Apply(a, ops[0]), Laws.Apply(b, ops[0]), ops[1..]);
    }
  }

  lemma {:induction false} RunAppend(a: L.Account, ops: seq<Laws.Op>, more: seq<Laws.Op>)
    ensures Laws.RunOps(a, ops + more) == Laws.RunOps(Laws.RunOps(a, ops), more)
    decreases |ops|
  {
    hide Laws.Apply;
    if ops == [] {
      assert ops + more == more;
    } else {
      RunAppend(Laws.Apply(a, ops[0]), ops[1..], more);
      assert (ops + more)[1..] == ops[1..] + more;
    }
  }

  // ---------------------------------------------------------------------------------------
  // The stored account is one run of all accepted operations
  // ---------------------------------------------------------------------------------------

  lemma {:induction false} ChooseOps(decode: Value -> L.Account, h: seq<Write>) returns (opss: seq<seq<Laws.Op>>)
    requires forall i :: 0 <= i < |h| ==> LedgerStep(decode, h[i].basis, h[i].value)
    ensures OpsOf(decode, h, opss)
    decreases |h|
  {
    if h == [] {
      opss := [];
    } else {
      var front, last := h[..|h| - 1], h[|h| - 1];
      opss := ChooseOps(decode, front);
      var ops :| StepBy(decode, last.basis, last.value, ops);
      opss := opss + [ops];
      assert forall i :: 0 <= i < |front| ==> front[i] == h[i];
    }
  }

  lemma OneMoreSave(decode: Value -> L.Account, start: Value, ops: seq<Laws.Op>, v: Value, more: seq<Laws.Op>, v': Value)
    requires StepBy(decode, start, v, ops) && StepBy(decode, v, v', more)
    ensures StepBy(decode, start, v', ops + more)
  {
    RunAppend(Stored(decode(start)), ops, more);
    RunOnStored(Books(decode, start, ops), Stored(decode(v)), more);
  }

  lemma {:induction false} BooksAlong(decode: Value -> L.Account, h: seq<Write>, opss: seq<seq<Laws.Op>>, i: nat)
    requires OpsOf(decode, h, opss) && 0 < i <= |h|
    requires forall j :: 0 < j < |h| ==> h[j].basis == h[j - 1].value
    ensures StepBy(decode, h[0].basis, h[i - 1].value, Flatten(opss[..i]))
    decreases i
  {
    assert opss[..i][..i - 1] == opss[..i - 1];
    if i == 1 {
      assert Flatten(opss[..1]) == [] + opss[0] == opss[0];
    } else {
      BooksAlong(decode, h, opss, i - 1);
      OneMoreSave(decode, h[0].basis, Flatten(opss[..i - 1]), h[i - 2].value, opss[i - 1], h[i - 1].value);
    }
  }

  ghost predicate InOrder(a: L.Account) {
    Laws.Balanced(a) && Laws.NoRepeat(a.buyIns)
  }

  /** What the store holds of an account. */
  ghost predicate SameBooks(a: L.Account, b: L.Account) {
    && a.gold == b.gold && a.buyIns == b.buyIns && a.charge == b.charge && a.giving == b.giving
    && a.consume == b.consume && a.prizeValue == b.prizeValue
  }

  /** However the sessions of one player race, whatever the network loses and whichever saves
      are refused and redone: the stored account is what the operations of all accepted saves
      make of the first one, one save after the other in the order of acceptance.  No charge is
      lost and none counts twice, the books balance, gold removed by the operator included, and
      no machine has two stakes. */
  lemma StoredAccountsBalance(init: Key -> Value, decode: Value -> L.Account, actions: seq<Action>, uid: nat)
    returns (opss: seq<seq<Laws.Op>>, start: Value)
    requires InOrder(Stored(decode(init(K_GOLD)))) && InOrder(Stored(decode([])))
    requires forall a :: a in actions ==> ActionOk(LedgerLaw(init, decode), a)
    requires Loc(uid, K_GOLD) in Run(LedgerLaw(init, decode), INIT, actions).cells
    ensures var w, loc := Run(LedgerLaw(init, decode), INIT, actions), Loc(uid, K_GOLD);
            && (start == init(K_GOLD) || start == [])
            && |opss| == w.cells[loc].version && OpsOf(decode, HistAt(w.hist, loc), opss)
            && StepBy(decode, start, w.cells[loc].value, Flatten(opss))
            && SameBooks(decode(w.cells[loc].value), Books(decode, start, Flatten(opss)))
            && InOrder(Books(decode, start, Flatten(opss)))
  {
    var law, loc := LedgerLaw(init, decode), Loc(uid, K_GOLD);
    forall k, v
      ensures law.rest(k, v, v)
    {
      NothingChanged(decode, v);
    }
    StoredValuesAreAChain(law, actions, loc);
    var h := HistAt(Run(law, INIT, actions).hist, loc);
    start := h[0].basis;
    WritesAreSteps(init, decode, h);
    opss := ChooseOps(decode, h);
    BooksAlong(decode, h, opss, |h|);
    assert opss[..|h|] == opss;
    Laws.RunKeeps(Stored(decode(start)), Flatten(opss));
  }

  lemma WritesAreSteps(init: Key -> Value, decode: Value -> L.Account, h: seq<Write>)
    requires forall i :: 0 <= i < |h| ==> LedgerLaw(init, decode).made(K_GOLD, h[i].basis, h[i].value)
    ensures forall i :: 0 <= i < |h| ==> LedgerStep(decode, h[i].basis, h[i].value)
  {
  }
}
