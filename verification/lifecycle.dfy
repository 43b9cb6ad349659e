/** Sequences of escrow instructions. A failed instruction is an aborted
    transaction and leaves the state as it was; `Run` folds a trace of
    instructions over a state. The lemmas here state what holds across any
    trace: records are never removed and never change after creation except for
    `settled` going from false to true, every unsettled record is fully funded by
    its PDA, and settlement is effective at most once. */
module Lifecycle {
  import opened Results
  import opened Runtime
  import opened Split
  import opened PayattnEscrow

  datatype Op =
    | Create(offerId: OfferId, advertiser: nat, user: Address, publisher: Address,
             platform: Address, amount: U64, bump: U8)
    | Settle(offerId: OfferId, user: Address, publisher: Address, platform: Address)

  function Apply(s: State, op: Op): Result<State, Error> {
    match op
    case Create(k, adv, u, p, f, amount, bump) => CreateEscrow(s, k, adv, u, p, f, amount, bump)
    case Settle(k, u, p, f) => SettleImpression(s, k, u, p, f)
  }

  /** The state after submitting `op` as a transaction: its result if it
      succeeds, the unchanged state if it aborts. Either way no record is
      removed, a record changes at most by becoming settled, and the funding
      invariant is kept. */
  function Step(s: State, op: Op): (s': State)
    ensures s.escrows.Keys <= s'.escrows.Keys
    ensures forall k :: k in s.escrows ==> Evolved(s.escrows[k], s'.escrows[k])
    ensures Valid(s) ==> Valid(s')
  {
    match Apply(s, op)
    case Ok(next) => next
    case Err(_) => s
  }

  function Run(s: State, ops: seq<Op>): State
    decreases |ops|
  {
    if |ops| == 0 then s else Run(Step(s, ops[0]), ops[1..])
  }

  /** Every record sits under the offer id it was created for, its stored
      advertiser is a wallet, and, while unsettled, its PDA holds at least its
      amount. */
  predicate Valid(s: State) {
    forall k :: k in s.escrows ==>
      && s.escrows[k].offerId == k
      && s.escrows[k].advertiser.Wallet?
      && (!s.escrows[k].settled ==> Bal(s.balances, EscrowPda(k)) >= s.escrows[k].amount)
  }

  /** `r` is `e` as it may look later: every field but `settled` equal, and
      a settled record still settled. */
  predicate Evolved(e: Escrow, r: Escrow) {
    && r.(settled := e.settled) == e
    && (e.settled ==> r.settled)
  }

  lemma EmptyValid()
    ensures Valid(State(map[], map[]))
  {
  }

  lemma StepPreservesValid(s: State, op: Op)
    requires Valid(s)
    ensures Valid(Step(s, op))
  {
    match op
    case Create(k, adv, u, p, f, amount, bump) =>
      var r := CreateEscrow(s, k, adv, u, p, f, amount, bump);
      if r.Ok? {
        forall k' | k' in r.value.escrows
          ensures !r.value.escrows[k'].settled ==> Bal(r.value.balances, EscrowPda(k')) >= r.value.escrows[k'].amount
        {
          if k' != k {
            assert EscrowPda(k') != Wallet(adv);
          }
        }
      }
    case Settle(k, u, p, f) =>
      var r := SettleImpression(s, k, u, p, f);
      if r.Ok? {
        var shares := ComputeShares(s.escrows[k].amount).value;
        forall k' | k' in r.value.escrows
          ensures !r.value.escrows[k'].settled ==> Bal(r.value.balances, EscrowPda(k')) >= r.value.escrows[k'].amount
        {
          if k' != k {
            assert Bal(r.value.balances, EscrowPda(k')) ==
              PaidOut(s.balances, EscrowPda(k'), EscrowPda(k), u, p, f, shares);
          }
        }
      }
  }

  /** The funding invariant holds after any trace that starts from a valid state. */
  lemma {:induction false} RunPreservesValid(s: State, ops: seq<Op>)
    requires Valid(s)
    ensures Valid(Run(s, ops))
    decreases |ops|
  {
    if |ops| > 0 {
      StepPreservesValid(s, ops[0]);
      RunPreservesValid(Step(s, ops[0]), ops[1..]);
    }
  }

  lemma StepEvolvesRecords(s: State, op: Op)
    ensures s.escrows.Keys <= Step(s, op).escrows.Keys
    ensures forall k :: k in s.escrows ==> Evolved(s.escrows[k], Step(s, op).escrows[k])
  {
  }

  /** Records are never deleted, their fields other than `settled` never change,
      and `settled` never goes back to false, whatever instructions follow. */
  lemma {:induction false} RunEvolvesRecords(s: State, ops: seq<Op>, k: OfferId)
    requires k in s.escrows
    ensures k in Run(s, ops).escrows
    ensures Evolved(s.escrows[k], Run(s, ops).escrows[k])
    decreases |ops|
  {
    if |ops| > 0 {
      var next := Step(s, ops[0]);
      StepEvolvesRecords(s, ops[0]);
      RunEvolvesRecords(next, ops[1..], k);
    }
  }

  /** Only a successful settle of `k` can lower the balance of `k`'s PDA. */
  lemma StepKeepsPdaFunds(s: State, op: Op, k: OfferId)
    requires !(op.Settle? && op.offerId == k && Apply(s, op).Ok?)
    ensures Bal(Step(s, op).balances, EscrowPda(k)) >= Bal(s.balances, EscrowPda(k))
  {
    if op.Settle? && Apply(s, op).Ok? {
      var k' := op.offerId;
      var shares := ComputeShares(s.escrows[k'].amount).value;
      assert Bal(Step(s, op).balances, EscrowPda(k)) ==
        PaidOut(s.balances, EscrowPda(k), EscrowPda(k'), op.user, op.publisher, op.platform, shares);
    }
  }

  /** A record whose amount times 70 overflows a u64 can never be settled: it
      stays unsettled and its PDA never loses a lamport, under any trace. */
  lemma {:induction false} UnsplittableEscrowIsStuck(s: State, ops: seq<Op>, k: OfferId)
    requires k in s.escrows && !s.escrows[k].settled
    requires s.escrows[k].amount > MAX_SPLITTABLE
    ensures k in Run(s, ops).escrows && Run(s, ops).escrows[k] == s.escrows[k]
    ensures Bal(Run(s, ops).balances, EscrowPda(k)) >= Bal(s.balances, EscrowPda(k))
    decreases |ops|
  {
    if |ops| > 0 {
      var next := Step(s, ops[0]);
      StepEvolvesRecords(s, ops[0]);
      StepKeepsPdaFunds(s, ops[0], k);
      assert next.escrows[k] == s.escrows[k];
      UnsplittableEscrowIsStuck(next, ops[1..], k);
    }
  }

  /** Settlement is effective at most once: once a settle of `k` succeeds, every
      further settle of `k`, whatever accounts it names, fails with
      `AlreadySettled` and leaves the state unchanged. */
  lemma SettleAtMostOnce(s: State, k: OfferId, u: Address, p: Address, f: Address,
                         u': Address, p': Address, f': Address)
    ensures SettleImpression(s, k, u, p, f).Ok? ==>
      var s1 := SettleImpression(s, k, u, p, f).value;
      && SettleImpression(s1, k, u', p', f') == Err(AlreadySettled)
      && Step(s1, Settle(k, u', p', f')) == s1
  {
  }

  /** A second create for an offer id that already has a record fails and leaves
      the existing record and every balance as they were. */
  lemma DuplicateCreateChangesNothing(s: State, k: OfferId, adv: nat, u: Address, p: Address, f: Address,
                                      amount: U64, bump: U8)
    requires k in s.escrows
    ensures Apply(s, Create(k, adv, u, p, f, amount, bump)) == Err(AccountAlreadyInUse)
    ensures Step(s, Create(k, adv, u, p, f, amount, bump)) == s
  {
  }

  /** In a valid state the escrow PDA always covers the payout: a settle of an
      unsettled, splittable record can only fail because a payee's balance would
      overflow, never for want of funds. */
  lemma ValidSettleIsFunded(s: State, k: OfferId, u: Address, p: Address, f: Address)
    requires Valid(s)
    requires k in s.escrows && !s.escrows[k].settled && s.escrows[k].amount <= MAX_SPLITTABLE
    ensures Bal(s.balances, EscrowPda(k)) >= s.escrows[k].amount
    ensures SettleImpression(s, k, u, p, f).Err? ==>
      SettleImpression(s, k, u, p, f).error == TransferFailed(LamportOverflow)
  {
  }

  /** The payee accounts stored at creation are never consulted: two states that
      differ only in the stored user, publisher and platform of `k` settle to
      the same balances with the same outcome. */
  lemma StoredPayeesUnused(s: State, k: OfferId, u: Address, p: Address, f: Address,
                           u0: Address, p0: Address, f0: Address)
    requires k in s.escrows
    ensures var t := State(s.escrows[k := s.escrows[k].(user := u0, publisher := p0, platform := f0)], s.balances);
      && SettleImpression(s, k, u, p, f).Ok? == SettleImpression(t, k, u, p, f).Ok?
      && (SettleImpression(s, k, u, p, f).Ok? ==>
            SettleImpression(s, k, u, p, f).value.balances == SettleImpression(t, k, u, p, f).value.balances)
  {
  }

  /** With four distinct accounts involved, settlement moves lamports between
      them without creating or destroying any. */
  lemma SettleConservesLamports(s: State, k: OfferId, u: Address, p: Address, f: Address)
    requires EscrowPda(k) != u && EscrowPda(k) != p && EscrowPda(k) != f && u != p && u != f && p != f
    ensures SettleImpression(s, k, u, p, f).Ok? ==>
      var b := s.balances;
      var b' := SettleImpression(s, k, u, p, f).value.balances;
      && Bal(b', EscrowPda(k)) + Bal(b', u) + Bal(b', p) + Bal(b', f) ==
           Bal(b, EscrowPda(k)) + Bal(b, u) + Bal(b, p) + Bal(b, f)
      && Bal(b', EscrowPda(k)) == Bal(b, EscrowPda(k)) - s.escrows[k].amount
  {
    if SettleImpression(s, k, u, p, f).Err? {
      return;
    }
    var shares := ComputeShares(s.escrows[k].amount).value;
    var b' := SettleImpression(s, k, u, p, f).value.balances;
    assert Bal(b', EscrowPda(k)) == PaidOut(s.balances, EscrowPda(k), EscrowPda(k), u, p, f, shares);
    assert Bal(b', u) == PaidOut(s.balances, u, EscrowPda(k), u, p, f, shares);
    assert Bal(b', p) == PaidOut(s.balances, p, EscrowPda(k), u, p, f, shares);
    assert Bal(b', f) == PaidOut(s.balances, f, EscrowPda(k), u, p, f, shares);
  }

  /** Worked example, creation: an advertiser wallet holding 20 000 lamports
      escrows 10 000 of them for offer "ad-1". */
  lemma CreateScenario()
    ensures var r := CreateEscrow(State(map[], map[Wallet(1) := 20_000]), "ad-1", 1, Wallet(2), Wallet(3), Wallet(4), 10_000, 255);
      && r.Ok?
      && Bal(r.value.balances, Wallet(1)) == 10_000
      && Bal(r.value.balances, EscrowPda("ad-1")) == 10_000
      && Bal(r.value.balances, Wallet(2)) == 0
      && "ad-1" in r.value.escrows
      && r.value.escrows["ad-1"].amount == 10_000
      && !r.value.escrows["ad-1"].settled
  {
  }

  /** Worked example, settlement: an unsettled 10 000-lamport escrow whose PDA
      holds exactly that amount pays 7 000, 2 500 and 500 to three empty wallets
      and is left empty; a second settle is refused. */
  lemma SettleScenario(s: State, k: OfferId)
    requires k in s.escrows && s.escrows[k].amount == 10_000 && !s.escrows[k].settled
    requires Bal(s.balances, EscrowPda(k)) == 10_000
    requires Bal(s.balances, Wallet(2)) == 0 && Bal(s.balances, Wallet(3)) == 0 && Bal(s.balances, Wallet(4)) == 0
    ensures var r := SettleImpression(s, k, Wallet(2), Wallet(3), Wallet(4));
      && r.Ok?
      && Bal(r.value.balances, EscrowPda(k)) == 0
      && Bal(r.value.balances, Wallet(2)) == 7_000
      && Bal(r.value.balances, Wallet(3)) == 2_500
      && Bal(r.value.balances, Wallet(4)) == 500
      && SettleImpression(r.value, k, Wallet(2), Wallet(3), Wallet(4)) == Err(AlreadySettled)
  {
    SplitTenThousand();
    var shares := Shares(7_000, 2_500, 500);
    var pda := EscrowPda(k);
    assert CanSettle(s, k, Wallet(2), Wallet(3), Wallet(4));
    var b' := SettleImpression(s, k, Wallet(2), Wallet(3), Wallet(4)).value.balances;
    assert Bal(b', pda) == PaidOut(s.balances, pda, pda, Wallet(2), Wallet(3), Wallet(4), shares);
    assert Bal(b', Wallet(2)) == PaidOut(s.balances, Wallet(2), pda, Wallet(2), Wallet(3), Wallet(4), shares);
    assert Bal(b', Wallet(3)) == PaidOut(s.balances, Wallet(3), pda, Wallet(2), Wallet(3), Wallet(4), shares);
    assert Bal(b', Wallet(4)) == PaidOut(s.balances, Wallet(4), pda, Wallet(2), Wallet(3), Wallet(4), shares);
  }
}
