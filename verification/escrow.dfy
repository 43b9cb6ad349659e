/** The payattn escrow program: one `Escrow` record per offer id, created by
    `create_escrow` (which locks the advertiser's lamports in the offer's PDA)
    and paid out once by `settle_impression` (70% user, 25% publisher, the rest
    to the platform).

    The program's accounts are held in `State`: the records, keyed by the offer
    id their PDA is derived from, and the lamport ledger. Each instruction is a
    pure function from the state before to either the state after or the error
    that aborts the transaction. */
module PayattnEscrow {
  import opened Results
  import opened Runtime
  import opened Split

  /** The `Escrow` account data. */
  datatype Escrow = Escrow(
    offerId: OfferId,
    advertiser: Address,
    user: Address,
    publisher: Address,
    platform: Address,
    amount: U64,
    settled: bool,
    bump: U8)

  datatype State = State(escrows: map<OfferId, Escrow>, balances: Balances)

  datatype Error =
    | AccountAlreadyInUse               // `init` on an offer id whose PDA already holds a record
    | AccountNotInitialized             // the escrow account passed to settle holds no record
    | AlreadySettled                    // EscrowError::AlreadySettled
    | ArithmeticOverflow                // `amount * 70` overflows u64 (checked arithmetic panics)
    | TransferFailed(cause: TransferError)

  /** Balance of `a` after the escrow `pda` has paid `s.user`, `s.publisher` and
      `s.platform` to `user`, `publisher` and `platform`. */
  function PaidOut(b: Balances, a: Address, pda: Address, user: Address, publisher: Address, platform: Address, s: Shares): int {
    Bal(b, a) - Share(a, pda, s.user + s.publisher + s.platform)
      + Share(a, user, s.user) + Share(a, publisher, s.publisher) + Share(a, platform, s.platform)
  }

  /** The payee-balance bound under which paying `s` out of `pda` cannot overflow
      any of the three payees. */
  predicate PayeesFit(b: Balances, pda: Address, user: Address, publisher: Address, platform: Address, s: Shares) {
    && PaidOut(b, user, pda, user, publisher, platform, s) <= U64_MAX
    && PaidOut(b, publisher, pda, user, publisher, platform, s) <= U64_MAX
    && PaidOut(b, platform, pda, user, publisher, platform, s) <= U64_MAX
  }

  /** The three transfers of `settle_impression`, in program order: user share,
      publisher share, platform share, each out of `pda`. */
  function PayShares(b: Balances, pda: Address, user: Address, publisher: Address, platform: Address, s: Shares): (r: Result<Balances, TransferError>)
    ensures r.Ok? ==> forall a :: Bal(r.value, a) == PaidOut(b, a, pda, user, publisher, platform, s)
    ensures Bal(b, pda) >= s.user + s.publisher + s.platform && PayeesFit(b, pda, user, publisher, platform, s) ==> r.Ok?
    ensures pda != user && pda != publisher && pda != platform && r.Ok? ==>
      Bal(b, pda) >= s.user + s.publisher + s.platform && PayeesFit(b, pda, user, publisher, platform, s)
    ensures r.Err? && Bal(b, pda) >= s.user + s.publisher + s.platform ==> r.error == LamportOverflow
  {
    var b1 :- Transfer(b, pda, user, s.user);
    var b2 :- Transfer(b1, pda, publisher, s.publisher);
    Transfer(b2, pda, platform, s.platform)
  }

  /** `create_escrow`: the advertiser (a signing wallet) funds a new record for
      `offerId` with `amount` lamports and names the three payees. */
  function CreateEscrow(s: State, offerId: OfferId, advertiser: nat, user: Address, publisher: Address,
                        platform: Address, amount: U64, bump: U8): (r: Result<State, Error>)
    // `init` refuses an offer id that already has a record
    ensures offerId in s.escrows ==> r == Err(AccountAlreadyInUse)
    ensures r.Ok? <==>
      && offerId !in s.escrows
      && Bal(s.balances, Wallet(advertiser)) >= amount
      && Bal(s.balances, EscrowPda(offerId)) + amount <= U64_MAX
    ensures offerId !in s.escrows && Bal(s.balances, Wallet(advertiser)) < amount ==>
      r == Err(TransferFailed(InsufficientFunds))
    // the new record holds exactly the inputs and is unsettled
    ensures r.Ok? ==> (
      && offerId in r.value.escrows
      && var e := r.value.escrows[offerId];
      && e.offerId == offerId && e.advertiser == Wallet(advertiser)
      && e.user == user && e.publisher == publisher && e.platform == platform
      && e.amount == amount && !e.settled && e.bump == bump)
    // no other record appears, disappears or changes
    ensures r.Ok? ==> r.value.escrows.Keys == s.escrows.Keys + {offerId}
    ensures r.Ok? ==> forall k :: k in s.escrows ==> r.value.escrows[k] == s.escrows[k]
    // exactly `amount` moves from the advertiser into the escrow PDA
    ensures r.Ok? ==> Bal(r.value.balances, Wallet(advertiser)) == Bal(s.balances, Wallet(advertiser)) - amount
    ensures r.Ok? ==> Bal(r.value.balances, EscrowPda(offerId)) == Bal(s.balances, EscrowPda(offerId)) + amount
    ensures r.Ok? ==> forall a :: a != Wallet(advertiser) && a != EscrowPda(offerId) ==>
      Bal(r.value.balances, a) == Bal(s.balances, a)
  {
    if offerId in s.escrows then
      Err(AccountAlreadyInUse)
    else
      // the lamports move before any field is written
      var b :- Transfer(s.balances, Wallet(advertiser), EscrowPda(offerId), amount).MapFailure(e => TransferFailed(e));
      var record := Escrow(offerId, Wallet(advertiser), user, publisher, platform, amount, false, bump);
      Ok(State(s.escrows[offerId := record], b))
  }

  /** The conditions under which `settle_impression` on `offerId` goes through:
      an unsettled record whose amount can be split, an escrow PDA holding at
      least that amount, and no payee whose balance would pass u64::MAX. */
  predicate CanSettle(s: State, offerId: OfferId, user: Address, publisher: Address, platform: Address) {
    && offerId in s.escrows
    && !s.escrows[offerId].settled
    && s.escrows[offerId].amount <= MAX_SPLITTABLE
    && var shares := ComputeShares(s.escrows[offerId].amount).value;
    && var pda := EscrowPda(offerId);
    && Bal(s.balances, pda) >= s.escrows[offerId].amount
    && PayeesFit(s.balances, pda, user, publisher, platform, shares)
  }

  /** `settle_impression`: pays the escrowed amount of `offerId` out to the three
      accounts named in the call (which are not compared with the ones stored in
      the record) and marks the record settled. */
  function SettleImpression(s: State, offerId: OfferId, user: Address, publisher: Address, platform: Address): (r: Result<State, Error>)
    ensures offerId !in s.escrows ==> r == Err(AccountNotInitialized)
    ensures offerId in s.escrows && s.escrows[offerId].settled ==> r == Err(AlreadySettled)
    ensures offerId in s.escrows && !s.escrows[offerId].settled && s.escrows[offerId].amount > MAX_SPLITTABLE ==>
      r == Err(ArithmeticOverflow)
    ensures CanSettle(s, offerId, user, publisher, platform) ==> r.Ok?
    // past the checks on the record, only a transfer can fail, and a funded escrow never runs short
    ensures r.Err? && offerId in s.escrows && !s.escrows[offerId].settled && s.escrows[offerId].amount <= MAX_SPLITTABLE ==>
      r.error.TransferFailed?
    ensures r.Err? && offerId in s.escrows && Bal(s.balances, EscrowPda(offerId)) >= s.escrows[offerId].amount ==>
      r.error != TransferFailed(InsufficientFunds)
    // when the escrow is not among the payees, the conditions are also necessary
    ensures EscrowPda(offerId) !in {user, publisher, platform} ==>
      (r.Ok? <==> CanSettle(s, offerId, user, publisher, platform))
    // a success flips `settled` and nothing else in any record
    ensures r.Ok? ==> offerId in s.escrows && !s.escrows[offerId].settled
    ensures r.Ok? ==> r.value.escrows.Keys == s.escrows.Keys
    ensures r.Ok? ==> r.value.escrows[offerId].settled
    ensures r.Ok? ==> r.value.escrows[offerId].(settled := false) == s.escrows[offerId]
    ensures r.Ok? ==> forall k :: k in s.escrows && k != offerId ==> r.value.escrows[k] == s.escrows[k]
    // the escrow pays out its whole amount, split 70/25/5 among the named payees
    ensures r.Ok? ==> (
      && s.escrows[offerId].amount <= MAX_SPLITTABLE
      && var shares := ComputeShares(s.escrows[offerId].amount).value;
      forall a :: Bal(r.value.balances, a) ==
        PaidOut(s.balances, a, EscrowPda(offerId), user, publisher, platform, shares))
  {
    if offerId !in s.escrows then
      Err(AccountNotInitialized)
    else
      var e := s.escrows[offerId];
      if e.settled then
        Err(AlreadySettled)
      else
        var shares :- ComputeShares(e.amount).MapFailure(_ => ArithmeticOverflow);
        var paid :- PayShares(s.balances, EscrowPda(offerId), user, publisher, platform, shares)
                      .MapFailure(c => TransferFailed(c));
        // the flag is written only once all three transfers have succeeded
        Ok(State(s.escrows[offerId := e.(settled := true)], paid))
  }
}
