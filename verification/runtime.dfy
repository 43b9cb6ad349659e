/** The slice of the Solana runtime the escrow program relies on: u64 lamport
    amounts, account addresses, the lamport ledger and the system program's
    `transfer` instruction, modelled as one atomic debit/credit. */
module Runtime {
  import opened Results

  const U64_MAX: nat := 0xFFFF_FFFF_FFFF_FFFF

  /** Rust `u64`. */
  type U64 = x: nat | x <= U64_MAX

  /** Rust `u8` (the PDA bump seed). */
  type U8 = x: nat | x < 256

  /** Identifier an offer's escrow is derived from (`offer_id: String`). */
  type OfferId = string

  /** An account address. A keypair wallet is named by an opaque number; the
      escrow program-derived address is named by the offer id it is derived
      from with seeds ["escrow", offer_id]. Address derivation is thereby
      injective and never collides with a wallet key. */
  datatype Address = Wallet(id: nat) | EscrowPda(offerId: OfferId)

  /** Lamport balance of every account; an account absent from the map holds 0. */
  type Balances = map<Address, U64>

  /** Failures of the system program's transfer instruction. */
  datatype TransferError =
    | InsufficientFunds   // the payer holds fewer lamports than the transfer moves
    | LamportOverflow     // crediting the payee would exceed u64::MAX

  function Bal(b: Balances, a: Address): U64 {
    if a in b then b[a] else 0
  }

  /** `x` if `a` is `who`, else 0: the contribution of one payment to `a`'s balance. */
  function Share(a: Address, who: Address, x: nat): nat {
    if a == who then x else 0
  }

  /** Moves `lamports` from `from` to `to`: the payer is debited first, then the
      payee credited, so a self-transfer leaves every balance as it was. */
  function Transfer(b: Balances, from: Address, to: Address, lamports: U64): (r: Result<Balances, TransferError>)
    ensures r.Ok? <==> Bal(b, from) >= lamports && Bal(b, to) - Share(to, from, lamports) + lamports <= U64_MAX
    ensures r.Err? && Bal(b, from) < lamports ==> r.error == InsufficientFunds
    ensures r.Ok? ==> forall a :: Bal(r.value, a) == Bal(b, a) - Share(a, from, lamports) + Share(a, to, lamports)
  {
    if Bal(b, from) < lamports then
      Err(InsufficientFunds)
    else
      var debited := b[from := Bal(b, from) - lamports];
      if Bal(debited, to) + lamports > U64_MAX then
        Err(LamportOverflow)
      else
        Ok(debited[to := Bal(debited, to) + lamports])
  }

  /** A transfer neither creates nor destroys lamports: the balances of payer and
      payee add up to the same total before and after. */
  lemma TransferConserves(b: Balances, from: Address, to: Address, lamports: U64)
    requires Transfer(b, from, to, lamports).Ok?
    ensures var b' := Transfer(b, from, to, lamports).value;
      from != to ==> Bal(b', from) + Bal(b', to) == Bal(b, from) + Bal(b, to)
    ensures var b' := Transfer(b, from, to, lamports).value;
      from == to ==> Bal(b', from) == Bal(b, from)
  {
  }
}
