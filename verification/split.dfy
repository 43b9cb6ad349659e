/** The 70/25/5 split `settle_impression` applies to an escrowed amount. The user
    and publisher shares are truncating u64 divisions of `amount * 70` and
    `amount * 25`; the platform takes whatever is left. `amount * 70` is a u64
    product and so fails for amounts above `MAX_SPLITTABLE`. */
module Split {
  import opened Results
  import opened Runtime

  /** Largest amount whose `amount * 70` still fits in a u64. */
  const MAX_SPLITTABLE: nat := U64_MAX / 70

  datatype Shares = Shares(user: U64, publisher: U64, platform: U64)

  datatype SplitError = MultiplyOverflow

  /** True when `amount * 70` does not overflow a u64. */
  predicate Splittable(amount: U64) {
    amount * 70 <= U64_MAX
  }

  /** Computes the three payouts for `amount`, or fails where the u64 product
      `amount * 70` overflows (a checked-arithmetic panic in the program). */
  function ComputeShares(amount: U64): (r: Result<Shares, SplitError>)
    ensures r.Ok? <==> amount <= MAX_SPLITTABLE
    // user = floor(70% of amount), publisher = floor(25% of amount), characterised without division
    ensures r.Ok? ==> 100 * r.value.user <= 70 * amount < 100 * r.value.user + 100
    ensures r.Ok? ==> 100 * r.value.publisher <= 25 * amount < 100 * r.value.publisher + 100
    // no lamport lost or created
    ensures r.Ok? ==> r.value.user + r.value.publisher + r.value.platform == amount
  {
    if !Splittable(amount) then
      Err(MultiplyOverflow)
    else
      var user := (amount * 70) / 100;
      var publisher := (amount * 25) / 100;
      // the subtraction cannot underflow: user + publisher <= 95% of amount
      Ok(Shares(user, publisher, amount - user - publisher))
  }

  /** The platform share is at least the truncated 5% and exceeds it by at most 2
      lamports, the rounding the other two divisions leave behind. */
  lemma PlatformShareBounds(amount: U64)
    requires amount <= MAX_SPLITTABLE
    ensures var s := ComputeShares(amount).value;
      (amount * 5) / 100 <= s.platform <= (amount * 5) / 100 + 2
  {
    var s := ComputeShares(amount).value;
    var f := (amount * 5) / 100;
    assert 100 * f <= 5 * amount < 100 * f + 100;
    assert 100 * s.platform == 100 * amount - 100 * s.user - 100 * s.publisher;
  }

  /** The upper bound of `PlatformShareBounds` is reached: for 7 lamports the
      platform receives 2 while 5% of 7 truncates to 0. */
  lemma PlatformRoundingReachesTwo()
    ensures ComputeShares(7) == Ok(Shares(4, 1, 2))
    ensures (7 * 5) / 100 == 0
  {
  }

  /** The amount the program refuses to split is the first one past the bound. */
  lemma SplitOverflowBoundary()
    ensures ComputeShares(MAX_SPLITTABLE).Ok?
    ensures ComputeShares(MAX_SPLITTABLE + 1) == Err(MultiplyOverflow)
    ensures MAX_SPLITTABLE == 263524915338707880
  {
  }

  /** Worked example: 10 000 lamports split into 7 000 / 2 500 / 500. */
  lemma SplitTenThousand()
    ensures ComputeShares(10_000) == Ok(Shares(7_000, 2_500, 500))
  {
  }
}
