/**
 * The numeric constants of the test helpers: the largest `uint128`, the
 * square-root price bounds, the fee tiers and their tick spacings.
 */
module Constants {
  import opened Arithmetic
  import opened Wrappers

  /** `2^128 - 1`, computed as the helpers compute it. */
  const MaxUint128: int := Pow2(128) - 1

  /** The square-root price (Q64.96) at the lowest tick. */
  const MinSqrtRatio: int := 4295128739

  /** The square-root price (Q64.96) just above the highest tick. */
  const MaxSqrtRatio: int := 1461446703485210103287273052203988822378723970342

  lemma MaxUint128Value()
    ensures MaxUint128 == 340282366920938463463374607431768211455
    ensures MaxUint128 + 1 == Pow2(128)
  {
    Pow2Of128();
  }

  /**
   * Both price bounds are positive `uint160` values and the lower one is
   * below the upper one.
   */
  lemma SqrtRatioBounds()
    ensures 0 < MinSqrtRatio < MaxSqrtRatio < Pow2(160)
    ensures Pow2(160) - 1 >= MaxSqrtRatio
  {
    Pow2Of160();
  }

  /**
   * The range of starting prices the pool tests expect `initialize` to
   * accept: from `MinSqrtRatio` inclusive to `MaxSqrtRatio` exclusive.
   */
  predicate AcceptedStartingPrice(sqrtPriceX96: int) {
    MinSqrtRatio <= sqrtPriceX96 < MaxSqrtRatio
  }

  /**
   * The boundary prices the pool tests try: 1, `MinSqrtRatio - 1`,
   * `MaxSqrtRatio` and `2^160 - 1` are rejected, `MinSqrtRatio` and
   * `MaxSqrtRatio - 1` are accepted.
   */
  lemma StartingPriceBoundaries()
    ensures !AcceptedStartingPrice(1)
    ensures !AcceptedStartingPrice(MinSqrtRatio - 1)
    ensures !AcceptedStartingPrice(MaxSqrtRatio)
    ensures !AcceptedStartingPrice(Pow2(160) - 1)
    ensures AcceptedStartingPrice(MinSqrtRatio)
    ensures AcceptedStartingPrice(MaxSqrtRatio - 1)
  {
    SqrtRatioBounds();
  }

  /** The enabled fee tiers, in hundredths of a basis point. */
  datatype FeeAmount = Low | Medium | High {

    /** The enum member's numeric value: a positive fee below 100% (one million hundredths of a basis point). */
    function Value(): (fee: int)
      ensures 0 < fee < 1000000
    {
      match this
      case Low => 500
      case Medium => 3000
      case High => 10000
    }
  }

  /** The numeric enum's reverse mapping, from a value back to its member. */
  function FeeAmountOf(value: int): (f: Option<FeeAmount>)
    ensures f.Some? ==> f.value.Value() == value
  {
    if value == 500 then Some(Low)
    else if value == 3000 then Some(Medium)
    else if value == 10000 then Some(High)
    else None
  }

  /** The reverse mapping finds every member from its value. */
  lemma FeeAmountRoundTrip(f: FeeAmount)
    ensures FeeAmountOf(f.Value()) == Some(f)
  {
  }

  /** Distinct members have distinct values. */
  lemma FeeAmountValueInjective(f: FeeAmount, g: FeeAmount)
    ensures f.Value() == g.Value() <==> f == g
  {
  }

  /** `TICK_SPACINGS`: the tick spacing of each fee tier. */
  function TickSpacing(f: FeeAmount): (spacing: int)
    ensures spacing > 0
  {
    match f
    case Low => 10
    case Medium => 60
    case High => 200
  }

  /** A higher fee tier always has a strictly wider tick spacing. */
  lemma TickSpacingIncreasesWithFee(f: FeeAmount, g: FeeAmount)
    ensures f.Value() < g.Value() <==> TickSpacing(f) < TickSpacing(g)
  {
  }

  /** The spacings the factory tests expect for each tier. */
  lemma TickSpacingTable()
    ensures TickSpacing(Low) == 10 && Low.Value() == 500
    ensures TickSpacing(Medium) == 60 && Medium.Value() == 3000
    ensures TickSpacing(High) == 200 && High.Value() == 10000
  {
  }
}
