/**
 * The argument computation of the pool helpers that drive the test callee:
 * which callee method a swap goes to, which amount and price limit it
 * forwards, and how much a flash loan repays by default. The token
 * approvals and the contract calls themselves are not modelled.
 */
module PoolFunctions {
  import opened Arithmetic
  import opened Wrappers
  import opened Constants

  /**
   * A `BigNumberish` amount. A JavaScript `number` is kept apart from every
   * other form (a `BigNumber`, a decimal string, a `bigint`) because the
   * helpers compare amounts with `=== 0`, which only a `number` can satisfy.
   */
  datatype Amount = Number(value: int) | BigNumber(value: int) {

    /** `amount === 0`. */
    predicate IsNumberZero() {
      Number? && value == 0
    }
  }

  /** The token a swap takes in: the pool's `token0` or the other one. */
  datatype InputToken = Token0 | Token1

  /** A recipient: an address string or a wallet. */
  datatype Recipient = AddressString(address: string) | Wallet(walletAddress: string)

  /** `typeof to === 'string' ? to : to.address`: a string is the address itself, a wallet gives its own. */
  function ToAddress(to: Recipient): (address: string)
    ensures to.AddressString? ==> address == to.address
    ensures to.Wallet? ==> address == to.walletAddress
  {
    match to
    case AddressString(a) => a
    case Wallet(a) => a
  }

  /** The four swap methods of the test callee. */
  datatype SwapMethod = SwapExact0For1 | Swap0ForExact1 | SwapExact1For0 | Swap1ForExact0 {

    /** The token the method takes in, as its name says. */
    function Input(): InputToken {
      match this
      case SwapExact0For1 | Swap0ForExact1 => Token0
      case SwapExact1For0 | Swap1ForExact0 => Token1
    }

    /** Whether the method fixes the input amount (`Exact…For…`) rather than the output. */
    predicate ExactInput() {
      SwapExact0For1? || SwapExact1For0?
    }
  }

  /** The arguments `swap` passes to its callee after the pool address. */
  datatype SwapCall = SwapCall(callee: SwapMethod, amount: Amount, recipient: string, sqrtPriceLimitX96: int)

  /** The price limit used when the caller gives none: just inside the bound the swap moves toward. */
  function DefaultSqrtPriceLimit(input: InputToken, sqrtPriceLimitX96: Option<int>): (limit: int)
    ensures sqrtPriceLimitX96.Some? ==> limit == sqrtPriceLimitX96.value
    ensures sqrtPriceLimitX96.None? && input == Token0 ==> limit == MinSqrtRatio + 1
    ensures sqrtPriceLimitX96.None? && input == Token1 ==> limit == MaxSqrtRatio - 1
  {
    if sqrtPriceLimitX96.None? then
      if input == Token0 then MinSqrtRatio + 1 else MaxSqrtRatio - 1
    else
      sqrtPriceLimitX96.value
  }

  /** `swap`: chooses the callee method and the forwarded amount from `[amountIn, amountOut]`. */
  function Swap(input: InputToken, amountIn: Amount, amountOut: Amount, to: Recipient, sqrtPriceLimitX96: Option<int>): (call: SwapCall)
    ensures call.callee.Input() == input
    ensures call.callee.ExactInput() <==> amountOut.IsNumberZero()
    ensures call.amount == if amountOut.IsNumberZero() then amountIn else amountOut
    ensures call.recipient == ToAddress(to)
    ensures call.sqrtPriceLimitX96 == DefaultSqrtPriceLimit(input, sqrtPriceLimitX96)
  {
    var exactInput := amountOut.IsNumberZero();
    var callee :=
      match input
      case Token0 => if exactInput then SwapExact0For1 else Swap0ForExact1
      case Token1 => if exactInput then SwapExact1For0 else Swap1ForExact0;
    SwapCall(callee, if exactInput then amountIn else amountOut, ToAddress(to), DefaultSqrtPriceLimit(input, sqrtPriceLimitX96))
  }

  /** `swapExact0For1`: always the exact-input token0 method, forwarding the amount unchanged. */
  function SwapExact0For1Call(amount: Amount, to: Recipient, sqrtPriceLimitX96: Option<int>): (call: SwapCall)
    ensures call.callee == SwapExact0For1 && call.amount == amount
  {
    Swap(Token0, amount, Number(0), to, sqrtPriceLimitX96)
  }

  /**
   * `swap0ForExact1`: the exact-output token0 method, unless the amount is the
   * number 0, which `swap` takes for an exact-input call; the amount is
   * forwarded unchanged in every case.
   */
  function Swap0ForExact1Call(amount: Amount, to: Recipient, sqrtPriceLimitX96: Option<int>): (call: SwapCall)
    ensures call.callee == if amount.IsNumberZero() then SwapExact0For1 else Swap0ForExact1
    ensures call.amount == amount
  {
    Swap(Token0, Number(0), amount, to, sqrtPriceLimitX96)
  }

  /** `swapExact1For0`: always the exact-input token1 method, forwarding the amount unchanged. */
  function SwapExact1For0Call(amount: Amount, to: Recipient, sqrtPriceLimitX96: Option<int>): (call: SwapCall)
    ensures call.callee == SwapExact1For0 && call.amount == amount
  {
    Swap(Token1, amount, Number(0), to, sqrtPriceLimitX96)
  }

  /**
   * `swap1ForExact0`: the exact-output token1 method, unless the amount is the
   * number 0, which `swap` takes for an exact-input call; the amount is
   * forwarded unchanged in every case.
   */
  function Swap1ForExact0Call(amount: Amount, to: Recipient, sqrtPriceLimitX96: Option<int>): (call: SwapCall)
    ensures call.callee == if amount.IsNumberZero() then SwapExact1For0 else Swap1ForExact0
    ensures call.amount == amount
  {
    Swap(Token1, Number(0), amount, to, sqrtPriceLimitX96)
  }

  /**
   * Without an explicit limit, a swap's price limit lies strictly inside the
   * price bounds, and a `token0`-in swap (which lowers the price) gets a
   * lower limit than a `token1`-in swap.
   */
  lemma DefaultLimitInsideBounds(input: InputToken)
    ensures MinSqrtRatio < DefaultSqrtPriceLimit(input, None) < MaxSqrtRatio
    ensures input == Token0 ==> DefaultSqrtPriceLimit(input, None) < DefaultSqrtPriceLimit(Token1, None)
  {
    SqrtRatioBounds();
  }

  /** The two methods of the test callee that swap to a target price. */
  datatype PriceMethod = SwapToLowerSqrtPrice | SwapToHigherSqrtPrice

  /** The arguments `swapToSqrtPrice` passes to its callee after the pool address. */
  datatype PriceCall = PriceCall(callee: PriceMethod, targetPrice: int, recipient: string)

  /** `swapToSqrtPrice`: paying in `token0` lowers the price, paying in `token1` raises it. */
  function SwapToSqrtPrice(input: InputToken, targetPrice: int, to: Recipient): (call: PriceCall)
    ensures call.callee == SwapToLowerSqrtPrice <==> input == Token0
    ensures call.targetPrice == targetPrice && call.recipient == ToAddress(to)
  {
    PriceCall(if input == Token0 then SwapToLowerSqrtPrice else SwapToHigherSqrtPrice, targetPrice, ToAddress(to))
  }

  /** `swapToLowerPrice` and `swapToHigherPrice` reach the callee method their names promise. */
  lemma SwapToPriceHelpersDispatch(targetPrice: int, to: Recipient)
    ensures SwapToSqrtPrice(Token0, targetPrice, to).callee == SwapToLowerSqrtPrice
    ensures SwapToSqrtPrice(Token1, targetPrice, to).callee == SwapToHigherSqrtPrice
  {
  }

  /** The fee denominator: fees are in hundredths of a basis point. */
  const FeeDenominator: int := 1000000

  /**
   * The default repayment for borrowing `amount`:
   * `BigNumber.from(amount).mul(fee).add(1e6 - 1).div(1e6).add(amount)`.
   * For a non-negative amount and fee it is the amount plus the fee
   * `amount * fee / 1e6` rounded up, so a zero fee repays exactly the amount.
   */
  function DefaultRepayment(amount: int, fee: int): (pay: int)
    ensures amount >= 0 && fee >= 0 ==> pay >= amount
    ensures amount >= 0 && fee >= 0 ==> (pay - amount) * FeeDenominator >= amount * fee
    ensures amount >= 0 && fee >= 0 ==> (pay - amount - 1) * FeeDenominator < amount * fee
    ensures amount >= 0 && fee == 0 ==> pay == amount
  {
    var x := amount * fee;
    var s := TruncDiv(x + (FeeDenominator - 1), FeeDenominator);
    assert amount >= 0 && fee >= 0 ==> s == CeilDiv(x, FeeDenominator) && s >= 0 by {
      if amount >= 0 && fee >= 0 {
        MulMonotonic(0, amount, if fee > 0 then fee else 1);
        CeilDivIsLeast(x, FeeDenominator, s);
        if fee == 0 {
          CeilDivIsLeast(x, FeeDenominator, 0);
        }
      }
    }
    s + amount
  }

  /** The repayment for one token: the caller's `pay`, or the default. */
  function Repayment(amount: int, fee: int, pay: Option<int>): (r: int)
    ensures pay.Some? ==> r == pay.value
    ensures pay.None? ==> r == DefaultRepayment(amount, fee)
  {
    pay.GetOr(DefaultRepayment(amount, fee))
  }

  /** The arguments `flash` passes to its callee after the pool address. */
  datatype FlashCall = FlashCall(recipient: string, amount0: int, amount1: int, pay0: int, pay1: int)

  /** `flash`, with the pool's fee tier read beforehand and passed in as `fee`. */
  function Flash(amount0: int, amount1: int, to: Recipient, pay0: Option<int>, pay1: Option<int>, fee: int): (call: FlashCall)
    ensures call.recipient == ToAddress(to)
    ensures call.amount0 == amount0 && call.amount1 == amount1
    ensures call.pay0 == Repayment(amount0, fee, pay0)
    ensures call.pay1 == Repayment(amount1, fee, pay1)
  {
    FlashCall(ToAddress(to), amount0, amount1, Repayment(amount0, fee, pay0), Repayment(amount1, fee, pay1))
  }

  /** For a non-negative amount and fee, any whole surcharge that covers the fee is at least the default one. */
  lemma DefaultRepaymentLeast(amount: int, fee: int, surcharge: int)
    requires amount >= 0 && fee >= 0
    requires surcharge * FeeDenominator >= amount * fee
    ensures DefaultRepayment(amount, fee) - amount <= surcharge
  {
    var s := DefaultRepayment(amount, fee) - amount;
    if surcharge <= s - 1 {
      MulMonotonic(surcharge, s - 1, FeeDenominator);
    }
  }

  /**
   * Sample repayments: a fee-free loan of 1000 repays exactly 1000, a loan of
   * 1000 at the medium tier repays 1003, and any fee on a loan of 1 costs at
   * least one more unit.
   */
  lemma DefaultRepaymentExamples()
    ensures DefaultRepayment(1000, 0) == 1000
    ensures DefaultRepayment(1000, Medium.Value()) == 1003
    ensures DefaultRepayment(1, Low.Value()) == 2
  {
  }
}
