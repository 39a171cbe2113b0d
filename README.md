# Atlantis V1 test helpers, modelled in Dafny

The Atlantis V1 repository tests a concentrated-liquidity pool through a
small TypeScript helper module, `test/helpers/utilities.ts`. This project
models the integer logic of that module as pure Dafny functions and proves
properties of them:

- the constants: the largest `uint128`, the square-root price bounds
  `MIN_SQRT_RATIO` and `MAX_SQRT_RATIO`, the `FeeAmount` enum and the
  `TICK_SPACINGS` table (module `Constants`);
- the usable tick range for a tick spacing (`getMinTick`, `getMaxTick`) and
  the per-tick liquidity cap `getMaxLiquidityPerTick` (module `Ticks`);
- the arguments computed by `createPoolFunctions` (module `PoolFunctions`).
  These are which test-callee method a swap goes to, which amount and which
  sqrt-price limit it forwards, and how much a flash loan repays by default.

`Arithmetic` holds the integer operations the helpers actually use:
`Math.ceil(a / b)`, `Math.floor(a / b)`, `BigNumber.div` (truncation toward
zero) and `BigNumber.pow` with base 2. `Wrappers` holds `Option`, which
models an argument that may be left `undefined`.

Modelling decisions:

- Tick spacings are positive integers. `Math.ceil(-887272 / ts)` is exact
  integer ceiling division (`CeilDiv`) and `Math.floor(887272 / ts)` is
  floor division (`FloorDiv`). Each is characterised by its ensures.
- The tick count `(max - min) / ts + 1` uses a real division in the source.
  `Ticks.TickCountExact` proves the division leaves no remainder, so integer
  division gives the same number.
- `BigNumberish` amounts are modelled as `Amount`. A JavaScript `number` is
  kept apart from the other forms (`BigNumber`, string, `bigint`), because
  `swap` tests `amountOut === 0` and only a `number` can pass that test. So
  `swap0ForExact1` and `swap1ForExact0` called with the number `0` reach the
  exact-input callee method. The forwarded value is 0 either way
  (`PoolFunctions.Swap0ForExact1Call`, `PoolFunctions.Swap1ForExact0Call`).
- `flash` reads the pool's fee with `pool.fee()`. Here the fee is a
  parameter. The default repayment uses `BigNumber.div`, which truncates
  toward zero. It is modelled as such for every integer amount. The
  ceiling-of-fee property is proved for non-negative amounts and fees.
- The input token is `Token0` or `Token1`. In the source, any contract other
  than `token0` takes the `token1` branch. The helpers only ever pass the
  two pool tokens.
- The pool contract's own source is not part of this model. The range of
  starting prices is taken from the pool tests, which pin which prices
  `initialize` accepts: `AcceptedStartingPrice` is `[MIN_SQRT_RATIO, MAX_SQRT_RATIO)`.

## Model

| member | source | states |
|---|---|---|
| Arithmetic.Pow2 | test/helpers/utilities.ts:16-17 | `BigNumber.from(2).pow(n)` as repeated doubling; every power of two is at least 1 |
| Arithmetic.Pow2Of128 | test/helpers/utilities.ts:16-18 | `2^128` equals 340282366920938463463374607431768211456 |
| Arithmetic.Pow2Of160 | test/AtlantisV1Pool.spec.ts:101 | `2^160`, whose predecessor the pool tests use as a too-high starting price, equals 1461501637330902918203684832716283019655932542976 |
| Arithmetic.FloorDiv | test/helpers/utilities.ts:14 | `Math.floor(a / b)`: the quotient `q` with `q*b <= a < q*b + b` |
| Arithmetic.FloorDivIsGreatest | test/helpers/utilities.ts:14 | every `m` with `m*b <= a` is at most the floor quotient |
| Arithmetic.CeilDiv | test/helpers/utilities.ts:13 | `Math.ceil(a / b)`: the quotient `q` with `q*b - b < a <= q*b` |
| Arithmetic.CeilDivIsLeast | test/helpers/utilities.ts:13 | every `m` with `a <= m*b` is at least the ceiling quotient |
| Arithmetic.TruncDiv | test/helpers/utilities.ts:163 | `BigNumber.div`: `q*b` lies between 0 and `a`, less than one divisor away from `a`, for either sign of `a` |
| Constants.MaxUint128Value | test/helpers/utilities.ts:21 | the constant `MaxUint128`, defined as `Pow2(128) - 1` like the source, is `340282366920938463463374607431768211455`, one below `2^128` |
| Constants.SqrtRatioBounds | test/helpers/utilities.ts:22-23 | the constants `MinSqrtRatio` and `MaxSqrtRatio` hold the source's literals, and `0 < MIN_SQRT_RATIO < MAX_SQRT_RATIO < 2^160`, so `2^160 - 1` is not below the upper bound |
| Constants.StartingPriceBoundaries | test/AtlantisV1Pool.spec.ts:95-110 | 1, `MIN - 1`, `MAX` and `2^160 - 1` lie outside the accepted starting prices; `MIN` and `MAX - 1` lie inside |
| Constants.FeeAmount.Value | test/helpers/utilities.ts:7-11 | each fee tier's enum value is positive and below one million hundredths of a basis point (100%) |
| Constants.FeeAmountOf | test/helpers/utilities.ts:7-11 | the enum's reverse mapping only returns a member whose value is the one looked up |
| Constants.FeeAmountRoundTrip | test/helpers/utilities.ts:7-11 | looking up a member's value finds that member |
| Constants.FeeAmountValueInjective | test/helpers/utilities.ts:7-11 | two members have the same value exactly when they are the same member |
| Constants.TickSpacing | test/helpers/utilities.ts:25-29 | every fee tier's tick spacing is positive |
| Constants.TickSpacingIncreasesWithFee | test/helpers/utilities.ts:25-29 | one tier's fee is lower than another's exactly when its spacing is narrower |
| Constants.TickSpacingTable | test/AtlantisV1Factory.spec.ts:38-42 | LOW=500 has spacing 10, MEDIUM=3000 has 60, HIGH=10000 has 200 |
| Ticks.MinTick | test/helpers/utilities.ts:13 | `getMinTick`: a multiple of the spacing, at least -887272 and less than `-887272 + spacing` |
| Ticks.MinTickIsLeast | test/helpers/utilities.ts:13 | no multiple of the spacing at or above -887272 is below the lowest usable tick |
| Ticks.MaxTick | test/helpers/utilities.ts:14 | `getMaxTick`: a multiple of the spacing, at most 887272 and more than `887272 - spacing` |
| Ticks.MaxTickIsGreatest | test/helpers/utilities.ts:14 | no multiple of the spacing at or below 887272 is above the highest usable tick |
| Ticks.MinTickIsNegatedMaxTick | test/helpers/utilities.ts:13-14 | the lowest usable tick is the negated highest one |
| Ticks.TickCount | test/helpers/utilities.ts:19 | the tick count is `2 * floor(887272 / spacing) + 1 >= 1`, and that many multiples of the spacing from the lowest usable tick end exactly at the highest |
| Ticks.TickCountExact | test/helpers/utilities.ts:19 | the width of the usable range is a whole number of spacings, so the source's real division is exact |
| Ticks.MaxLiquidityPerTick | test/helpers/utilities.ts:15-19 | `getMaxLiquidityPerTick`: non-negative; cap times tick count fits in `2^128 - 1`; cap plus one times tick count does not |
| Ticks.MaxLiquidityPerTickIsLargest | test/helpers/utilities.ts:15-19 | a per-tick liquidity times the tick count fits in `2^128 - 1` exactly when it is at most the cap |
| Ticks.SpacingOneRange | test/AtlantisV1Pool.spec.ts:181-188 | with spacing 1 the range is -887272 to 887272, so ticks -887273 and 887273 are outside it |
| Ticks.FeeTierTickValues | test/AtlantisV1Pool.spec.ts:80-87 | the tick range and per-tick liquidity cap of the 10, 60 and 200 spacings, as decimal values |
| PoolFunctions.DefaultSqrtPriceLimit | test/helpers/utilities.ts:113-119 | a given limit passes through unchanged; without one, `MIN_SQRT_RATIO + 1` for token0 in and `MAX_SQRT_RATIO - 1` for token1 in |
| PoolFunctions.DefaultLimitInsideBounds | test/helpers/utilities.ts:113-119 | a defaulted limit lies strictly between `MIN_SQRT_RATIO` and `MAX_SQRT_RATIO`, and token0 in gets a lower limit than token1 in |
| PoolFunctions.Swap | test/helpers/utilities.ts:96-125 | the callee method takes in the given token; it is exact-input exactly when `amountOut` is the number 0; the forwarded amount is `amountIn` then and `amountOut` otherwise; the recipient's address and the (defaulted) limit are forwarded |
| PoolFunctions.ToAddress | test/helpers/utilities.ts:122 | a string recipient is used as the address itself; a wallet contributes its own address |
| PoolFunctions.SwapExact0For1Call | test/helpers/utilities.ts:135-137 | `swapExact0For1` always reaches the callee's `swapExact0For1` and forwards the amount unchanged |
| PoolFunctions.Swap0ForExact1Call | test/helpers/utilities.ts:139-141 | `swap0ForExact1` reaches `swap0ForExact1` unless the amount is the number 0, which goes to `swapExact0For1`; the amount is forwarded unchanged in every case |
| PoolFunctions.SwapExact1For0Call | test/helpers/utilities.ts:143-145 | `swapExact1For0` always reaches the callee's `swapExact1For0` and forwards the amount unchanged |
| PoolFunctions.Swap1ForExact0Call | test/helpers/utilities.ts:147-149 | `swap1ForExact0` reaches `swap1ForExact0` unless the amount is the number 0, which goes to `swapExact1For0`; the amount is forwarded unchanged in every case |
| PoolFunctions.SwapToSqrtPrice | test/helpers/utilities.ts:82-94 | token0 in goes to `swapToLowerSqrtPrice` and token1 in to `swapToHigherSqrtPrice`; target price and recipient pass through |
| PoolFunctions.SwapToPriceHelpersDispatch | test/helpers/utilities.ts:127-133 | `swapToLowerPrice` reaches `swapToLowerSqrtPrice` and `swapToHigherPrice` reaches `swapToHigherSqrtPrice` |
| PoolFunctions.Repayment | test/helpers/utilities.ts:159-172 | an explicit `pay` is forwarded unchanged; an omitted one becomes the default repayment |
| PoolFunctions.Flash | test/helpers/utilities.ts:157-173 | both amounts and the recipient's address are forwarded; each token's repayment depends only on its own amount, its own `pay` and the fee |
| PoolFunctions.DefaultRepayment | test/helpers/utilities.ts:159-172 | for non-negative amount and fee the default repayment is at least the amount; the surcharge is `amount * fee / 1e6` rounded up; a zero fee repays exactly the amount |
| PoolFunctions.DefaultRepaymentLeast | test/helpers/utilities.ts:159-165 | for non-negative amount and fee, any whole surcharge that covers `amount * fee / 1e6` is at least the default surcharge |
| PoolFunctions.DefaultRepaymentExamples | test/helpers/utilities.ts:157-172 | a fee-free loan of 1000 repays 1000; 1000 at the 3000 tier repays 1003; 1 at the 500 tier repays 2 |

## Left out

- `getCreate2Address` (test/helpers/utilities.ts:31-40): ABI encoding and keccak256 hashing done by ethers, a foreign library.
- `mint` (test/helpers/utilities.ts:151-155): two token approvals and a call that forwards its four arguments unchanged; there is nothing to compute.
- The token approvals, `pool.fee()` and the calls into the test callee contract are chain I/O. Only the arguments they receive are modelled, and the fee is a parameter.
- The pool, factory, deployer, token and lending-pool contracts are not part of this model; their tests only observe them through chain calls.
- `test/helpers/fixtures.ts`, `test/helpers/setupMocks.ts`, the deployment scripts and the Hardhat configuration: fixtures, network detection, deployment and configuration.
- JavaScript floating point: `Math.ceil`, `Math.floor` and `/` are modelled as exact integer operations, which is what they compute for these magnitudes. Tick spacings that are zero, negative or not integers are excluded by `requires tickSpacing > 0` on an `int`.
- The `-0` that `Math.ceil` can return is not distinguished from `0`; it multiplies to the same tick.
- PoolFunctions.DefaultRepayment: the ceiling property is stated only for non-negative amounts and fees. The pool's fee is a `uint24` and loan amounts are token quantities. For a negative product, `BigNumber.div` truncates toward zero; the function computes this, but its contract says nothing about it.
- PoolFunctions.DefaultRepaymentLeast: stated only for non-negative amounts and fees. With a negative amount, truncation toward zero can leave the default surcharge above a smaller one that still covers the fee (amount -1000000 at fee 3000 gives -2999, while -3000 already covers -3000).
- Flash and swap amounts are whole numbers. `BigNumber.from` throws on a fractional JavaScript number, on a number past `2^53` and on a non-numeric string; those failures are not modelled.
