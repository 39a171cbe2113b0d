/**
 * The usable tick range of a pool with a given tick spacing, and the
 * largest liquidity a single tick may hold so that the liquidity of every
 * usable tick together still fits in a `uint128`.
 */
module Ticks {
  import opened Arithmetic
  import opened Constants

  /** The magnitude of the global tick bounds, `-887272 ..= 887272`. */
  const TickBound: int := 887272

  /**
   * `getMinTick`: `Math.ceil(-887272 / tickSpacing) * tickSpacing`, a
   * multiple of the spacing, not below -887272 and within one spacing of it.
   */
  function MinTick(tickSpacing: int): (tick: int)
    requires tickSpacing > 0
    ensures tick % tickSpacing == 0
    ensures -TickBound <= tick < -TickBound + tickSpacing
  {
    var q := CeilDiv(-TickBound, tickSpacing);
    MultipleMod(q, tickSpacing);
    q * tickSpacing
  }

  /**
   * `getMaxTick`: `Math.floor(887272 / tickSpacing) * tickSpacing`, a
   * multiple of the spacing, not above 887272 and within one spacing of it.
   */
  function MaxTick(tickSpacing: int): (tick: int)
    requires tickSpacing > 0
    ensures tick % tickSpacing == 0
    ensures TickBound - tickSpacing < tick <= TickBound
  {
    var q := FloorDiv(TickBound, tickSpacing);
    MultipleMod(q, tickSpacing);
    q * tickSpacing
  }

  /** No aligned tick at or above `-887272` lies below the lowest usable tick. */
  lemma MinTickIsLeast(tickSpacing: int, tick: int)
    requires tickSpacing > 0
    requires tick % tickSpacing == 0 && -TickBound <= tick
    ensures MinTick(tickSpacing) <= tick
  {
    var m := tick / tickSpacing;
    assert tick == m * tickSpacing;
    CeilDivIsLeast(-TickBound, tickSpacing, m);
    MulMonotonic(CeilDiv(-TickBound, tickSpacing), m, tickSpacing);
  }

  /** No aligned tick at or below `887272` lies above the highest usable tick. */
  lemma MaxTickIsGreatest(tickSpacing: int, tick: int)
    requires tickSpacing > 0
    requires tick % tickSpacing == 0 && tick <= TickBound
    ensures tick <= MaxTick(tickSpacing)
  {
    var m := tick / tickSpacing;
    assert tick == m * tickSpacing;
    FloorDivIsGreatest(TickBound, tickSpacing, m);
    MulMonotonic(m, FloorDiv(TickBound, tickSpacing), tickSpacing);
  }

  /** The usable range is symmetric around tick 0. */
  lemma MinTickIsNegatedMaxTick(tickSpacing: int)
    requires tickSpacing > 0
    ensures MinTick(tickSpacing) == -MaxTick(tickSpacing)
  {
    var q := FloorDiv(TickBound, tickSpacing);
    assert CeilDiv(-TickBound, tickSpacing) == -q;
    assert (-q) * tickSpacing == -(q * tickSpacing);
  }

  /**
   * The number of usable ticks, `(getMaxTick - getMinTick) / tickSpacing + 1`:
   * that many multiples of the spacing, starting at the lowest usable tick,
   * end exactly at the highest. The quotient in the source is a real
   * division; `TickCountExact` shows it leaves no remainder, so the integer
   * quotient is the same number.
   */
  function TickCount(tickSpacing: int): (n: int)
    requires tickSpacing > 0
    ensures n >= 1
    ensures n == 2 * FloorDiv(TickBound, tickSpacing) + 1
    ensures MinTick(tickSpacing) + (n - 1) * tickSpacing == MaxTick(tickSpacing)
  {
    var q := FloorDiv(TickBound, tickSpacing);
    MinTickIsNegatedMaxTick(tickSpacing);
    assert MaxTick(tickSpacing) - MinTick(tickSpacing) == (2 * q) * tickSpacing;
    MultipleMod(2 * q, tickSpacing);
    FloorDivIsGreatest(TickBound, tickSpacing, 0);
    (MaxTick(tickSpacing) - MinTick(tickSpacing)) / tickSpacing + 1
  }

  /** The width of the usable range is a whole number of spacings. */
  lemma TickCountExact(tickSpacing: int)
    requires tickSpacing > 0
    ensures (MaxTick(tickSpacing) - MinTick(tickSpacing)) % tickSpacing == 0
    ensures MaxTick(tickSpacing) - MinTick(tickSpacing) == (TickCount(tickSpacing) - 1) * tickSpacing
  {
    MultipleMod(TickCount(tickSpacing) - 1, tickSpacing);
  }

  /**
   * `getMaxLiquidityPerTick`: `(2^128 - 1)` floor-divided by the tick count.
   * If every usable tick held the cap, the total would fit in a `uint128`,
   * and one more unit per tick would not.
   */
  function MaxLiquidityPerTick(tickSpacing: int): (cap: int)
    requires tickSpacing > 0
    ensures cap >= 0
    ensures cap * TickCount(tickSpacing) <= MaxUint128
    ensures (cap + 1) * TickCount(tickSpacing) > MaxUint128
  {
    var n := TickCount(tickSpacing);
    MaxUint128Value();
    var c := FloorDiv(MaxUint128, n);
    assert (c + 1) * n == c * n + n;
    FloorDivIsGreatest(MaxUint128, n, 0);
    MaxUint128 / n
  }

  /**
   * An amount of liquidity per tick keeps the total over all usable ticks
   * within a `uint128` exactly when it is at most the cap.
   */
  lemma MaxLiquidityPerTickIsLargest(tickSpacing: int, liquidity: int)
    requires tickSpacing > 0
    ensures liquidity * TickCount(tickSpacing) <= MaxUint128 <==> liquidity <= MaxLiquidityPerTick(tickSpacing)
  {
    var n := TickCount(tickSpacing);
    var c := MaxLiquidityPerTick(tickSpacing);
    if liquidity <= c {
      MulMonotonic(liquidity, c, n);
    } else {
      MulMonotonic(c + 1, liquidity, n);
    }
  }

  /**
   * With spacing 1 the usable range is the global one, so the pool tests'
   * ticks -887273 and 887273 lie outside it.
   */
  lemma SpacingOneRange()
    ensures MinTick(1) == -887272 && MaxTick(1) == 887272
    ensures -887273 < MinTick(1) && MaxTick(1) < 887273
  {
  }

  /** The usable range and per-tick cap of each fee tier's spacing. */
  lemma FeeTierTickValues()
    ensures MinTick(TickSpacing(Low)) == -887270 && MaxTick(TickSpacing(Low)) == 887270
    ensures MinTick(TickSpacing(Medium)) == -887220 && MaxTick(TickSpacing(Medium)) == 887220
    ensures MinTick(TickSpacing(High)) == -887200 && MaxTick(TickSpacing(High)) == 887200
    ensures MaxLiquidityPerTick(TickSpacing(Low)) == 1917569901783203986719870431555990
    ensures MaxLiquidityPerTick(TickSpacing(Medium)) == 11505743598341114571880798222544994
    ensures MaxLiquidityPerTick(TickSpacing(High)) == 38350317471085141830651933667504588
  {
    MaxUint128Value();
  }
}
