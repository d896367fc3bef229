/** Order units (`units/units.go`, `units/market_order.go`): a human decimal becomes quantums or subticks
    through a rational, a power of ten of either sign and two truncations; market orders snap to ticks. */
module Units {
  import opened Prelude
  import opened Decimal
  import opened Floors

  // ---- Conversion ---------------------------------------------------------------

  /** What `big.Rat.SetString` makes of the text; it may be in any terms here. */
  datatype Rat = Rat(num: int, den: nat)

  predicate Proper(r: Rat) { r.den > 0 }

  /** `lib.BigIntMulPow10(v, e, false)`: the division for negative e rounds down. */
  function MulPow10(v: int, e: int): int {
    if e >= 0 then v * Pow10(e) else v / Pow10(-e)
  }

  /** The exact value r * 10^e as one fraction. */
  function ExactNum(r: Rat, e: int): int { if e >= 0 then r.num * Pow10(e) else r.num }

  function ExactDen(r: Rat, e: int): (d: nat)
    requires Proper(r)
    ensures d > 0
  {
    MulMono(1, Pow10(if e < 0 then -e else 0), r.den);
    if e >= 0 then r.den else Pow10(-e) * r.den
  }

  /** q <= r * 10^e < q + 1. */
  predicate IsFloor(q: int, r: Rat, e: int)
    requires Proper(r)
  {
    q * ExactDen(r, e) <= ExactNum(r, e) < q * ExactDen(r, e) + ExactDen(r, e)
  }

  function Floor(r: Rat, e: int): int
    requires Proper(r)
  {
    ExactNum(r, e) / ExactDen(r, e)
  }

  lemma FloorIsFloor(r: Rat, e: int, q: int)
    requires Proper(r)
    ensures IsFloor(q, r, e) <==> q == Floor(r, e)
  {
    hide ExactNum, ExactDen;
    FloorBounds(ExactNum(r, e), ExactDen(r, e));
    if IsFloor(q, r, e) { FloorUnique(ExactNum(r, e), ExactDen(r, e), q); }
  }

  /** Scaling by the power of ten and then truncating by the denominator is one floor of the exact value. */
  lemma TwoStagesAreOneFloor(r: Rat, e: int)
    requires Proper(r) && r.num >= 0
    ensures QuoTrunc(MulPow10(r.num, e), r.den) == Floor(r, e) && Floor(r, e) >= 0
  {
    hide Pow10;
    if e >= 0 {
      MulMono(0, r.num, Pow10(e));
      NonNegative(r.num * Pow10(e), r.den);
    } else {
      NonNegative(r.num, Pow10(-e));
      FloorOfFloor(r.num, Pow10(-e), r.den);
      NonNegative(r.num / Pow10(-e), r.den);
    }
  }

  /** No number above one divides both terms, as `big.Rat` keeps them. */
  predicate Lowest(r: Rat) { forall d :: 2 <= d <= r.den ==> r.num % d != 0 || r.den % d != 0 }

  /** Every fraction has lowest terms, of the same value and sign. */
  lemma {:induction false} LowestExists(r: Rat) returns (t: Rat)
    requires Proper(r)
    ensures Proper(t) && Lowest(t) && SameValue(t, r) && (t.num < 0 <==> r.num < 0)
    decreases r.den
  {
    if Lowest(r) {
      t := r;
    } else {
      var d :| 2 <= d <= r.den && r.num % d == 0 && r.den % d == 0;
      var u := Divided(r, d);
      hide Lowest, SameValue;
      t := LowestExists(u);
      SameValueDivided(r, u, d, t);
    }
  }

  lemma Divided(r: Rat, d: nat) returns (u: Rat)
    requires Proper(r) && 2 <= d && r.num % d == 0 && r.den % d == 0
    ensures Proper(u) && u.den < r.den && r.num == u.num * d && r.den == u.den * d && (u.num < 0 <==> r.num < 0)
  {
    ExactQuotient(r.num, d);
    ExactQuotient(r.den, d);
    NonNegative(r.den, d);
    u := Rat(r.num / d, r.den / d);
    if u.num < 0 { CancelLtIntro(u.num, 0, d); } else { MulMono(0, u.num, d); }
    if u.den == 0 { assert r.den == 0; }
    MulMono(2, d, u.den);
  }

  lemma ExactQuotient(n: int, d: nat)
    requires d > 0 && n % d == 0
    ensures n == n / d * d
  {
  }

  lemma SameValueDivided(r: Rat, u: Rat, d: nat, t: Rat)
    requires r.num == u.num * d && r.den == u.den * d && SameValue(t, u)
    ensures SameValue(t, r)
  {
    assert t.num * (u.den * d) == (t.num * u.den) * d;
    assert (u.num * d) * t.den == (u.num * t.den) * d;
  }

  predicate SameValue(r: Rat, t: Rat) { r.num * t.den == t.num * r.den }

  /** So the terms the fraction is written in do not matter. */
  lemma TermsDoNotMatter(r: Rat, t: Rat, e: int)
    requires Proper(r) && Proper(t) && SameValue(r, t)
    ensures Floor(r, e) == Floor(t, e)
  {
    hide Pow10;
    if e >= 0 {
      var p := Pow10(e);
      assert (r.num * p) * t.den == (r.num * t.den) * p;
      assert (t.num * p) * r.den == (t.num * r.den) * p;
    } else {
      var p := Pow10(-e);
      assert r.num * (p * t.den) == (r.num * t.den) * p;
      assert t.num * (p * r.den) == (t.num * r.den) * p;
    }
    FloorOfEqual(ExactNum(r, e), ExactDen(r, e), ExactNum(t, e), ExactDen(t, e));
  }

  /** A negative value whose truncated quotient is still zero. */
  predicate Negligible(r: Rat, e: int) {
    if e >= 0 then r.num * Pow10(e) + r.den > 0 else r.num >= (1 - r.den) * Pow10(-e)
  }

  lemma NegativeQuotient(r: Rat, e: int)
    requires Proper(r) && r.num < 0
    ensures var q := QuoTrunc(MulPow10(r.num, e), r.den); q <= 0 && (q == 0 <==> Negligible(r, e))
  {
    hide Pow10, QuoTrunc;
    var a := MulPow10(r.num, e);
    if e >= 0 {
      CancelLtIntro(r.num, 0, Pow10(e));
    } else {
      var p := Pow10(-e);
      FloorBounds(r.num, p);
      if a >= 0 { MulMono(0, a, p); }
      if a >= 1 - r.den { MulMono(1 - r.den, a, p); }
      else { MulMono(a + 1, 1 - r.den, p); assert (a + 1) * p == a * p + p; }
    }
    QuoTruncNegative(a, r.den);
  }

  datatype UnitError = Unparsed | OutOfRange | Misaligned | BadSide | BadSlippage | RoundedToZero

  /** A parsed decimal in chain units: the exact floor, in uint64 range, a multiple of the step if there is
      one. Negative values are refused unless they vanish, which reads as zero. */
  function Converted(parsed: Option<Rat>, e: int, step: nat): Result<nat, UnitError>
    requires parsed.Some? ==> Proper(parsed.value)
  {
    if parsed.None? then Err(Unparsed)
    else if parsed.value.num < 0 then if Negligible(parsed.value, e) then Ok(0) else Err(OutOfRange)
    else InRange(Floor(parsed.value, e), step)
  }

  function InRange(q: int, step: nat): Result<nat, UnitError> {
    if q < 0 || q > MAX_UINT64 then Err(OutOfRange)
    else if step > 0 && q % step != 0 then Err(Misaligned)
    else Ok(q)
  }

  datatype Meta = Meta(
    atomicResolution: int, quantumConversionExponent: int, stepBaseQuantums: nat, subticksPerTick: nat)

  const QUOTE_ATOMIC_RESOLUTION := -6

  function PriceExponent(meta: Meta): int {
    -meta.quantumConversionExponent + meta.atomicResolution - QUOTE_ATOMIC_RESOLUTION
  }

  /** The straight-line code both converters share. */
  method Convert(parsed: Option<Rat>, e: int, step: nat) returns (r: Result<nat, UnitError>)
    requires parsed.Some? ==> Proper(parsed.value)
    ensures r == Converted(parsed, e, step)
  {
    hide Pow10, Negligible, Floor, MulPow10, QuoTrunc;
    if parsed.None? { return Err(Unparsed); }
    var rat := parsed.value;
    var result := MulPow10(rat.num, e);
    result := QuoTrunc(result, rat.den);
    if rat.num < 0 { NegativeQuotient(rat, e); } else { TwoStagesAreOneFloor(rat, e); }
    if result < 0 || result > MAX_UINT64 { return Err(OutOfRange); }
    if step > 0 && result % step != 0 {
      assert rat.num >= 0 by { if rat.num < 0 { FloorUnique(0, step, 0); } }
      return Err(Misaligned);
    }
    r := Ok(result);
  }

  method SizeToQuantums(size: Option<Rat>, meta: Meta) returns (r: Result<nat, UnitError>)
    requires size.Some? ==> Proper(size.value)
    ensures r == Converted(size, -meta.atomicResolution, meta.stepBaseQuantums)
  {
    r := Convert(size, -meta.atomicResolution, meta.stepBaseQuantums);
  }

  method PriceToSubticks(price: Option<Rat>, meta: Meta) returns (r: Result<nat, UnitError>)
    requires price.Some? ==> Proper(price.value)
    ensures r == Converted(price, PriceExponent(meta), meta.subticksPerTick)
  {
    r := Convert(price, PriceExponent(meta), meta.subticksPerTick);
  }

  /** Accepted means: q <= exact < q + 1, in range and aligned; and every such q is accepted. Residue below one
      unit is dropped before the alignment test, so alignment speaks about the floor only. */
  lemma AcceptedIff(x: Rat, e: int, step: nat, q: nat)
    requires Proper(x) && x.num >= 0
    ensures Converted(Some(x), e, step) == Ok(q) <==>
            IsFloor(q, x, e) && q <= MAX_UINT64 && (step > 0 ==> q % step == 0)
  {
    hide IsFloor, Floor;
    FloorIsFloor(x, e, q);
    TwoStagesAreOneFloor(x, e);
  }

  /** An accepted conversion is exact if and only if the scaled value is whole; otherwise the residue is dropped
      without an error, as one and a half units with a step of one show. */
  lemma ExactIff(x: Rat, e: int, step: nat, q: nat)
    requires Proper(x) && x.num >= 0 && Converted(Some(x), e, step) == Ok(q)
    ensures q * ExactDen(x, e) == ExactNum(x, e) <==> ExactNum(x, e) % ExactDen(x, e) == 0
    ensures Converted(Some(Rat(3, 2)), 0, 1) == Ok(1)
  {
    hide ExactNum, ExactDen;
    FloorBounds(ExactNum(x, e), ExactDen(x, e));
    assert ExactNum(x, e) / ExactDen(x, e) * ExactDen(x, e) + ExactNum(x, e) % ExactDen(x, e) == ExactNum(x, e);
    OneAndAHalf();
  }

  lemma OneAndAHalf()
    ensures Converted(Some(Rat(3, 2)), 0, 1) == Ok(1)
  {
    assert Pow10(0) == 1;
    FloorUnique(3, 2, 1);
  }

  // ---- Market orders ---------------------------------------------------------------

  datatype Side = Buy | Sell | OtherSide

  /** Oracle price times (10000 +- bps) / 10000. */
  function Worst(side: Side, oracle: Rat, bps: nat): (w: Rat)
    requires Proper(oracle)
    ensures Proper(w)
  {
    Rat(oracle.num * (if side.Buy? then 10_000 + bps else 10_000 - bps), oracle.den * 10_000)
  }

  function SnapDown(f: nat, tick: nat): nat { if tick == 0 then f else f / tick * tick }

  /** The next multiple, before uint64 wraps. */
  function SnapUp(f: nat, tick: nat): nat {
    if tick == 0 || f % tick == 0 then f else f + (tick - f % tick)
  }

  function Snapped(side: Side, f: int, tick: nat): Result<nat, UnitError> {
    if f < 0 || f > MAX_UINT64 then Err(OutOfRange)
    else
      var s := if side.Buy? then SnapDown(f, tick) else SnapUp(f, tick) % (MAX_UINT64 + 1);
      if s == 0 then Err(RoundedToZero) else Ok(s)
  }

  /** The result for a non-negative oracle price. */
  function Aggressive(side: Side, oracle: Rat, bps: nat, meta: Meta): Result<nat, UnitError>
    requires Proper(oracle) && !side.OtherSide?
  {
    if side.Sell? && bps >= 10_000 then Err(BadSlippage)
    else Snapped(side, Floor(Worst(side, oracle, bps), PriceExponent(meta)), meta.subticksPerTick)
  }

  /** `AggressiveSubticks`. `big.Rat` reduces its product to `worst`. For a price that is not negative any terms give
      the same result; a negative one is refused, as too small when its quotient in those terms vanishes. */
  method AggressiveSubticks(side: Side, oraclePx: Option<Rat>, bps: nat, meta: Meta)
    returns (r: Result<nat, UnitError>, ghost worst: Rat)
    requires oraclePx.Some? ==> Proper(oraclePx.value)
    requires meta.subticksPerTick <= MAX_UINT64
    ensures side.OtherSide? ==> r == Err(BadSide)
    ensures !side.OtherSide? && oraclePx.None? ==> r == Err(Unparsed)
    ensures !side.OtherSide? && oraclePx.Some? && oraclePx.value.num >= 0 ==>
            r == Aggressive(side, oraclePx.value, bps, meta)
    ensures !side.OtherSide? && oraclePx.Some? && side.Sell? && bps >= 10_000 ==> r == Err(BadSlippage)
    ensures !side.OtherSide? && oraclePx.Some? && oraclePx.value.num < 0 && !(side.Sell? && bps >= 10_000) ==>
              && Proper(worst) && Lowest(worst) && SameValue(worst, Worst(side, oraclePx.value, bps))
              && r == Err(if Negligible(worst, PriceExponent(meta)) then RoundedToZero else OutOfRange)
  {
    worst := Rat(0, 1);
    hide Floor, SnapDown, SnapUp, MulPow10, QuoTrunc, Negligible, Lowest;
    if side != Buy && side != Sell { return Err(BadSide), worst; }
    if oraclePx.None? { return Err(Unparsed), worst; }
    var rat := oraclePx.value;
    if side == Sell && bps >= 10_000 { return Err(BadSlippage), worst; }
    var exact := Worst(side, rat, bps);
    ghost var factor := if side.Buy? then 10_000 + bps else 10_000 - bps;
    ghost var lowest := LowestExists(exact);
    var reduced: Rat :|
      && reduced.den > 0 && Lowest(reduced) && SameValue(reduced, exact)
      && (reduced.num < 0 <==> exact.num < 0);
    worst := reduced;
    var num := MulPow10(reduced.num, PriceExponent(meta));
    num := QuoTrunc(num, reduced.den);
    if rat.num >= 0 {
      MulMono(0, rat.num, factor);
      TwoStagesAreOneFloor(worst, PriceExponent(meta));
      TermsDoNotMatter(worst, exact, PriceExponent(meta));
    } else {
      CancelLtIntro(rat.num, 0, factor);
      NegativeQuotient(worst, PriceExponent(meta));
    }
    if num < 0 || num > MAX_UINT64 { return Err(OutOfRange), worst; }
    var subticks := num;
    if meta.subticksPerTick > 0 {
      var tick := meta.subticksPerTick;
      if side == Buy {
        SnapDownIs(num, tick);
        subticks := subticks / tick * tick;
      } else {
        SnapUpIs(num, tick);
        var rem := subticks % tick;
        if rem != 0 { subticks := (subticks + (tick - rem)) % (MAX_UINT64 + 1); }
      }
      if num == 0 { SnapZero(tick); }
    } else {
      NoTick(num);
    }
    if subticks == 0 { return Err(RoundedToZero), worst; }
    r := Ok(subticks);
  }

  lemma NoTick(f: nat)
    ensures SnapDown(f, 0) == f && SnapUp(f, 0) == f
  {
  }

  lemma SnapZero(tick: nat)
    requires tick > 0
    ensures 0 / tick * tick == 0 && 0 % tick == 0
  {
    FloorUnique(0, tick, 0);
  }

  lemma SnapDownIs(f: nat, tick: nat)
    requires tick > 0
    ensures SnapDown(f, tick) == f / tick * tick
  {
  }

  lemma SnapUpIs(f: nat, tick: nat)
    requires tick > 0
    ensures SnapUp(f, tick) == if f % tick == 0 then f else f + (tick - f % tick)
  {
  }

  predicate Multiple(s: int, tick: nat) { tick == 0 || s % tick == 0 }

  lemma MultipleOf(k: int, tick: nat)
    requires tick > 0
    ensures k * tick / tick == k && k * tick % tick == 0
  {
    FloorUnique(k * tick, tick, k);
  }

  /** SnapDown is the greatest multiple of the tick not above f, SnapUp the least not below. */
  lemma SnapExtremal(f: nat, tick: nat, m: int)
    requires Multiple(m, tick)
    ensures Multiple(SnapDown(f, tick), tick) && SnapDown(f, tick) <= f && (m <= f ==> m <= SnapDown(f, tick))
    ensures Multiple(SnapUp(f, tick), tick) && f <= SnapUp(f, tick) && (f <= m ==> SnapUp(f, tick) <= m)
  {
    if tick > 0 {
      var q, j := f / tick, m / tick;
      FloorBounds(f, tick);
      assert m == j * tick;
      MultipleOf(q, tick);
      MultipleOf(q + 1, tick);
      assert (q + 1) * tick == q * tick + tick;
      assert SnapUp(f, tick) == if f % tick == 0 then q * tick else (q + 1) * tick;
      if m <= f { CancelLt(j, q + 1, tick); MulMono(j, q, tick); }
      if f <= m {
        if f % tick == 0 { CancelLe(q, j, tick); }
        else { CancelLt(q, j, tick); MulMono(q + 1, j, tick); }
      }
    }
  }

  /** An accepted BUY is the greatest tick multiple not above the exact worst price. */
  lemma BuyIsGreatest(oracle: Rat, bps: nat, meta: Meta, s: nat, m: int)
    requires Proper(oracle) && oracle.num >= 0 && Aggressive(Buy, oracle, bps, meta) == Ok(s)
    requires Multiple(m, meta.subticksPerTick)
    ensures var w, e := Worst(Buy, oracle, bps), PriceExponent(meta);
            && Multiple(s, meta.subticksPerTick)
            && s * ExactDen(w, e) <= ExactNum(w, e)
            && (m * ExactDen(w, e) <= ExactNum(w, e) ==> m <= s)
  {
    hide SnapDown, Multiple, ExactNum, ExactDen;
    var w, e := Worst(Buy, oracle, bps), PriceExponent(meta);
    var f := Floor(w, e);
    SnapExtremal(f, meta.subticksPerTick, m);
    FloorBounds(ExactNum(w, e), ExactDen(w, e));
    MulMono(s, f, ExactDen(w, e));
    if m * ExactDen(w, e) <= ExactNum(w, e) {
      assert (f + 1) * ExactDen(w, e) == f * ExactDen(w, e) + ExactDen(w, e);
      CancelLt(m, f + 1, ExactDen(w, e));
    }
  }

  /** Whether the upward snap stays inside uint64. */
  predicate FitsUp(f: nat, tick: nat) { SnapUp(f, tick) <= MAX_UINT64 }

  /** s is the least tick multiple not below the floor of the exact price n / d; so it lies less than one subtick
      under the exact price, and under it at all exactly when the floor is itself a multiple and the price not whole. */
  ghost predicate LeastAbove(s: int, n: int, d: nat, tick: nat)
    requires d > 0
  {
    && Multiple(s, tick) && n / d <= s && (forall m: int :: Multiple(m, tick) && n / d <= m ==> s <= m)
    && n < s * d + d
    && (s * d < n <==> Multiple(n / d, tick) && n / d * d != n)
  }

  lemma SnapUpIsLeast(n: int, d: nat, tick: nat)
    requires d > 0 && n >= 0
    ensures n / d >= 0 && LeastAbove(SnapUp(n / d, tick), n, d, tick)
  {
    hide SnapUp, Multiple;
    NonNegative(n, d);
    var f := n / d;
    var s := SnapUp(f, tick);
    ZeroMultiple(tick);
    SnapExtremal(f, tick, 0);
    forall m: int | Multiple(m, tick) && f <= m ensures s <= m { SnapExtremal(f, tick, m); }
    SnapUpFixed(f, tick);
    FloorBounds(n, d);
    MulMono(f, s, d);
    if f < s { MulMono(f + 1, s, d); assert (f + 1) * d == f * d + d; }
  }

  /** An accepted SELL is the least tick multiple not below the floor of the worst price if and only if the snapped
      value fits uint64. Beyond that the addition wraps, and the result is below one tick. */
  lemma SellIsLeast(oracle: Rat, bps: nat, meta: Meta, s: nat)
    requires Proper(oracle) && oracle.num >= 0 && Aggressive(Sell, oracle, bps, meta) == Ok(s)
    requires meta.subticksPerTick <= 0xFFFF_FFFF
    ensures var w, e, tick := Worst(Sell, oracle, bps), PriceExponent(meta), meta.subticksPerTick;
            && (LeastAbove(s, ExactNum(w, e), ExactDen(w, e), tick) <==> FitsUp(Floor(w, e), tick))
            && (!FitsUp(Floor(w, e), tick) ==> s < tick)
  {
    hide ExactNum, ExactDen, LeastAbove, Worst, SnapUp, Snapped, PriceExponent;
    var w, e, tick := Worst(Sell, oracle, bps), PriceExponent(meta), meta.subticksPerTick;
    SellExactNum(oracle, bps, e);
    SellValue(oracle, bps, meta, s);
    LeastIff(s, ExactNum(w, e), ExactDen(w, e), tick);
  }

  lemma LeastIff(s: int, n: int, d: nat, tick: nat)
    requires d > 0 && n >= 0 && n / d >= 0
    requires FitsUp(n / d, tick) ==> s == SnapUp(n / d, tick)
    requires !FitsUp(n / d, tick) ==> s < tick && s < n / d
    ensures LeastAbove(s, n, d, tick) <==> FitsUp(n / d, tick)
  {
    hide LeastAbove, SnapUp, FitsUp;
    SnapUpIsLeast(n, d, tick);
    if LeastAbove(s, n, d, tick) { LeastIsAbove(s, n, d, tick); }
  }

  lemma LeastIsAbove(s: int, n: int, d: nat, tick: nat)
    requires d > 0 && LeastAbove(s, n, d, tick)
    ensures n / d <= s
  {
  }

  lemma SellExactNum(oracle: Rat, bps: nat, e: int)
    requires Proper(oracle) && oracle.num >= 0 && bps < 10_000
    ensures ExactNum(Worst(Sell, oracle, bps), e) >= 0
  {
    hide Pow10;
    MulMono(0, 10_000 - bps, oracle.num);
    if e >= 0 { MulMono(0, Worst(Sell, oracle, bps).num, Pow10(e)); }
  }

  lemma SnapUpFixed(f: nat, tick: nat)
    ensures SnapUp(f, tick) == f <==> Multiple(f, tick)
  {
  }

  /** Beyond uint64 the addition wraps. A SELL that is accepted is at or above the floor price exactly when the
      snapped value fits; otherwise it is below one tick. */
  lemma SellWrapsIff(oracle: Rat, bps: nat, meta: Meta, s: nat)
    requires Proper(oracle) && oracle.num >= 0 && Aggressive(Sell, oracle, bps, meta) == Ok(s)
    requires meta.subticksPerTick <= 0xFFFF_FFFF
    ensures var f := Floor(Worst(Sell, oracle, bps), PriceExponent(meta));
            && (f <= s <==> FitsUp(f, meta.subticksPerTick))
            && (!FitsUp(f, meta.subticksPerTick) ==> s < meta.subticksPerTick)
  {
    hide Floor;
    var f := Floor(Worst(Sell, oracle, bps), PriceExponent(meta));
    SnapExtremal(f, meta.subticksPerTick, 0);
  }

  /** A price near the top of the range sells at 384 subticks instead of more than 2^64 - 1. */
  lemma SellCanWrap()
    ensures var meta := Meta(-6, 0, 0, 1_000);
            Aggressive(Sell, Rat(MAX_UINT64, 1), 0, meta) == Ok(384)
  {
    var w := Worst(Sell, Rat(MAX_UINT64, 1), 0);
    assert Pow10(0) == 1;
    assert Floor(w, 0) == MAX_UINT64;
  }

  /** Past the wrap more slippage can raise a SELL: one basis point takes this one from 384 subticks to almost the
      whole price. */
  lemma SellCanRise() returns (t: nat)
    ensures var meta := Meta(-6, 0, 0, 1_000);
            && Aggressive(Sell, Rat(MAX_UINT64, 1), 0, meta) == Ok(384)
            && Aggressive(Sell, Rat(MAX_UINT64, 1), 1, meta) == Ok(t) && t > 384
  {
    SellCanWrap();
    var w := Worst(Sell, Rat(MAX_UINT64, 1), 1);
    var f := MAX_UINT64 * 9_999 / 10_000;
    assert Pow10(0) == 1;
    assert Floor(w, 0) == f;
    SnapUpNear(f, 1_000);
    t := SnapUp(f, 1_000);
  }

  // ---- Slippage ----------------------------------------------------------------------

  lemma WorstMono(a: Side, b: Side, oracle: Rat, x: nat, y: nat, e: int)
    requires Proper(oracle) && oracle.num >= 0 && (a.Sell? ==> x <= 10_000)
    requires (if a.Buy? then 10_000 + x else 10_000 - x) <= (if b.Buy? then 10_000 + y else 10_000 - y)
    ensures Floor(Worst(a, oracle, x), e) <= Floor(Worst(b, oracle, y), e)
  {
    hide Pow10;
    var v, w := Worst(a, oracle, x), Worst(b, oracle, y);
    MulMono(if a.Buy? then 10_000 + x else 10_000 - x, if b.Buy? then 10_000 + y else 10_000 - y, oracle.num);
    assert v.num <= w.num;
    if e >= 0 { MulMono(v.num, w.num, Pow10(e)); }
    FloorMono(ExactNum(v, e), ExactNum(w, e), ExactDen(v, e));
  }

  lemma SnapMono(f: nat, g: nat, tick: nat)
    requires f <= g
    ensures SnapDown(f, tick) <= SnapDown(g, tick) && SnapUp(f, tick) <= SnapUp(g, tick)
    ensures SnapUp(f, tick) <= SnapDown(g, tick) + tick
  {
    SnapExtremal(f, tick, SnapDown(g, tick) + tick) by { NextMultiple(g, tick); }
    NextMultiple(g, tick);
    SnapExtremal(g, tick, 0) by { ZeroMultiple(tick); }
    SnapExtremal(f, tick, 0) by { ZeroMultiple(tick); }
    SnapExtremal(g, tick, SnapDown(f, tick));
    SnapExtremal(f, tick, SnapUp(g, tick));
    if tick > 0 { FloorBounds(g, tick); }
  }

  lemma ZeroMultiple(tick: nat)
    ensures Multiple(0, tick)
  {
    if tick > 0 { MultipleOf(0, tick); }
  }

  lemma NextMultiple(g: nat, tick: nat)
    ensures Multiple(SnapDown(g, tick) + tick, tick)
  {
    if tick > 0 {
      MultipleOf(g / tick + 1, tick);
      assert (g / tick + 1) * tick == g / tick * tick + tick;
    }
  }

  /** More slippage never lowers an accepted BUY. */
  lemma BuyRisesWithSlippage(oracle: Rat, x: nat, y: nat, meta: Meta, s: nat, t: nat)
    requires Proper(oracle) && oracle.num >= 0 && x <= y
    requires Aggressive(Buy, oracle, x, meta) == Ok(s) && Aggressive(Buy, oracle, y, meta) == Ok(t)
    ensures s <= t
  {
    hide Floor, SnapDown, Worst;
    WorstMono(Buy, Buy, oracle, x, y, PriceExponent(meta));
    SnapMono(Floor(Worst(Buy, oracle, x), PriceExponent(meta)), Floor(Worst(Buy, oracle, y), PriceExponent(meta)),
             meta.subticksPerTick);
  }

  /** An accepted SELL before and after the wrap. */
  lemma SellValue(oracle: Rat, bps: nat, meta: Meta, s: nat)
    requires Proper(oracle) && oracle.num >= 0 && Aggressive(Sell, oracle, bps, meta) == Ok(s)
    requires meta.subticksPerTick <= 0xFFFF_FFFF
    ensures var f, tick := Floor(Worst(Sell, oracle, bps), PriceExponent(meta)), meta.subticksPerTick;
            && f >= 0
            && (FitsUp(f, tick) ==> s == SnapUp(f, tick) && s >= tick)
            && (!FitsUp(f, tick) ==> s == SnapUp(f, tick) - (MAX_UINT64 + 1) && s < tick && s < f)
  {
    hide Floor, SnapUp, Multiple;
    var f, tick := Floor(Worst(Sell, oracle, bps), PriceExponent(meta)), meta.subticksPerTick;
    SellWrapsIff(oracle, bps, meta, s);
    SnapUpNear(f, tick);
    if FitsUp(f, tick) && tick > 0 {
      ZeroMultiple(tick);
      SnapExtremal(f, tick, 0);
      PositiveMultiple(s, tick);
    }
  }

  lemma SnapUpNear(f: nat, tick: nat)
    ensures f <= SnapUp(f, tick) <= f + tick
  {
  }

  lemma PositiveMultiple(m: nat, tick: nat)
    requires m > 0 && tick > 0 && Multiple(m, tick)
    ensures m >= tick
  {
    if m < tick { FloorUnique(m, tick, 0); }
  }

  /** More slippage does not raise an accepted SELL, if and only if the smaller slippage's price fits uint64 or the
      larger one's does not fit either. */
  lemma SellFallsWithSlippage(oracle: Rat, x: nat, y: nat, meta: Meta, s: nat, t: nat)
    requires Proper(oracle) && oracle.num >= 0 && x <= y && meta.subticksPerTick <= 0xFFFF_FFFF
    requires Aggressive(Sell, oracle, x, meta) == Ok(s) && Aggressive(Sell, oracle, y, meta) == Ok(t)
    ensures var e, tick := PriceExponent(meta), meta.subticksPerTick;
            t <= s <==>
            FitsUp(Floor(Worst(Sell, oracle, x), e), tick) || !FitsUp(Floor(Worst(Sell, oracle, y), e), tick)
  {
    SellValue(oracle, x, meta, s);
    SellValue(oracle, y, meta, t);
    hide Floor, SnapUp, Worst, Snapped;
    WorstMono(Sell, Sell, oracle, y, x, PriceExponent(meta));
    SnapMono(Floor(Worst(Sell, oracle, y), PriceExponent(meta)), Floor(Worst(Sell, oracle, x), PriceExponent(meta)),
             meta.subticksPerTick);
  }

  /** At one oracle price a SELL is at most one tick above any BUY. */
  lemma SellMeetsBuy(oracle: Rat, x: nat, y: nat, meta: Meta, s: nat, t: nat)
    requires Proper(oracle) && oracle.num >= 0
    requires Aggressive(Sell, oracle, x, meta) == Ok(s) && Aggressive(Buy, oracle, y, meta) == Ok(t)
    requires meta.subticksPerTick <= 0xFFFF_FFFF
    ensures s <= t + meta.subticksPerTick
  {
    SellValue(oracle, x, meta, s);
    hide Floor, SnapUp, SnapDown, Worst;
    WorstMono(Sell, Buy, oracle, x, y, PriceExponent(meta));
    SnapMono(Floor(Worst(Sell, oracle, x), PriceExponent(meta)), Floor(Worst(Buy, oracle, y), PriceExponent(meta)),
             meta.subticksPerTick);
  }

  /** Without slippage both sides equal the plain conversion, whenever that accepts a non-zero price. */
  lemma NoSlippageIsPlainPrice(oracle: Rat, meta: Meta, q: nat)
    requires Proper(oracle) && oracle.num >= 0 && q > 0
    requires Converted(Some(oracle), PriceExponent(meta), meta.subticksPerTick) == Ok(q)
    ensures Aggressive(Buy, oracle, 0, meta) == Ok(q) && Aggressive(Sell, oracle, 0, meta) == Ok(q)
  {
    hide Floor;
    assert oracle.num * 10_000 * oracle.den == oracle.num * (oracle.den * 10_000);
    TermsDoNotMatter(oracle, Worst(Buy, oracle, 0), PriceExponent(meta));
    TermsDoNotMatter(oracle, Worst(Sell, oracle, 0), PriceExponent(meta));
    if meta.subticksPerTick > 0 { FloorBounds(q, meta.subticksPerTick); }
  }

  // ---- What the units are worth -------------------------------------------------------
  //
  // A power of ten with any exponent is the fraction Up(e) / Down(e).

  function Up(e: int): (p: nat)
    ensures p > 0
  {
    if e > 0 then Pow10(e) else 1
  }

  function Down(e: int): (p: nat)
    ensures p > 0
  {
    Up(-e)
  }

  lemma {:induction false} Pow10Add(a: nat, b: nat)
    ensures Pow10(a + b) == Pow10(a) * Pow10(b)
  {
    if a > 0 {
      Pow10Add(a - 1, b);
      assert Pow10(a) * Pow10(b) == 10 * (Pow10(a - 1) * Pow10(b));
    }
  }

  /** 10^(a+b) == 10^a * 10^b for exponents of any sign. */
  lemma TenAdds(a: int, b: int)
    ensures Up(a + b) * (Down(a) * Down(b)) == Down(a + b) * (Up(a) * Up(b))
  {
    hide Pow10;
    PowZero();
    if a >= 0 && b >= 0 {
      Pow10Add(a, b);
    } else if a < 0 && b < 0 {
      Pow10Add(-a, -b);
    } else if a >= 0 {
      MixedSigns(a, -b);
    } else {
      MixedSigns(b, -a);
    }
  }

  lemma PowZero()
    ensures Pow10(0) == 1
  {
  }

  lemma MixedSigns(a: nat, b: nat)
    ensures Up(a - b) * Pow10(b) == Down(a - b) * Pow10(a)
  {
    hide Pow10;
    PowZero();
    if a >= b { Pow10Add(a - b, b); } else { Pow10Add(b - a, a); }
  }

  lemma FloorIsFraction(x: Rat, e: int, q: int)
    requires Proper(x) && q == Floor(x, e)
    ensures q * x.den * Down(e) <= x.num * Up(e) < (q + 1) * x.den * Down(e)
  {
    hide Pow10;
    PowZero();
    FloorBounds(ExactNum(x, e), ExactDen(x, e));
    var d := ExactDen(x, e);
    assert d == x.den * Down(e) && ExactNum(x, e) == x.num * Up(e);
    assert q * d + d == (q + 1) * d;
    Associate(q, x.den, Down(e));
    Associate(q + 1, x.den, Down(e));
  }

  lemma Associate(a: int, b: int, c: int)
    ensures a * (b * c) == a * b * c
  {
  }

  /** q <= size * 10^-atomicResolution < q + 1: an accepted size is the number of quantums, residue dropped. */
  lemma SizeWorth(size: Rat, meta: Meta, q: nat)
    requires Proper(size) && size.num >= 0
    requires Converted(Some(size), -meta.atomicResolution, meta.stepBaseQuantums) == Ok(q)
    ensures q * size.den * Up(meta.atomicResolution) <= size.num * Down(meta.atomicResolution)
            < (q + 1) * size.den * Up(meta.atomicResolution)
  {
    hide Floor, Up;
    FloorIsFraction(size, -meta.atomicResolution, q);
  }

  /** The quote quantums one whole unit of base currency is worth at one subtick, as a fraction: what a subtick means.
      A base unit is 10^-atomicResolution quantums, and a quantum at one subtick is 10^quantumConversionExponent. */
  function SubtickUp(meta: Meta): (p: nat)
    ensures p > 0
  {
    MulMono(1, Up(meta.quantumConversionExponent), Down(meta.atomicResolution));
    Up(meta.quantumConversionExponent) * Down(meta.atomicResolution)
  }

  function SubtickDown(meta: Meta): (p: nat)
    ensures p > 0
  {
    MulMono(1, Down(meta.quantumConversionExponent), Up(meta.atomicResolution));
    Down(meta.quantumConversionExponent) * Up(meta.atomicResolution)
  }

  /** Price scaling, without naming the exponent: 10^e times a subtick's worth is a quote unit of 10^6 quantums. */
  lemma ExponentIsRight(meta: Meta)
    ensures var e := PriceExponent(meta); Up(e) * SubtickUp(meta) == Down(e) * (1_000_000 * SubtickDown(meta))
  {
    hide Up, Pow10;
    var a, c, e := meta.atomicResolution, meta.quantumConversionExponent, PriceExponent(meta);
    assert Up(6) == 1_000_000 && Down(6) == 1 by { Million(); }
    TenAdds(a - c, 6);
    TenAdds(a, -c);
    var f := a - c;
    assert e == f + 6 && -(-c) == c;
    // Up(e) * Down(f) == Down(e) * Up(f) * 10^6 and Up(f) * Down(a) * Up(c) == Down(f) * Up(a) * Down(c)
    assert Up(e) * Down(f) == Down(e) * (Up(f) * 1_000_000);
    assert Up(f) * (Down(a) * Up(c)) == Down(f) * (Up(a) * Down(c));
    Compose(Up(e), Down(e), Up(f), Down(f), Up(c) * Down(a), Down(c) * Up(a));
  }

  lemma Million()
    ensures Up(6) == 1_000_000 && Down(6) == 1
  {
    Pow10Six();
  }

  lemma Compose(ue: nat, de: nat, uf: nat, df: nat, u: nat, d: nat)
    requires uf > 0 && df > 0 && ue * df == de * (uf * 1_000_000) && uf * u == df * d
    ensures ue * u == de * (1_000_000 * d)
  {
    // multiply the first by u, replace uf * u, and cancel df
    assert (ue * u) * df == (ue * df) * u == de * (uf * 1_000_000) * u;
    assert de * (uf * 1_000_000) * u == de * 1_000_000 * (uf * u) == de * 1_000_000 * (df * d);
    assert de * 1_000_000 * (df * d) == (de * (1_000_000 * d)) * df;
    CancelLe(ue * u, de * (1_000_000 * d), df);
    CancelLe(de * (1_000_000 * d), ue * u, df);
  }

  /** A floor at the price exponent, in quote quantums: t subticks are worth at most the price, t + 1 more. */
  lemma FloorWorth(x: Rat, meta: Meta, t: int)
    requires Proper(x) && t == Floor(x, PriceExponent(meta))
    ensures t * x.den * SubtickUp(meta) <= x.num * 1_000_000 * SubtickDown(meta) < (t + 1) * x.den * SubtickUp(meta)
  {
    hide Floor, Up, SubtickUp, SubtickDown, PriceExponent;
    var e := PriceExponent(meta);
    FloorIsFraction(x, e, t);
    ExponentIsRight(meta);
    Rescale(t * x.den, x.num, Up(e), Down(e), SubtickUp(meta), 1_000_000 * SubtickDown(meta));
    Rescale((t + 1) * x.den, x.num, Up(e), Down(e), SubtickUp(meta), 1_000_000 * SubtickDown(meta));
    Associate(x.num, 1_000_000, SubtickDown(meta));
  }

  /** a / n against ue / de is a / n against b / u when the two fractions are equal. */
  lemma Rescale(a: int, n: int, ue: nat, de: nat, u: nat, b: nat)
    requires de > 0 && u > 0 && ue * u == de * b
    ensures a * de <= n * ue <==> a * u <= n * b
  {
    assert (n * ue) * u == (n * b) * de && (a * de) * u == (a * u) * de;
    if a * de <= n * ue {
      MulMono(a * de, n * ue, u);
      CancelLe(a * u, n * b, de);
    }
    if a * u <= n * b {
      MulMono(a * u, n * b, de);
      CancelLe(a * de, n * ue, u);
    }
  }

  /** What an accepted price in subticks is worth: within one subtick below the price in quote quantums. */
  lemma PriceWorth(price: Rat, meta: Meta, t: nat)
    requires Proper(price) && price.num >= 0
    requires Converted(Some(price), PriceExponent(meta), meta.subticksPerTick) == Ok(t)
    ensures t * price.den * SubtickUp(meta) <= price.num * 1_000_000 * SubtickDown(meta)
            < (t + 1) * price.den * SubtickUp(meta)
  {
    hide Floor, SubtickUp, SubtickDown;
    FloorWorth(price, meta, t);
  }

  /** The value of an order. When size and price convert exactly, q quantums at t subticks are worth
      q * t * 10^quantumConversionExponent quote quantums, and that is size times price in units of a millionth. */
  lemma OrderWorth(size: Rat, price: Rat, meta: Meta, q: nat, t: nat)
    requires Proper(size) && Proper(price) && size.num >= 0 && price.num >= 0
    requires Converted(Some(size), -meta.atomicResolution, meta.stepBaseQuantums) == Ok(q)
    requires Converted(Some(price), PriceExponent(meta), meta.subticksPerTick) == Ok(t)
    requires q * ExactDen(size, -meta.atomicResolution) == ExactNum(size, -meta.atomicResolution)
    requires t * ExactDen(price, PriceExponent(meta)) == ExactNum(price, PriceExponent(meta))
    ensures q * t * size.den * price.den * Up(meta.quantumConversionExponent)
            == size.num * price.num * 1_000_000 * Down(meta.quantumConversionExponent)
  {
    hide Up, Pow10, Converted, Floor, ExactDen, ExactNum, PriceExponent, SubtickUp, SubtickDown;
    var a, c := meta.atomicResolution, meta.quantumConversionExponent;
    ExactFraction(size, -a, q);
    PriceFraction(price, meta, t);
    Multiply(q * size.den, size.num, t * price.den, price.num, Up(a), Down(a), Up(c), Down(c));
    Shuffle(q, size.den, t, price.den, Up(c));
    Associate(size.num * price.num, 1_000_000, Down(c));
  }

  lemma Shuffle(q: int, a: int, t: int, b: int, c: int)
    ensures q * a * (t * b) * c == q * t * a * b * c
  {
    assert q * a * (t * b) == q * t * a * b;
  }

  lemma PriceFraction(price: Rat, meta: Meta, t: int)
    requires Proper(price) && t * ExactDen(price, PriceExponent(meta)) == ExactNum(price, PriceExponent(meta))
    ensures var a, c := meta.atomicResolution, meta.quantumConversionExponent;
            t * price.den * (Up(c) * Down(a)) == price.num * (1_000_000 * (Down(c) * Up(a)))
  {
    hide Up, Pow10, ExactDen, ExactNum, PriceExponent;
    var e := PriceExponent(meta);
    ExactFraction(price, e, t);
    ExponentIsRight(meta);
    RescaleBack(t * price.den, price.num, Up(e), Down(e), SubtickUp(meta), 1_000_000 * SubtickDown(meta));
  }

  lemma ExactFraction(x: Rat, e: int, q: int)
    requires Proper(x) && q * ExactDen(x, e) == ExactNum(x, e)
    ensures q * x.den * Down(e) == x.num * Up(e)
  {
    hide Pow10;
    PowZero();
    assert ExactDen(x, e) == x.den * Down(e) && ExactNum(x, e) == x.num * Up(e);
    Associate(q, x.den, Down(e));
  }

  lemma RescaleBack(a: int, n: int, ue: nat, de: nat, u: nat, b: nat)
    requires de > 0 && u > 0 && ue * u == de * b && a * de == n * ue
    ensures a * u == n * b
  {
    assert (n * ue) * u == (n * b) * de && (a * de) * u == (a * u) * de;
    CancelLe(a * u, n * b, de);
    CancelLe(n * b, a * u, de);
  }

  /** (s / m) == da / ua and (p / k) == 10^6 * dc * ua / (uc * da) multiply to (s * p) / (m * k) == 10^6 * dc / uc. */
  lemma Multiply(s: int, m: int, p: int, k: int, ua: nat, da: nat, uc: nat, dc: nat)
    requires ua > 0 && da > 0 && s * ua == m * da && p * (uc * da) == k * (1_000_000 * (dc * ua))
    ensures s * p * uc == m * k * (1_000_000 * dc)
  {
    MulMono(1, ua, da);
    assert (s * p * uc) * (ua * da) == (s * ua) * (p * (uc * da));
    assert (m * k * (1_000_000 * dc)) * (ua * da) == (m * da) * (k * (1_000_000 * (dc * ua)));
    CancelLe(s * p * uc, m * k * (1_000_000 * dc), ua * da);
    CancelLe(m * k * (1_000_000 * dc), s * p * uc, ua * da);
  }

  /** What a market order is worth, against the oracle price itself. A BUY is at most the price raised by the slippage
      and less than one tick under it. A SELL that does not wrap is less than one subtick under the price lowered by
      the slippage, and less than one tick above it. */
  lemma MarketOrderWorth(oracle: Rat, bps: nat, meta: Meta, s: nat, side: Side)
    requires Proper(oracle) && oracle.num >= 0 && !side.OtherSide? && Aggressive(side, oracle, bps, meta) == Ok(s)
    requires meta.subticksPerTick <= 0xFFFF_FFFF
    ensures var d, u, tick := oracle.den * 10_000, SubtickUp(meta), Max(1, meta.subticksPerTick);
            && (side.Buy? ==>
                  var v := oracle.num * (10_000 + bps) * 1_000_000 * SubtickDown(meta);
                  s * d * u <= v < (s + tick) * d * u)
            && (side.Sell? ==>
                  var v := oracle.num * (10_000 - bps) * 1_000_000 * SubtickDown(meta);
                  FitsUp(Floor(Worst(Sell, oracle, bps), PriceExponent(meta)), meta.subticksPerTick) ==>
                    v < (s + 1) * d * u && (s - tick) * d * u < v)
  {
    hide Floor, SubtickUp, SubtickDown, PriceExponent;
    var w := Worst(side, oracle, bps);
    var f, u, tick := Floor(w, PriceExponent(meta)), SubtickUp(meta), Max(1, meta.subticksPerTick);
    var d, v := oracle.den * 10_000, w.num * 1_000_000 * SubtickDown(meta);
    FloorWorth(w, meta, f);
    if side.Buy? {
      SnapDownNear(f, meta.subticksPerTick);
      ThreeMono(s, f, d, u);
      ThreeMono(f + 1, s + tick, d, u);
    } else if FitsUp(f, meta.subticksPerTick) {
      SellValue(oracle, bps, meta, s);
      SnapUpWithin(f, meta.subticksPerTick);
      ThreeMono(f + 1, s + 1, d, u);
      ThreeMono(s - tick + 1, f, d, u);
      ThreeLess(s - tick, s - tick + 1, d, u);
    }
  }

  lemma SnapDownNear(f: nat, tick: nat)
    ensures SnapDown(f, tick) <= f < SnapDown(f, tick) + Max(1, tick)
  {
    if tick > 0 { FloorBounds(f, tick); }
  }

  lemma SnapUpWithin(f: nat, tick: nat)
    ensures f <= SnapUp(f, tick) < f + Max(1, tick)
  {
  }

  lemma ThreeMono(a: int, b: int, d: nat, u: nat)
    requires a <= b
    ensures a * d * u <= b * d * u
  {
    MulMono(a, b, d);
    MulMono(a * d, b * d, u);
  }

  lemma ThreeLess(a: int, b: int, d: nat, u: nat)
    requires a < b && d > 0 && u > 0
    ensures a * d * u < b * d * u
  {
    CancelLtIntro(a, b, d);
    CancelLtIntro(a * d, b * d, u);
  }

  lemma FloorReaches(f: int, k: int, v: int, d: nat, u: nat)
    requires d > 0 && u > 0 && f * d * u <= v < (f + 1) * d * u
    ensures f >= k <==> v >= k * d * u
  {
    if f >= k { ThreeMono(k, f, d, u); } else { ThreeMono(f + 1, k, d, u); }
  }

  /** And when there is one. A BUY is refused as out of range exactly when the raised price reaches 2^64 subticks, as
      rounded to zero exactly when it is below one tick. */
  lemma BuyRefusedIff(oracle: Rat, bps: nat, meta: Meta)
    requires Proper(oracle) && oracle.num >= 0 && meta.subticksPerTick <= 0xFFFF_FFFF
    ensures var d, u, tick := oracle.den * 10_000, SubtickUp(meta), Max(1, meta.subticksPerTick);
            var r, v := Aggressive(Buy, oracle, bps, meta), oracle.num * (10_000 + bps) * 1_000_000 * SubtickDown(meta);
            && (r == Err(OutOfRange) <==> v >= 0x1_0000_0000_0000_0000 * d * u)
            && (r == Err(RoundedToZero) <==> v < tick * d * u)
            && (r.Err? ==> r.error in {OutOfRange, RoundedToZero})
  {
    RefusedAt(Buy, oracle, bps, meta);
    hide Floor, SubtickUp, SubtickDown, PriceExponent, SnapDown, SnapUp;
  }

  /** A SELL is refused for a slippage of 10000 or more; else as out of range when the lowered price reaches 2^64
      subticks, and as rounded to zero when it is below one subtick or its snap wraps around to nothing. */
  lemma SellRefusedIff(oracle: Rat, bps: nat, meta: Meta)
    requires Proper(oracle) && oracle.num >= 0 && meta.subticksPerTick <= 0xFFFF_FFFF
    ensures bps >= 10_000 ==> Aggressive(Sell, oracle, bps, meta) == Err(BadSlippage)
    ensures bps < 10_000 ==>
              var d, u, r := oracle.den * 10_000, SubtickUp(meta), Aggressive(Sell, oracle, bps, meta);
              var v := oracle.num * (10_000 - bps) * 1_000_000 * SubtickDown(meta);
              var f := Floor(Worst(Sell, oracle, bps), PriceExponent(meta));
              && f >= 0
              && (r == Err(OutOfRange) <==> v >= 0x1_0000_0000_0000_0000 * d * u)
              && (r == Err(RoundedToZero) <==>
                    || v < 1 * d * u
                    || (v < 0x1_0000_0000_0000_0000 * d * u
                        && SnapUp(f, meta.subticksPerTick) == 0x1_0000_0000_0000_0000))
              && (r.Err? ==> r.error in {OutOfRange, RoundedToZero})
  {
    if bps < 10_000 {
      RefusedAt(Sell, oracle, bps, meta);
      ThreeMono(1, 0x1_0000_0000_0000_0000, oracle.den * 10_000, SubtickUp(meta));
    }
    hide Floor, SubtickUp, SubtickDown, PriceExponent, SnapDown, SnapUp;
  }

  lemma RefusedAt(side: Side, oracle: Rat, bps: nat, meta: Meta)
    requires Proper(oracle) && oracle.num >= 0 && meta.subticksPerTick <= 0xFFFF_FFFF
    requires side.Buy? || (side.Sell? && bps < 10_000)
    ensures var w, tick := Worst(side, oracle, bps), meta.subticksPerTick;
            var f, d, u := Floor(w, PriceExponent(meta)), w.den, SubtickUp(meta);
            var v := w.num * 1_000_000 * SubtickDown(meta);
            && f >= 0
            && (f > MAX_UINT64 <==> v >= 0x1_0000_0000_0000_0000 * d * u)
            && (SnapDown(f, tick) == 0 <==> v < Max(1, tick) * d * u)
            && (SnapUp(f, tick) == 0 <==> v < 1 * d * u)
            && (f <= MAX_UINT64 ==> (SnapUp(f, tick) % (MAX_UINT64 + 1) == 0 <==>
                                     SnapUp(f, tick) == 0 || SnapUp(f, tick) == 0x1_0000_0000_0000_0000))
            && (v < Max(1, tick) * d * u ==> f <= MAX_UINT64)
  {
    hide Floor, SubtickUp, SubtickDown, PriceExponent;
    var w, tick := Worst(side, oracle, bps), meta.subticksPerTick;
    var f, d, u := Floor(w, PriceExponent(meta)), w.den, SubtickUp(meta);
    var v := w.num * 1_000_000 * SubtickDown(meta);
    WorstNotNegative(side, oracle, bps, PriceExponent(meta));
    FloorWorth(w, meta, f);
    FloorReaches(f, 0x1_0000_0000_0000_0000, v, d, u);
    FloorReaches(f, Max(1, tick), v, d, u);
    FloorReaches(f, 1, v, d, u);
    SnapsToZero(f, tick);
    SnapUpWithin(f, tick);
  }

  lemma WorstNotNegative(side: Side, oracle: Rat, bps: nat, e: int)
    requires Proper(oracle) && oracle.num >= 0 && (side.Buy? || (side.Sell? && bps < 10_000))
    ensures Floor(Worst(side, oracle, bps), e) >= 0
  {
    hide Floor;
    MulMono(0, oracle.num, if side.Buy? then 10_000 + bps else 10_000 - bps);
    TwoStagesAreOneFloor(Worst(side, oracle, bps), e);
  }

  lemma SnapsToZero(f: nat, tick: nat)
    ensures SnapDown(f, tick) == 0 <==> f < Max(1, tick)
    ensures SnapUp(f, tick) == 0 <==> f < 1
  {
    if tick > 0 {
      FloorBounds(f, tick);
      if f < tick {
        FloorUnique(f, tick, 0);
      } else {
        FloorMono(tick, f, tick);
        FloorUnique(tick, tick, 1);
        MulMono(1, f / tick, tick);
      }
    }
  }

  /** Why a conversion is refused: what the text denotes is not a number, reaches 2^64 units, or is no step multiple. */
  lemma ConversionRefusedIff(x: Rat, e: int, step: nat)
    requires Proper(x) && x.num >= 0
    ensures Converted(None, e, step) == Err(Unparsed)
    ensures var r := Converted(Some(x), e, step);
            && (r == Err(OutOfRange) <==> x.num * Up(e) >= 0x1_0000_0000_0000_0000 * x.den * Down(e))
            && (r == Err(Misaligned) <==>
                  && x.num * Up(e) < 0x1_0000_0000_0000_0000 * x.den * Down(e)
                  && step > 0 && Floor(x, e) % step != 0)
            && (r.Err? ==> r.error in {OutOfRange, Misaligned})
  {
    hide Floor, Up;
    TwoStagesAreOneFloor(x, e);
    FloorIsFraction(x, e, Floor(x, e));
    FloorReaches(Floor(x, e), 0x1_0000_0000_0000_0000, x.num * Up(e), x.den, Down(e));
  }

  /** Negative values are refused, unless the two truncations make nothing of them: with a power of ten of at least one
      when they are below one unit, else when scaling down, rounded down, leaves less than the denominator. */
  lemma NegativeConverted(x: Rat, e: int, step: nat)
    requires Proper(x) && x.num < 0
    ensures var vanishes := if e >= 0 then -x.num * Up(e) < x.den else x.num >= (1 - x.den) * Down(e);
            Converted(Some(x), e, step) == if vanishes then Ok(0) else Err(OutOfRange)
  {
    hide Pow10;
    PowZero();
    if e >= 0 { assert -x.num * Up(e) == -(x.num * Up(e)); }
  }

  /** The repository's BTC market: 65000 is 6500000000 subticks. */
  lemma BitcoinPrice()
    ensures Converted(Some(Rat(65_000, 1)), PriceExponent(Meta(-10, -9, 1_000_000, 1_000)), 1_000) == Ok(6_500_000_000)
  {
    assert Pow10(5) == 100_000;
  }
}
