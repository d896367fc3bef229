/** The lending risk engine (`tools/lendora_risk.go`) and the projections behind the operation tools
    (`tools/lendora_ops.go`). All values are integers in native units of 1e-18; health factors are
    18-digit decimals held as integers. */
module Lendora {
  import opened Prelude
  import opened Floors
  import opened Sums

  const E18: nat := 1_000_000_000_000_000_000
  const E36: nat := 1_000_000_000_000_000_000_000_000_000_000_000_000
  const HALF: nat := 500_000_000_000_000_000

  // ---- Health factors ------------------------------------------------------------

  /** The rounding of `LegacyDec`: to 18 digits, halves to even. */
  function Chop(m: nat): nat {
    var q, rem := m / E18, m % E18;
    if rem < HALF || (rem == HALF && q % 2 == 0) then q else q + 1
  }

  function ChopSigned(m: int): int { if m < 0 then 0 - Chop(-m) else Chop(m) }

  /** `LegacyNewDecFromBigInt(c).Quo(LegacyNewDecFromBigInt(b))`. */
  function HealthFactor(c: int, b: nat): int
    requires b > 0
  {
    ChopSigned(QuoTrunc(c * E18 * E36, b * E18))
  }

  /** Rounding reaches an even value from half a unit below it. */
  lemma ChopReaches(m: nat, n: nat)
    requires n > 0 && n % 2 == 0
    ensures Chop(m) >= n <==> m >= n * E18 - HALF
  {
    var q, rem := m / E18, m % E18;
    assert m == q * E18 + rem;
  }

  /** The nearest 18-digit value, and of two equally near ones the even. */
  lemma ChopIsNearest(m: nat)
    ensures var e := 2 * (Chop(m) * 1_000_000_000_000_000_000 - m);
            && -1_000_000_000_000_000_000 <= e <= 1_000_000_000_000_000_000
            && (e == -1_000_000_000_000_000_000 || e == 1_000_000_000_000_000_000 ==> Chop(m) % 2 == 0)
  {
    var q, rem := m / E18, m % E18;
    assert m == q * E18 + rem;
  }

  /** The health factor of an account that is not negative: collateral over debt to 36 digits, truncated, then rounded
      to 18. */
  lemma HealthIsRounded(c: nat, b: nat) returns (m: nat)
    requires b > 0
    ensures m * b <= c * 1_000_000_000_000_000_000_000_000_000_000_000_000 < (m + 1) * b
    ensures var e := 2 * (HealthFactor(c, b) * 1_000_000_000_000_000_000 - m);
            && -1_000_000_000_000_000_000 <= e <= 1_000_000_000_000_000_000
            && (e == -1_000_000_000_000_000_000 || e == 1_000_000_000_000_000_000 ==> HealthFactor(c, b) % 2 == 0)
  {
    hide Chop;
    NonNegative(c * E18 * E36, b * E18);
    RatioOnce(c, b);
    FloorBounds(c * E36, b);
    m := c * E36 / b;
    ChopIsNearest(m);
    assert (m + 1) * b == m * b + b;
  }

  lemma FloorAtLeast(a: int, b: nat, t: int)
    requires b > 0
    ensures a / b >= t <==> a >= t * b
  {
    FloorBounds(a, b);
    if a / b >= t { MulMono(t, a / b, b); }
    else { MulMono(a / b + 1, t, b); assert (a / b + 1) * b == a / b * b + b; }
  }

  lemma RatioOnce(c: int, b: nat)
    requires b > 0
    ensures c * E18 * E36 / (b * E18) == c * E36 / b
  {
    assert (c * E18 * E36) * b == (c * E36) * (b * E18);
    FloorOfEqual(c * E18 * E36, b * E18, c * E36, b);
  }

  /** A health factor reaches an even 18-digit threshold exactly when the true ratio is within half a digit. */
  lemma HealthReaches(c: int, b: nat, n: nat)
    requires b > 0 && n > 0 && n % 2 == 0
    ensures HealthFactor(c, b) >= n <==> c * E36 >= (n * E18 - HALF) * b
  {
    hide Chop;
    if c >= 0 {
      NonNegative(c * E18 * E36, b * E18);
      RatioOnce(c, b);
      ChopReaches(c * E36 / b, n);
      FloorAtLeast(c * E36, b, n * E18 - HALF);
    } else {
      QuoTruncNegative(c * E18 * E36, b * E18);
      ChopZero();
      NegativeBelow(c, b, n);
    }
  }

  lemma ChopZero()
    ensures Chop(0) == 0
  {
  }

  lemma NegativeBelow(c: int, b: nat, n: nat)
    requires c < 0 && n > 0
    ensures c * E36 < (n * E18 - HALF) * b
  {
    MulMono(0, n * E18 - HALF, b);
  }

  // ---- Risk bands -----------------------------------------------------------------

  datatype Level = Low | Medium | High | Critical

  const ONE: nat := 1_000_000_000_000_000_000
  const HIGH_UPPER: nat := 1_200_000_000_000_000_000
  const MEDIUM_UPPER: nat := 1_500_000_000_000_000_000

  function RiskBand(hasDebt: bool, shortfall: int, hf: int): Level {
    if !hasDebt then Low
    else if shortfall > 0 then Critical
    else if hf < HIGH_UPPER then High
    else if hf < MEDIUM_UPPER then Medium
    else Low
  }

  /** Projected health factor (none without debt), band, and whether the caller is warned. */
  datatype Projection = Projection(hf: Option<int>, level: Level, warn: bool)

  function ProjectHF(c: int, b: int): Projection {
    if b <= 0 then Projection(None, Low, false)
    else
      var hf := HealthFactor(c, b);
      Projection(Some(hf), RiskBand(true, if c < b then 1 else 0, hf), hf >= ONE && hf < HIGH_UPPER)
  }

  /** c/b is below t/1e18, to within the half digit the rounding grants. */
  predicate Under(c: int, b: int, t: nat) { c * E36 < (t * E18 - HALF) * b }

  /** The bands without any rounding: linear in collateral and borrow. */
  function Band(c: int, b: int): Level {
    if b <= 0 then Low
    else if c < b then Critical
    else if Under(c, b, HIGH_UPPER) then High
    else if Under(c, b, MEDIUM_UPPER) then Medium
    else Low
  }

  /** Risk bands are exact: Critical if and only if collateral is below borrow, the others by exact thresholds. */
  lemma BandIsExact(c: int, b: int)
    ensures ProjectHF(c, b).level == Band(c, b)
    ensures b > 0 ==> (ProjectHF(c, b).warn <==> !Under(c, b, ONE) && Under(c, b, HIGH_UPPER))
  {
    hide HealthFactor;
    if b > 0 {
      HealthReaches(c, b, ONE);
      HealthReaches(c, b, HIGH_UPPER);
      HealthReaches(c, b, MEDIUM_UPPER);
    }
  }

  function Severity(l: Level): nat {
    match l case Low => 0 case Medium => 1 case High => 2 case Critical => 3
  }

  /** More collateral or less debt never worsens the band. */
  lemma BandIsMonotone(c: int, b: int, c': int, b': int)
    requires c <= c' && b' <= b
    ensures Severity(Band(c', b')) <= Severity(Band(c, b))
  {
  }

  /** Rounding is visible in one place: an account that is short by too little for 18 digits is Critical, shows a
      health factor of exactly one and draws the milder warning. It happens exactly in this range. */
  lemma WarnedWhileCriticalIff(c: int, b: int)
    ensures var p := ProjectHF(c, b); p.warn && p.level == Critical <==> 0 < b && c < b && !Under(c, b, ONE)
    ensures var p := ProjectHF(2 * E18 - 1, 2 * E18); p.warn && p.level == Critical
  {
    hide HealthFactor;
    BandIsExact(c, b);
    BandIsExact(2 * E18 - 1, 2 * E18);
  }

  // ---- The risk report -----------------------------------------------------------------

  function NativeValue(price: nat, amount: nat): nat { price * amount / E18 }

  function WeightedNative(price: nat, amount: nat, factor: nat): nat { factor * NativeValue(price, amount) / E18 }

  /** What the chain says about one account in one market. */
  datatype Market = Market(
    cToken: nat, balance: nat, exchangeRate: nat, borrowed: nat, price: nat, factor: nat, entered: bool)

  datatype Position = Position(cToken: nat, enabled: bool, supplied: nat, borrowed: nat, price: nat, factor: nat)

  predicate Idle(m: Market) { m.balance == 0 && m.borrowed == 0 }

  function PositionOf(m: Market): Position {
    Position(m.cToken, m.entered, m.balance * m.exchangeRate / E18, m.borrowed, m.price, m.factor)
  }

  function Positions(ms: seq<Market>): seq<Position> {
    if ms == [] then []
    else Positions(ms[..|ms| - 1]) + if Idle(ms[|ms| - 1]) then [] else [PositionOf(ms[|ms| - 1])]
  }

  function Debts(ms: seq<Market>): seq<int> {
    seq(|ms|, i requires 0 <= i < |ms| => NativeValue(ms[i].price, ms[i].borrowed))
  }

  /** The borrow sum: every market's debt truncated on its own. */
  function BorrowSum(ms: seq<Market>): int { Sum(Debts(ms)) }

  datatype Risk = Risk(
    positions: seq<Position>, hasDebt: bool, hf: int, collateral: int, borrow: int, shortfall: int, level: Level)

  lemma BorrowSumSnoc(ms: seq<Market>, i: nat)
    requires i < |ms|
    ensures BorrowSum(ms[..i + 1]) == BorrowSum(ms[..i]) + NativeValue(ms[i].price, ms[i].borrowed)
  {
    hide NativeValue, Sum;
    assert Debts(ms[..i + 1]) == Debts(ms[..i]) + [NativeValue(ms[i].price, ms[i].borrowed)];
    SumSnoc(Debts(ms[..i]), NativeValue(ms[i].price, ms[i].borrowed));
  }

  lemma {:induction false} BorrowSumNonNegative(ms: seq<Market>)
    ensures BorrowSum(ms) >= 0
  {
    if ms != [] {
      BorrowSumSnoc(ms, |ms| - 1);
      assert ms[..|ms|] == ms;
      BorrowSumNonNegative(ms[..|ms| - 1]);
    }
  }

  lemma ZeroDebt(price: nat)
    ensures NativeValue(price, 0) == 0
  {
  }

  /** `computeRisk`, given the account's margin from the Comptroller. */
  method ComputeRisk(ms: seq<Market>, liquidity: nat, shortfall: nat) returns (r: Risk)
    ensures r.positions == Positions(ms) && r.borrow == BorrowSum(ms)
    ensures r.collateral == liquidity - shortfall + r.borrow && r.hasDebt == (r.borrow > 0) && r.shortfall == shortfall
    ensures r.hf == if r.hasDebt then HealthFactor(r.collateral, r.borrow) else 0
    ensures r.level == RiskBand(r.hasDebt, shortfall, r.hf)
  {
    hide NativeValue, HealthFactor, Sum;
    var sumBorrow: nat, positions := 0, [];
    assert Debts(ms[..0]) == [];
    SumEmpty();
    for i := 0 to |ms|
      invariant sumBorrow == BorrowSum(ms[..i]) && positions == Positions(ms[..i])
    {
      var m := ms[i];
      BorrowSumSnoc(ms, i);
      ZeroDebt(m.price);
      assert ms[..i + 1][..i] == ms[..i];
      if m.balance == 0 && m.borrowed == 0 { continue; }
      if m.borrowed > 0 { sumBorrow := sumBorrow + NativeValue(m.price, m.borrowed); }
      positions := positions + [PositionOf(m)];
    }
    assert ms[..|ms|] == ms;
    var net := liquidity - shortfall;
    var collateral := net + sumBorrow;
    var hasDebt := sumBorrow > 0;
    var hf := 0;
    if hasDebt { hf := HealthFactor(collateral, sumBorrow); }
    r := Risk(positions, hasDebt, hf, collateral, sumBorrow, shortfall, RiskBand(hasDebt, shortfall, hf));
  }

  lemma SumEmpty()
    ensures Sum([]) == 0
  {
  }

  /** The report is consistent with one Comptroller margin: at most one of liquidity and shortfall is positive. */
  predicate Consistent(r: Risk) {
    && r.borrow >= 0 && r.hasDebt == (r.borrow > 0)
    && r.hf == (if r.borrow > 0 then HealthFactor(r.collateral, r.borrow) else 0)
    && r.level == RiskBand(r.hasDebt, r.shortfall, r.hf)
    && (r.shortfall > 0 <==> r.collateral < r.borrow)
  }

  /** The margin is the Comptroller's C - B split into its positive and negative part; the report recovers C, is
      Critical exactly when C < B, and agrees with the projection on the same sums. */
  lemma ReportIsExact(ms: seq<Market>, c: nat, r: Risk)
    requires var b := BorrowSum(ms);
             && r.borrow == b && r.collateral == Max(0, c - b) - Max(0, b - c) + b
             && r.shortfall == Max(0, b - c) && r.hasDebt == (b > 0)
             && r.hf == (if b > 0 then HealthFactor(r.collateral, b) else 0)
             && r.level == RiskBand(r.hasDebt, r.shortfall, r.hf)
    ensures r.collateral == c && Consistent(r)
    ensures r.level == ProjectHF(r.collateral, r.borrow).level == Band(c, r.borrow)
    ensures r.level == Critical <==> r.borrow > 0 && c < r.borrow
  {
    hide HealthFactor, BorrowSum;
    BorrowSumNonNegative(ms);
    BandIsExact(c, r.borrow);
  }

  // ---- Operations ------------------------------------------------------------------------

  function Find(ps: seq<Position>, cToken: nat): Option<Position> {
    if ps == [] then None else if ps[0].cToken == cToken then Some(ps[0]) else Find(ps[1..], cToken)
  }

  const MAX_UINT256: nat := 0xFFFF_FFFF_FFFF_FFFF_FFFF_FFFF_FFFF_FFFF_FFFF_FFFF_FFFF_FFFF_FFFF_FFFF_FFFF_FFFF

  /** What is encoded, what is pulled from the wallet, and the projected sums. */
  datatype Plan = Plan(pack: nat, pull: nat, collateral: int, borrow: int)

  datatype Refusal = NothingToRepay | Undercollateralized | StillBorrowed

  /** The repay branch: `amount` is `None` for a full repay (the flag, or no amount given). */
  function Repay(r: Risk, cToken: nat, price: nat, amount: Option<nat>): Result<Plan, Refusal> {
    var p := Find(r.positions, cToken);
    var debt := if p.Some? then p.value.borrowed else 0;
    if amount.Some? && amount.value < debt
    then Ok(Plan(amount.value, amount.value, r.collateral, Max(0, r.borrow - NativeValue(price, amount.value))))
    else if debt == 0 then Err(NothingToRepay)
    else Ok(Plan(MAX_UINT256, debt, r.collateral, Max(0, r.borrow - NativeValue(price, debt))))
  }

  method BuildRepay(r: Risk, cToken: nat, price: nat, amount: Option<nat>) returns (res: Result<Plan, Refusal>)
    ensures res == Repay(r, cToken, price, amount)
  {
    hide NativeValue;
    var pos := Find(r.positions, cToken);
    var debt := 0;
    if pos.Some? { debt := pos.value.borrowed; }
    var pack, pull := 0, 0;
    var full := amount.None?;
    if !full {
      if amount.value >= debt { full := true; } else { pack, pull := amount.value, amount.value; }
    }
    if full {
      if debt == 0 { return Err(NothingToRepay); }
      pack, pull := MAX_UINT256, debt;
    }
    var postBorrow := r.borrow - NativeValue(price, pull);
    if postBorrow < 0 { postBorrow := 0; }
    res := Ok(Plan(pack, pull, r.collateral, postBorrow));
  }

  predicate DistinctMarkets(ms: seq<Market>) {
    forall i, j :: 0 <= i < j < |ms| ==> ms[i].cToken != ms[j].cToken
  }

  lemma {:induction false} FindAppend(ps: seq<Position>, p: Position, cToken: nat)
    ensures Find(ps + [p], cToken) ==
            if Find(ps, cToken).Some? then Find(ps, cToken) else if p.cToken == cToken then Some(p) else None
  {
    if ps == [] {
      assert ps + [p] == [p] && [p][1..] == [];
      assert Find([p][1..], cToken) == None;
    } else {
      assert (ps + [p])[1..] == ps[1..] + [p];
      FindAppend(ps[1..], p, cToken);
    }
  }

  lemma {:induction false} FindNone(ms: seq<Market>, cToken: nat)
    requires forall i :: 0 <= i < |ms| ==> ms[i].cToken != cToken
    ensures Find(Positions(ms), cToken) == None
  {
    if ms != [] {
      var n := |ms| - 1;
      FindNone(ms[..n], cToken);
      if Idle(ms[n]) { assert Positions(ms) == Positions(ms[..n]); }
      else { FindAppend(Positions(ms[..n]), PositionOf(ms[n]), cToken); }
    }
  }

  /** The snapshot finds each market's own position, unless the account is idle there. */
  lemma {:induction false} FindOwn(ms: seq<Market>, k: nat)
    requires DistinctMarkets(ms) && k < |ms|
    ensures Find(Positions(ms), ms[k].cToken) == if Idle(ms[k]) then None else Some(PositionOf(ms[k]))
  {
    hide PositionOf;
    var n := |ms| - 1;
    PositionToken(ms[n]);
    if k < n { FindOwn(ms[..n], k); } else { FindNone(ms[..n], ms[n].cToken); }
    if Idle(ms[n]) { assert Positions(ms) == Positions(ms[..n]); }
    else { FindAppend(Positions(ms[..n]), PositionOf(ms[n]), ms[k].cToken); }
  }

  lemma PositionToken(m: Market)
    ensures PositionOf(m).cToken == m.cToken && PositionOf(m).borrowed == m.borrowed
            && PositionOf(m).enabled == m.entered
    ensures PositionOf(m).price == m.price
  {
  }

  function WithDebt(ms: seq<Market>, k: nat, debt: nat): seq<Market>
    requires k < |ms|
  {
    ms[k := ms[k].(borrowed := debt)]
  }

  lemma DebtChange(ms: seq<Market>, k: nat, debt: nat)
    requires k < |ms|
    ensures BorrowSum(WithDebt(ms, k, debt)) ==
            BorrowSum(ms) - NativeValue(ms[k].price, ms[k].borrowed) + NativeValue(ms[k].price, debt)
  {
    hide NativeValue, Sum;
    SumUpdate(Debts(ms), k, NativeValue(ms[k].price, debt));
    assert Debts(WithDebt(ms, k, debt)) == Debts(ms)[k := NativeValue(ms[k].price, debt)];
  }

  /** Truncating two parts loses at most one unit against truncating the whole. */
  lemma SplitValue(price: nat, a: nat, b: nat)
    ensures 0 <= NativeValue(price, a + b) - NativeValue(price, a) - NativeValue(price, b) <= 1
  {
    assert price * (a + b) == price * a + price * b;
    SplitFloor(price * a, price * b);
  }

  lemma SplitFloor(x: nat, y: nat)
    ensures 0 <= (x + y) / E18 - x / E18 - y / E18 <= 1
  {
  }

  /** Repay is never optimistic. At unchanged prices the projected borrow sum of a full repay is the sum recomputed
      with that debt gone; a partial repay's exceeds the recomputed sum by nothing or one unit; the clamp at zero
      never fires; and what is pulled never exceeds the debt. */
  lemma RepayNeverOptimistic(ms: seq<Market>, k: nat, r: Risk, amount: Option<nat>)
    requires DistinctMarkets(ms) && k < |ms| && r.positions == Positions(ms) && r.borrow == BorrowSum(ms)
    requires Repay(r, ms[k].cToken, ms[k].price, amount).Ok?
    ensures var p := Repay(r, ms[k].cToken, ms[k].price, amount).value;
            && p.pull <= ms[k].borrowed
            && p.borrow == r.borrow - NativeValue(ms[k].price, p.pull)
            && (p.pull == ms[k].borrowed ==> p.pack == MAX_UINT256 && p.borrow == BorrowSum(WithDebt(ms, k, 0)))
            && 0 <= p.borrow - BorrowSum(WithDebt(ms, k, ms[k].borrowed - p.pull)) <= 1
  {
    hide NativeValue, BorrowSum, Positions;
    FindOwn(ms, k);
    PositionToken(ms[k]);
    var p := Repay(r, ms[k].cToken, ms[k].price, amount).value;
    var rest := ms[k].borrowed - p.pull;
    DebtChange(ms, k, rest);
    SplitValue(ms[k].price, p.pull, rest);
    BorrowSumNonNegative(WithDebt(ms, k, rest));
    DebtChange(ms, k, 0);
    ZeroDebt(ms[k].price);
    BorrowSumNonNegative(WithDebt(ms, k, 0));
  }

  /** Withdraw and borrow ask the Comptroller first; a positive hypothetical shortfall refuses. */
  function Withdraw(r: Risk, liquidity: nat, shortfall: nat): Result<Plan, Refusal> {
    if shortfall > 0 then Err(Undercollateralized)
    else Ok(Plan(0, 0, liquidity - shortfall + r.borrow, r.borrow))
  }

  function Borrow(r: Risk, price: nat, amount: nat, liquidity: nat, shortfall: nat): Result<Plan, Refusal> {
    if shortfall > 0 then Err(Undercollateralized)
    else
      var postBorrow := r.borrow + NativeValue(price, amount);
      Ok(Plan(amount, 0, liquidity - shortfall + postBorrow, postBorrow))
  }

  /** Supplying raises collateral only in an entered market. */
  function Supply(r: Risk, cToken: nat, price: nat, factor: nat, amount: nat): Plan {
    var p := Find(r.positions, cToken);
    var added := if p.Some? && p.value.enabled then WeightedNative(price, amount, factor) else 0;
    Plan(amount, amount, r.collateral + added, r.borrow)
  }

  function Contribution(r: Risk, cToken: nat, price: nat): nat {
    var p := Find(r.positions, cToken);
    if p.Some? then WeightedNative(price, p.value.supplied, p.value.factor) else 0
  }

  predicate Entered(r: Risk, cToken: nat) {
    Find(r.positions, cToken).Some? && Find(r.positions, cToken).value.enabled
  }

  function Enable(r: Risk, cToken: nat, price: nat): Plan {
    Plan(0, 0, r.collateral + (if Entered(r, cToken) then 0 else Contribution(r, cToken, price)), r.borrow)
  }

  function Disable(r: Risk, cToken: nat, price: nat): Result<Plan, Refusal> {
    var p := Find(r.positions, cToken);
    if p.Some? && p.value.borrowed > 0 then Err(StillBorrowed)
    else if !Entered(r, cToken) then Ok(Plan(0, 0, r.collateral, r.borrow))
    else
      var post := r.collateral - Contribution(r, cToken, price);
      if r.hasDebt && post < r.borrow then Err(Undercollateralized) else Ok(Plan(0, 0, post, r.borrow))
  }

  method BuildCollateral(r: Risk, cToken: nat, price: nat, enable: bool) returns (res: Result<Plan, Refusal>)
    ensures res == if enable then Ok(Enable(r, cToken, price)) else Disable(r, cToken, price)
  {
    hide WeightedNative;
    var pos := Find(r.positions, cToken);
    var already := pos.Some? && pos.value.enabled;
    var contribution := 0;
    if pos.Some? { contribution := WeightedNative(price, pos.value.supplied, pos.value.factor); }
    var post := r.collateral;
    if enable {
      if !already { post := post + contribution; }
    } else {
      if pos.Some? && pos.value.borrowed > 0 { return Err(StillBorrowed); }
      if already {
        post := post - contribution;
        if r.hasDebt && post < r.borrow { return Err(Undercollateralized); }
      }
    }
    res := Ok(Plan(0, 0, post, r.borrow));
  }

  /** Two truncations lose less than two units while the collateral factor is at most one. */
  lemma WeightedWithinTwo(price: nat, amount: nat, factor: nat)
    requires factor <= E18
    ensures var w := WeightedNative(price, amount, factor);
            w * E36 <= factor * (price * amount) < (w + 2) * E36
  {
    var x, v, w := price * amount, NativeValue(price, amount), WeightedNative(price, amount, factor);
    FloorBounds(x, E18);
    FloorBounds(factor * v, E18);
    MulMono(v * E18, x, factor);
    MulMono(x, v * E18 + E18, factor);
    assert v * E18 * factor == factor * v * E18 && x * factor == factor * x;
    assert (v * E18 + E18) * factor == factor * v * E18 + factor * E18;
    StrictTop(x, v, factor);
  }

  lemma StrictTop(x: nat, v: nat, factor: nat)
    requires x < v * E18 + E18
    ensures factor * x <= factor * v * E18 + factor * E18
  {
    MulMono(x, v * E18 + E18, factor);
    assert (v * E18 + E18) * factor == factor * v * E18 + factor * E18;
  }

  function PlanLevel(p: Plan): Level { ProjectHF(p.collateral, p.borrow).level }

  /** No borrow and no withdraw is ever built with a Critical projection; and a disable only when it changes
      nothing, on an account that is Critical already. A withdraw is built exactly when the collateral c that the
      Comptroller would leave covers the debt, and projects that collateral. */
  lemma BuiltMeansSafe(r: Risk, cToken: nat, price: nat, amount: nat, liquidity: nat, shortfall: nat, c: nat)
    requires r.borrow >= 0 && r.hasDebt == (r.borrow > 0)
    ensures var w := Withdraw(r, Max(0, c - r.borrow), Max(0, r.borrow - c));
            (w.Ok? <==> c >= r.borrow) && (w.Ok? ==> w.value.collateral == c && w.value.borrow == r.borrow)
    ensures Withdraw(r, liquidity, shortfall).Ok? ==> PlanLevel(Withdraw(r, liquidity, shortfall).value) != Critical
    ensures Borrow(r, price, amount, liquidity, shortfall).Ok? ==>
              PlanLevel(Borrow(r, price, amount, liquidity, shortfall).value) != Critical
    ensures Disable(r, cToken, price).Ok? ==>
              (PlanLevel(Disable(r, cToken, price).value) == Critical <==>
                 !Entered(r, cToken) && Band(r.collateral, r.borrow) == Critical)
  {
    hide ProjectHF, NativeValue, Contribution;
    BandIsExact(liquidity - shortfall + r.borrow, r.borrow);
    var b := r.borrow + NativeValue(price, amount);
    BandIsExact(liquidity - shortfall + b, b);
    if Disable(r, cToken, price).Ok? {
      BandIsExact(Disable(r, cToken, price).value.collateral, r.borrow);
    }
  }

  /** Supplying, enabling collateral and repaying never worsen the reported band. */
  lemma HelpfulOpsNeverWorsen(r: Risk, cToken: nat, price: nat, factor: nat, amount: nat, repaid: Option<nat>)
    requires Consistent(r)
    ensures Severity(PlanLevel(Supply(r, cToken, price, factor, amount))) <= Severity(r.level)
    ensures Severity(PlanLevel(Enable(r, cToken, price))) <= Severity(r.level)
    ensures Repay(r, cToken, price, repaid).Ok? ==>
            Severity(PlanLevel(Repay(r, cToken, price, repaid).value)) <= Severity(r.level)
  {
    hide HealthFactor, NativeValue, WeightedNative, Find;
    assert r.level == Band(r.collateral, r.borrow) by { BandIsExact(r.collateral, r.borrow); }
    Improves(r, Supply(r, cToken, price, factor, amount));
    Improves(r, Enable(r, cToken, price));
    if Repay(r, cToken, price, repaid).Ok? { Improves(r, Repay(r, cToken, price, repaid).value); }
  }

  lemma Improves(r: Risk, p: Plan)
    requires r.collateral <= p.collateral && p.borrow <= r.borrow
    ensures Severity(PlanLevel(p)) <= Severity(Band(r.collateral, r.borrow))
  {
    hide ProjectHF, Band;
    BandIsExact(p.collateral, p.borrow);
    BandIsMonotone(r.collateral, r.borrow, p.collateral, p.borrow);
  }

  /** The borrow projection may be one unit low: recomputing with the larger debt gives it, or one more. */
  lemma BorrowWithinOneUnit(ms: seq<Market>, k: nat, r: Risk, amount: nat, liquidity: nat)
    requires k < |ms| && r.borrow == BorrowSum(ms)
    ensures var p := Borrow(r, ms[k].price, amount, liquidity, 0).value;
            0 <= BorrowSum(WithDebt(ms, k, ms[k].borrowed + amount)) - p.borrow <= 1
  {
    hide NativeValue, BorrowSum;
    DebtChange(ms, k, ms[k].borrowed + amount);
    SplitValue(ms[k].price, ms[k].borrowed, amount);
  }

  // ---- The operations on a reported market ----------------------------------------------

  /** What a repay encodes and pulls, against the market itself: nothing without a debt; an amount below the debt as it
      stands; otherwise the sentinel 2^256 - 1 and the whole debt. Collateral is untouched, and the borrow sum falls by
      the value v of what is pulled, never below zero. */
  lemma RepayPlan(ms: seq<Market>, k: nat, r: Risk, price: nat, amount: Option<nat>) returns (v: nat)
    requires DistinctMarkets(ms) && k < |ms| && r.positions == Positions(ms)
    ensures var res, debt := Repay(r, ms[k].cToken, price, amount), ms[k].borrowed;
            && (res.Ok? <==> debt > 0) && (res.Err? ==> res.error == NothingToRepay)
            && (debt > 0 && amount.Some? && amount.value < debt ==>
                  res.value.pack == amount.value && res.value.pull == amount.value)
            && (debt > 0 && (amount.None? || amount.value >= debt) ==>
                  && res.value.pack == 0xFFFF_FFFF_FFFF_FFFF_FFFF_FFFF_FFFF_FFFF_FFFF_FFFF_FFFF_FFFF_FFFF_FFFF_FFFF_FFFF
                  && res.value.pull == debt)
            && (res.Ok? ==>
                  && res.value.collateral == r.collateral && IsFloor18(price * res.value.pull, v)
                  && res.value.borrow == if r.borrow > v then r.borrow - v else 0)
  {
    hide NativeValue, Positions;
    FindOwn(ms, k);
    PositionToken(ms[k]);
    var res := Repay(r, ms[k].cToken, price, amount);
    v := if res.Ok? then NativeValue(price, res.value.pull) else 0;
    if res.Ok? { ValueIsFloor(price, res.value.pull); }
  }

  /** q is x / 10^18, truncated. */
  predicate IsFloor18(x: nat, q: int) {
    q * 1_000_000_000_000_000_000 <= x < (q + 1) * 1_000_000_000_000_000_000
  }

  lemma ValueIsFloor(price: nat, amount: nat)
    ensures IsFloor18(price * amount, NativeValue(price, amount))
  {
    FloorBounds(price * amount, E18);
  }

  lemma WeightedIsFloor(price: nat, amount: nat, factor: nat)
    ensures IsFloor18(factor * NativeValue(price, amount), WeightedNative(price, amount, factor))
  {
    FloorBounds(factor * NativeValue(price, amount), E18);
  }

  /** w is the collateral value of the amount: its value v truncated, times the factor, truncated again. */
  predicate Counts(price: nat, amount: nat, factor: nat, v: nat, w: int) {
    IsFloor18(price * amount, v) && IsFloor18(factor * v, w)
  }

  /** What the account's own supply to the market counts for: u is its cTokens at the exchange rate, truncated. */
  lemma OwnContribution(ms: seq<Market>, k: nat, r: Risk, price: nat) returns (u: nat, v: nat)
    requires DistinctMarkets(ms) && k < |ms| && r.positions == Positions(ms)
    ensures IsFloor18(ms[k].balance * ms[k].exchangeRate, u)
    ensures Counts(price, u, ms[k].factor, v, Contribution(r, ms[k].cToken, price))
  {
    hide Positions, WeightedNative, NativeValue;
    var m := ms[k];
    FindOwn(ms, k);
    u := m.balance * m.exchangeRate / E18;
    v := NativeValue(price, u);
    FloorBounds(m.balance * m.exchangeRate, E18);
    ValueIsFloor(price, u);
    WeightedIsFloor(price, u, m.factor);
    if Idle(m) { NothingSupplied(price, m.exchangeRate, m.factor); }
  }

  lemma NothingSupplied(price: nat, rate: nat, factor: nat)
    ensures 0 * rate / E18 == 0 && WeightedNative(price, 0, factor) == 0
  {
  }

  /** What switching a market's collateral does, against the market itself. Enabling adds the weighted value of what is
      supplied there, unless it counts already. Disabling is refused while the market is borrowed from; it changes
      nothing where the market does not count; otherwise it takes that value away, and is refused exactly when an
      account with debt would be left short. */
  lemma CollateralPlan(ms: seq<Market>, k: nat, r: Risk, price: nat) returns (u: nat, v: nat, w: int)
    requires DistinctMarkets(ms) && k < |ms| && r.positions == Positions(ms)
    ensures IsFloor18(ms[k].balance * ms[k].exchangeRate, u) && Counts(price, u, ms[k].factor, v, w)
    ensures var m, on := ms[k], Enable(r, ms[k].cToken, price);
            var counts := m.entered && (m.balance > 0 || m.borrowed > 0);
            on.collateral == r.collateral + (if counts then 0 else w) && on.borrow == r.borrow
    ensures var m, off := ms[k], Disable(r, ms[k].cToken, price);
            var counts := m.entered && (m.balance > 0 || m.borrowed > 0);
            && (off == Err(StillBorrowed) <==> m.borrowed > 0)
            && (off == Err(Undercollateralized) <==>
                  m.borrowed == 0 && counts && r.hasDebt && r.collateral - w < r.borrow)
            && (off.Ok? ==> off.value.borrow == r.borrow
                            && off.value.collateral == r.collateral - (if counts then w else 0))
            && (off.Err? ==> off.error in {StillBorrowed, Undercollateralized})
  {
    hide Positions, Contribution;
    FindOwn(ms, k);
    PositionToken(ms[k]);
    u, v := OwnContribution(ms, k, r, price);
    w := Contribution(r, ms[k].cToken, price);
  }

  /** What a supply and a borrow do. A supply packs and pulls the amount and adds its weighted value exactly where the
      market counts as collateral. A borrow is built exactly without a hypothetical shortfall, packs the amount, and
      projects the amount's value on top of the debt and the Comptroller's margin on top of both. */
  lemma SupplyAndBorrowPlan(
    ms: seq<Market>, k: nat, r: Risk, price: nat, factor: nat, amount: nat, liquidity: nat, shortfall: nat)
    returns (v: nat)
    requires DistinctMarkets(ms) && k < |ms| && r.positions == Positions(ms)
    ensures IsFloor18(price * amount, v)
    ensures var m, p := ms[k], Supply(r, ms[k].cToken, price, factor, amount);
            && p.pack == p.pull == amount && p.borrow == r.borrow
            && if m.entered && (m.balance > 0 || m.borrowed > 0)
               then Counts(price, amount, factor, v, p.collateral - r.collateral)
               else p.collateral == r.collateral
    ensures var b := Borrow(r, price, amount, liquidity, shortfall);
            && (b.Ok? <==> shortfall == 0) && (b.Err? ==> b.error == Undercollateralized)
            && (b.Ok? ==>
                  && b.value.pack == amount && b.value.borrow == r.borrow + v
                  && b.value.collateral == b.value.borrow + liquidity)
  {
    hide Positions, WeightedNative, NativeValue;
    FindOwn(ms, k);
    PositionToken(ms[k]);
    v := NativeValue(price, amount);
    ValueIsFloor(price, amount);
    WeightedIsFloor(price, amount, factor);
  }

  /** The bands by plain ratios of collateral to debt, with the half digit of the rounding left open: below 1 Critical,
      from 1.2 no longer High, from 1.5 Low; and below 1.2 or 1.5 by an 18th digit, still High or Medium. */
  lemma BandsByRatio(c: int, b: int)
    requires b > 0
    ensures var p := ProjectHF(c, b);
            && (p.level == Critical <==> c < b)
            && (10 * c >= 12 * b ==> p.level in {Medium, Low} && !p.warn)
            && (10 * c >= 15 * b ==> p.level == Low)
            && (c >= b && 1_000_000_000_000_000_000 * c < 1_199_999_999_999_999_999 * b ==> p.level == High && p.warn)
            && (10 * c >= 12 * b && 1_000_000_000_000_000_000 * c < 1_499_999_999_999_999_999 * b ==> p.level == Medium)
    ensures ProjectHF(c, 0) == Projection(None, Low, false)
  {
    hide HealthFactor, ProjectHF;
    BandIsExact(c, b);
    NoDebt(c);
  }

  lemma NoDebt(c: int)
    ensures ProjectHF(c, 0) == Projection(None, Low, false)
  {
  }
}
