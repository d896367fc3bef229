/** Per-transaction caps and the daily withdraw ledger of `limits/limits.go`: uint64 quantums, a counter
    that saturates, and a tally that restarts with the UTC day. */
module Ledger {
  import opened Prelude
  import opened Sums
  import Human

  type uint64 = x: nat | x <= MAX_UINT64

  /** Caps in whole USDC; zero switches a cap off. */
  datatype Config = Config(depositMax: uint64, withdrawMax: uint64, transferMax: uint64, dailyWithdrawCap: uint64)

  datatype Tool = Deposit | Withdraw | Transfer | Unknown

  /** Whole USDC in quantums; off when zero or when the product would not fit. */
  function ToQuantums(usdc: uint64): (r: Option<uint64>)
    ensures r.Some? <==> usdc > 0 && usdc * 1_000_000 <= MAX_UINT64
    ensures r.Some? ==> r.value == usdc * 1_000_000
  {
    if usdc == 0 || usdc > MAX_UINT64 / Human.QUANTUMS_PER_USDC then None
    else Some(usdc * Human.QUANTUMS_PER_USDC)
  }

  function PerToolCap(cfg: Config, tool: Tool): Option<uint64> {
    match tool
    case Deposit => ToQuantums(cfg.depositMax)
    case Withdraw => ToQuantums(cfg.withdrawMax)
    case Transfer => ToQuantums(cfg.transferMax)
    case Unknown => None
  }

  function DailyCap(cfg: Config): Option<uint64> { ToQuantums(cfg.dailyWithdrawCap) }

  datatype Verdict =
    | Pass
    | PerTx(tool: Tool, limit: string, requested: string)
    | Daily(limit: string, requested: string, used: string)

  function CheckPerTx(cfg: Config, tool: Tool, q: uint64): Verdict {
    var cap := PerToolCap(cfg, tool);
    if cap.Some? && q > cap.value
    then PerTx(tool, Human.QuantumsToHuman(cap.value), Human.QuantumsToHuman(q)) else Pass
  }

  /** The per-transaction refusal happens exactly above a cap that is on, and its texts read back. */
  lemma PerTxIsHonest(cfg: Config, tool: Tool, q: uint64)
    ensures var v, cap := CheckPerTx(cfg, tool, q), PerToolCap(cfg, tool);
            && (v != Pass <==> cap.Some? && q > cap.value)
            && (v != Pass ==> v.PerTx? && v.tool == tool && Human.ToQuantums(v.limit) == Ok(cap.value)
                              && Human.ToQuantums(v.requested) == Ok(q))
  {
    hide Human.ToQuantums, Human.QuantumsToHuman;
    Human.QuantumsRoundTrip(q);
    if PerToolCap(cfg, tool).Some? { Human.QuantumsRoundTrip(PerToolCap(cfg, tool).value); }
  }

  /** A limit in whole USDC is on and exceeded: it is positive, its quantums fit uint64, and q is more. */
  predicate Above(q: nat, usdc: nat) {
    usdc > 0 && usdc * 1_000_000 <= 0xFFFF_FFFF_FFFF_FFFF && q > usdc * 1_000_000
  }

  /** Which limit guards which tool: deposits, withdrawals and transfers each their own, unknown tools none. */
  lemma LimitsByTool(cfg: Config, q: uint64)
    ensures CheckPerTx(cfg, Deposit, q) != Pass <==> Above(q, cfg.depositMax)
    ensures CheckPerTx(cfg, Withdraw, q) != Pass <==> Above(q, cfg.withdrawMax)
    ensures CheckPerTx(cfg, Transfer, q) != Pass <==> Above(q, cfg.transferMax)
    ensures CheckPerTx(cfg, Unknown, q) == Pass
  {
    hide Human.QuantumsToHuman;
  }

  // ---- The ledger ------------------------------------------------------------

  datatype Tally = Tally(cap: uint64, day: string, used: map<string, uint64>)

  function Rolled(s: Tally, today: string): Tally {
    if s.day == today then s else Tally(s.cap, today, map[])
  }

  function UsedBy(s: Tally, tenant: string): uint64 { GetOr(s.used, tenant, 0) }

  function RemainingOf(s: Tally, tenant: string): uint64 {
    if UsedBy(s, tenant) >= s.cap then 0 else s.cap - UsedBy(s, tenant)
  }

  /** uint64 addition, clamped where it wraps. */
  function SaturatingAdd(a: uint64, b: uint64): (r: uint64)
    ensures r == Min(a + b, MAX_UINT64)
  {
    var sum := (a + b) % (MAX_UINT64 + 1);
    if sum < a then MAX_UINT64 else sum
  }

  function Recorded(s: Tally, tenant: string, q: uint64): Tally {
    s.(used := s.used[tenant := SaturatingAdd(UsedBy(s, tenant), q)])
  }

  /** Both checks against a ledger that has been rolled to today. The shown usage is a uint64 subtraction. */
  function Judge(cfg: Config, s: Tally, tenant: string, tool: Tool, q: uint64): Verdict {
    if CheckPerTx(cfg, tool, q) != Pass then CheckPerTx(cfg, tool, q)
    else if !tool.Withdraw? || DailyCap(cfg).None? || q <= RemainingOf(s, tenant) then Pass
    else Daily(Human.QuantumsToHuman(DailyCap(cfg).value), Human.QuantumsToHuman(q),
               Human.QuantumsToHuman((DailyCap(cfg).value - RemainingOf(s, tenant)) % (MAX_UINT64 + 1)))
  }

  class MemoryLedger {
    const cap: uint64
    var day: string
    var used: map<string, uint64>

    ghost function Current(): Tally
      reads this
    {
      Tally(cap, day, used)
    }

    constructor (dailyCapUsdc: uint64)
      ensures var cap := ToQuantums(dailyCapUsdc);
              Current() == Tally(if cap.Some? then cap.value else 0, "", map[])
    {
      cap := if dailyCapUsdc > 0 && dailyCapUsdc <= MAX_UINT64 / Human.QUANTUMS_PER_USDC
             then dailyCapUsdc * Human.QUANTUMS_PER_USDC else 0;
      day, used := "", map[];
    }

    method RolloverLocked(today: string)
      modifies this
      ensures Current() == Rolled(old(Current()), today)
    {
      if day == today { return; }
      day := today;
      while used.Keys != {}
        invariant day == today
        decreases |used|
      {
        var k :| k in used.Keys;
        var rest := used - {k};
        assert rest.Keys == used.Keys - {k};
        assert |rest.Keys| == |used.Keys| - 1;
        used := rest;
      }
      assert used == map[];
    }

    method Remaining(tenant: string, today: string) returns (q: uint64)
      modifies this
      ensures Current() == Rolled(old(Current()), today) && q == RemainingOf(Current(), tenant)
    {
      RolloverLocked(today);
      var spent := if tenant in used then used[tenant] else 0;
      if spent >= cap { return 0; }
      q := cap - spent;
    }

    method Record(tenant: string, q: uint64, today: string)
      modifies this
      ensures Current() == Recorded(Rolled(old(Current()), today), tenant, q)
    {
      RolloverLocked(today);
      var cur := if tenant in used then used[tenant] else 0;
      var sum := (cur + q) % (MAX_UINT64 + 1);
      if sum < cur { sum := MAX_UINT64; }
      used := used[tenant := sum];
    }

    /** The ledger is touched only when the daily check runs. */
    method Enforce(cfg: Config, tenant: string, tool: Tool, q: uint64, today: string) returns (v: Verdict)
      modifies this
      ensures v == Judge(cfg, Rolled(old(Current()), today), tenant, tool, q)
      ensures Current() == if tool.Withdraw? && DailyCap(cfg).Some? && CheckPerTx(cfg, tool, q) == Pass
                           then Rolled(old(Current()), today) else old(Current())
    {
      v := CheckPerTx(cfg, tool, q);
      if v != Pass || tool != Withdraw { return; }
      var daily := DailyCap(cfg);
      if daily.None? { return; }
      var remaining := Remaining(tenant, today);
      if q > remaining {
        v := Daily(Human.QuantumsToHuman(daily.value), Human.QuantumsToHuman(q),
                   Human.QuantumsToHuman((daily.value - remaining) % (MAX_UINT64 + 1)));
      }
    }
  }

  // ---- The saturating ledger against exact sums ---------------------------------

  /** One call to the ledger: `Look` is Remaining. */
  datatype Op = Look(today: string) | Book(today: string, tenant: string, q: uint64)

  function After(cap: uint64, run: seq<Op>): Tally {
    if run == [] then Tally(cap, "", map[])
    else
      var s, op := After(cap, run[..|run| - 1]), run[|run| - 1];
      if op.Look? then Rolled(s, op.today) else Recorded(Rolled(s, op.today), op.tenant, op.q)
  }

  /** What the tenant booked in the unbroken stretch of calls on that day at the end of the run. */
  function DaySum(run: seq<Op>, tenant: string, day: string): nat {
    if run == [] then 0
    else
      var op := run[|run| - 1];
      if op.today != day then 0
      else DaySum(run[..|run| - 1], tenant, day) + if op.Book? && op.tenant == tenant then op.q else 0
  }

  lemma {:induction false} TallyIsDaySum(cap: uint64, run: seq<Op>, tenant: string, today: string)
    ensures UsedBy(Rolled(After(cap, run), today), tenant) == Min(DaySum(run, tenant, today), MAX_UINT64)
    ensures run != [] ==> After(cap, run).day == run[|run| - 1].today
    ensures After(cap, run).cap == cap
  {
    if run != [] { TallyIsDaySum(cap, run[..|run| - 1], tenant, today); }
  }

  /** Over any run and any clock, the headroom is the cap less the exact sum, however large the sum:
      the clamp in the counter is never visible. */
  lemma RemainingIsExact(cap: uint64, run: seq<Op>, tenant: string, today: string)
    ensures RemainingOf(Rolled(After(cap, run), today), tenant) == Max(0, cap - DaySum(run, tenant, today))
  {
    TallyIsDaySum(cap, run, tenant, today);
  }

  /** What a refusal says, for a ledger built with any cap. It comes exactly when the request exceeds the exact
      headroom `left`. The usage it shows is the check's cap less that headroom if and only if the headroom is no
      larger, and wraps around otherwise; with ledger and check on one cap it is the exact sum, shown as the cap
      once it is beyond it. */
  lemma RefusalIsHonest(cfg: Config, cap: uint64, run: seq<Op>, tenant: string, today: string, q: uint64)
    requires DailyCap(cfg).Some?
    ensures var d, sum := DailyCap(cfg).value, DaySum(run, tenant, today);
            var left := Max(0, cap - sum);
            var v := Judge(cfg, Rolled(After(cap, run), today), tenant, Withdraw, q);
            && (v.Daily? ==>
                  && Human.ToQuantums(v.limit) == Ok(d) && Human.ToQuantums(v.requested) == Ok(q)
                  && Human.ToQuantums(v.used) == Ok(if left <= d then d - left else d - left + MAX_UINT64 + 1)
                  && (cap == d ==> Human.ToQuantums(v.used) == Ok(Min(d, sum))))
            && (CheckPerTx(cfg, Withdraw, q) == Pass ==> (v.Daily? <==> q > left))
  {
    hide Human.QuantumsToHuman, Human.ToQuantums, DaySum, After;
    var d, left := DailyCap(cfg).value, Max(0, cap - DaySum(run, tenant, today));
    RemainingIsExact(cap, run, tenant, today);
    Human.QuantumsRoundTrip(d);
    Human.QuantumsRoundTrip(q);
    Human.QuantumsRoundTrip((d - left) % (MAX_UINT64 + 1));
  }

  /** The two limits together, from the configuration and the bookings alone. A request is refused by its own limit, or,
      for a withdrawal, when a daily cap that is on would be exceeded by what the tenant booked in the day's unbroken
      run of calls; and nothing else is refused. */
  lemma EnforcedIff(cfg: Config, run: seq<Op>, tenant: string, tool: Tool, today: string, q: uint64)
    ensures var cap := if DailyCap(cfg).Some? then DailyCap(cfg).value else 0;
            var v := Judge(cfg, Rolled(After(cap, run), today), tenant, tool, q);
            var limit := match tool
                         case Deposit => cfg.depositMax
                         case Withdraw => cfg.withdrawMax
                         case Transfer => cfg.transferMax
                         case Unknown => 0;
            v != Pass <==>
              || Above(q, limit)
              || (tool == Withdraw && q > 0 && Above(DaySum(run, tenant, today) + q, cfg.dailyWithdrawCap))
  {
    hide Human.QuantumsToHuman;
    LimitsByTool(cfg, q);
    if DailyCap(cfg).Some? { RemainingIsExact(DailyCap(cfg).value, run, tenant, today); }
  }

  // ---- Serial withdrawals ----------------------------------------------------------

  /** One broadcast: the check on one day, the record, if the chain accepts, perhaps on another. */
  datatype Broadcast = Broadcast(tenant: string, q: uint64, checked: string, accepted: bool, recorded: string)

  function Step(cfg: Config, s: Tally, b: Broadcast): Tally {
    var at := Rolled(s, b.checked);
    if Judge(cfg, at, b.tenant, Withdraw, b.q) != Pass || !b.accepted then at
    else Recorded(Rolled(at, b.recorded), b.tenant, b.q)
  }

  function Run(cfg: Config, s: Tally, bs: seq<Broadcast>): Tally
    decreases bs
  {
    if bs == [] then s else Run(cfg, Step(cfg, s, bs[0]), bs[1..])
  }

  ghost predicate WithinCap(s: Tally) { forall t :: UsedBy(s, t) <= s.cap }

  /** Withdrawals made one at a time stay within the daily cap for every tenant, also when a broadcast
      straddles midnight. */
  lemma {:induction false} SerialWithinCap(cfg: Config, s: Tally, bs: seq<Broadcast>)
    requires DailyCap(cfg) == Some(s.cap) && WithinCap(s)
    ensures Run(cfg, s, bs).cap == s.cap && WithinCap(Run(cfg, s, bs))
    decreases |bs|
  {
    hide Human.QuantumsToHuman;
    if bs != [] {
      StepWithinCap(cfg, s, bs[0]);
      SerialWithinCap(cfg, Step(cfg, s, bs[0]), bs[1..]);
    }
  }

  lemma StepWithinCap(cfg: Config, s: Tally, b: Broadcast)
    requires DailyCap(cfg) == Some(s.cap) && WithinCap(s)
    ensures Step(cfg, s, b).cap == s.cap && WithinCap(Step(cfg, s, b))
  {
    hide Human.QuantumsToHuman;
    var at := Rolled(s, b.checked);
    if Judge(cfg, at, b.tenant, Withdraw, b.q) == Pass && b.accepted {
      assert UsedBy(at, b.tenant) <= s.cap;
      assert b.q <= RemainingOf(at, b.tenant);
      assert UsedBy(at, b.tenant) + b.q <= s.cap;
      forall t ensures UsedBy(Step(cfg, s, b), t) <= s.cap { assert UsedBy(s, t) <= s.cap; }
    }
  }

  // ---- Withdrawals in flight --------------------------------------------------------

  /** A withdrawal that passed the check and is not booked yet, or no longer. */
  datatype Flight = Flight(tenant: string, q: uint64, open: bool)

  datatype Air = Air(tally: Tally, flights: seq<Flight>)

  /** The two critical sections of a broadcast, with others' in between; `Fall` is a refusal further on or by the
      chain, `Restart` the loss of the ledger and of everything under way. */
  datatype Move =
    | Check(tenant: string, q: uint64, today: string)
    | Fall(id: nat)
    | Land(id: nat, today: string)
    | Restart

  predicate Can(a: Air, m: Move) {
    (m.Fall? || m.Land?) ==> m.id < |a.flights| && a.flights[m.id].open
  }

  function Moved(cfg: Config, a: Air, m: Move): Air
    requires Can(a, m)
  {
    match m
    case Check(tenant, q, today) =>
      var at := Rolled(a.tally, today);
      Air(at, if Judge(cfg, at, tenant, Withdraw, q) == Pass then a.flights + [Flight(tenant, q, true)] else a.flights)
    case Fall(id) => a.(flights := a.flights[id := a.flights[id].(open := false)])
    case Land(id, today) =>
      var f := a.flights[id];
      Air(Recorded(Rolled(a.tally, today), f.tenant, f.q), a.flights[id := f.(open := false)])
    case Restart => Air(Tally(a.tally.cap, "", map[]), [])
  }

  function Carries(f: Flight, t: string): int { if f.tenant == t && f.open then f.q else 0 }

  function Cargo(fs: seq<Flight>, t: string): seq<int> {
    seq(|fs|, i requires 0 <= i < |fs| => Carries(fs[i], t))
  }

  /** At every point of the run at most n withdrawals of t are under way. */
  predicate Crowded(cfg: Config, a: Air, ms: seq<Move>, t: string, n: nat)
    decreases ms
  {
    && Positive(Cargo(a.flights, t)) <= n
    && (ms == [] || (Can(a, ms[0]) && Crowded(cfg, Moved(cfg, a, ms[0]), ms[1..], t, n)))
  }

  function Aloft(cfg: Config, a: Air, ms: seq<Move>, t: string, n: nat): Air
    requires Crowded(cfg, a, ms, t, n)
    decreases ms
  {
    if ms == [] then a else Aloft(cfg, Moved(cfg, a, ms[0]), ms[1..], t, n)
  }

  ghost predicate Bounded(a: Air, t: string, n: nat) {
    && (forall i :: 0 <= i < |a.flights| ==> Carries(a.flights[i], t) <= a.tally.cap)
    && UsedBy(a.tally, t) + Sum(Cargo(a.flights, t)) <= n * a.tally.cap
  }

  lemma CargoUpdate(fs: seq<Flight>, id: nat, f: Flight, t: string)
    requires id < |fs|
    ensures Sum(Cargo(fs[id := f], t)) == Sum(Cargo(fs, t)) - Carries(fs[id], t) + Carries(f, t)
  {
    hide Carries, Sum;
    SumUpdate(Cargo(fs, t), id, Carries(f, t));
    assert Cargo(fs[id := f], t) == Cargo(fs, t)[id := Carries(f, t)];
  }

  lemma CheckBounded(cfg: Config, a: Air, m: Move, t: string, n: nat)
    requires m.Check? && DailyCap(cfg) == Some(a.tally.cap) && Bounded(a, t, n)
    requires Positive(Cargo(Moved(cfg, a, m).flights, t)) <= n
    ensures Bounded(Moved(cfg, a, m), t, n)
  {
    hide Human.QuantumsToHuman, Sum, Positive, PerToolCap;
    var at, b := Rolled(a.tally, m.today), Moved(cfg, a, m);
    if Judge(cfg, at, m.tenant, Withdraw, m.q) == Pass {
      var f := Flight(m.tenant, m.q, true);
      assert Cargo(b.flights, t) == Cargo(a.flights, t) + [Carries(f, t)];
      SumSnoc(Cargo(a.flights, t), Carries(f, t));
      SumBound(Cargo(a.flights, t), a.tally.cap);
      if Carries(f, t) > 0 { Room(Positive(Cargo(a.flights, t)), n, a.tally.cap); }
    }
  }

  lemma Room(p: nat, n: nat, cap: nat)
    requires p + 1 <= n
    ensures p * cap + cap <= n * cap
  {
    assert (n - p - 1) * cap >= 0;
    assert n * cap == p * cap + cap + (n - p - 1) * cap;
  }

  lemma MoveBounded(cfg: Config, a: Air, m: Move, t: string, n: nat)
    requires Can(a, m) && DailyCap(cfg) == Some(a.tally.cap) && Bounded(a, t, n)
    requires Positive(Cargo(Moved(cfg, a, m).flights, t)) <= n
    ensures Bounded(Moved(cfg, a, m), t, n) && Moved(cfg, a, m).tally.cap == a.tally.cap
  {
    hide Judge, Sum, Positive;
    match m
    case Check(_, _, _) => CheckBounded(cfg, a, m, t, n);
    case Fall(id) => CargoUpdate(a.flights, id, a.flights[id].(open := false), t);
    case Land(id, _) => CargoUpdate(a.flights, id, a.flights[id].(open := false), t);
    case Restart => SumZero(Cargo([], t));
  }

  /** The gap between check and record, measured: with at most n withdrawals of a tenant under way, what is booked
      and what is under way never exceed n daily caps, under any clock and any interleaving. */
  lemma {:induction false} InFlightWithinCaps(cfg: Config, a: Air, ms: seq<Move>, t: string, n: nat)
    requires DailyCap(cfg) == Some(a.tally.cap) && Bounded(a, t, n) && Crowded(cfg, a, ms, t, n)
    ensures Bounded(Aloft(cfg, a, ms, t, n), t, n)
    decreases |ms|
  {
    hide Moved, Bounded, Can, Cargo, Positive;
    if ms != [] {
      MoveBounded(cfg, a, ms[0], t, n);
      InFlightWithinCaps(cfg, Moved(cfg, a, ms[0]), ms[1..], t, n);
    }
  }
}
