/** What leaves the wallet, as against what the meter says: every coin the chain took is booked, still to be
    booked, or lost, and the losses are what the daily spending can exceed the bound by. */
module Spending {
  import opened Prelude
  import opened Sums
  import opened Broadcast
  import opened Conservation
  import T = TransferOut
  import I = Idempotency

  // ---- Where a coin can be ------------------------------------------------------

  /** The chain took the broadcast on that day and it moves some of o's y. */
  predicate Paid(t: Thread, o: string, y: string, day: string) {
    t.owner == o && t.taken && t.sentOn == day && y in t.amounts && t.amounts[y] > 0
  }

  function SpentOf(ts: seq<Thread>, o: string, y: string, day: string): seq<int> {
    seq(|ts|, i requires 0 <= i < |ts| => if Paid(ts[i], o, y, day) then ts[i].amounts[y] else 0)
  }

  /** What the chain took out of o's wallet that day. */
  function SpentOn(s: Sys, o: string, y: string, day: string): int { Sum(SpentOf(s.threads, o, y, day)) }

  /** In the tally. */
  predicate Stands(s: Sys, i: nat, y: string)
    requires i < |s.threads|
  {
    y in s.threads[i].recorded && Booking(i, y) !in s.forgotten
  }

  /** Accepted, still to be recorded. */
  predicate Waits(t: Thread, y: string) { t.phase.Recording? && y in t.phase.todo }

  /** Never to be recorded, because its server life is over or the reply was an error, or recorded and forgotten. */
  predicate Missing(s: Sys, i: nat, y: string)
    requires i < |s.threads|
  {
    (s.threads[i].phase.Ended? && y !in s.threads[i].recorded) || Booking(i, y) in s.forgotten
  }

  function StandingOf(s: Sys, o: string, y: string, day: string): seq<int> {
    seq(|s.threads|, i requires 0 <= i < |s.threads| =>
      if Paid(s.threads[i], o, y, day) && Stands(s, i, y) then s.threads[i].amounts[y] else 0)
  }

  function WaitingOf(s: Sys, o: string, y: string, day: string): seq<int> {
    seq(|s.threads|, i requires 0 <= i < |s.threads| =>
      if Paid(s.threads[i], o, y, day) && Waits(s.threads[i], y) then s.threads[i].amounts[y] else 0)
  }

  function LostOf(s: Sys, o: string, y: string, day: string): seq<int> {
    seq(|s.threads|, i requires 0 <= i < |s.threads| =>
      if Paid(s.threads[i], o, y, day) && Missing(s, i, y) then s.threads[i].amounts[y] else 0)
  }

  function StandingOn(s: Sys, o: string, y: string, day: string): int { Sum(StandingOf(s, o, y, day)) }

  function WaitingOn(s: Sys, o: string, y: string, day: string): int { Sum(WaitingOf(s, o, y, day)) }

  function LostOn(s: Sys, o: string, y: string, day: string): int { Sum(LostOf(s, o, y, day)) }

  /** Conservation of money, in every reachable state and under any clock: what the chain took is booked, or waiting
      to be, or lost. */
  lemma EveryCoinAccounted(persistent: bool, cfg: Config, es: seq<Event>, o: string, y: string, day: string)
    requires Valid(cfg, Fresh(persistent), es)
    ensures var s := Final(cfg, Fresh(persistent), es);
            SpentOn(s, o, y, day) == StandingOn(s, o, y, day) + WaitingOn(s, o, y, day) + LostOn(s, o, y, day)
  {
    hide Valid, Final, SpentOn, StandingOn, WaitingOn, LostOn;
    RunOrderly(cfg, Fresh(persistent), es);
    RunListed(cfg, Fresh(persistent), es);
    Accounted(Final(cfg, Fresh(persistent), es), o, y, day);
  }

  lemma Accounted(s: Sys, o: string, y: string, day: string)
    requires Listed(s) && AllOrderly(s)
    ensures SpentOn(s, o, y, day) == StandingOn(s, o, y, day) + WaitingOn(s, o, y, day) + LostOn(s, o, y, day)
  {
    hide Sum, Listed;
    var a, b, c := StandingOf(s, o, y, day), WaitingOf(s, o, y, day), LostOf(s, o, y, day);
    var ab := seq(|a|, i requires 0 <= i < |a| => a[i] + b[i]);
    SumPlus(a, b, ab);
    forall i | 0 <= i < |ab| ensures SpentOf(s.threads, o, y, day)[i] == ab[i] + c[i] {
      assert Orderly(s.threads[i]);
      ForgottenWasBooked(s, i, y);
    }
    SumPlus(ab, c, SpentOf(s.threads, o, y, day));
  }

  lemma ForgottenWasBooked(s: Sys, i: nat, y: string)
    requires Listed(s) && i < |s.threads|
    ensures Booking(i, y) in s.forgotten + s.unsaved ==> y in s.threads[i].recorded
  {
  }

  // ---- When a coin is lost --------------------------------------------------------

  /** A restart in this state loses the broadcast's y: the chain took it and it is not recorded yet, or its record
      is on no file. */
  predicate AtRisk(s: Sys, i: nat, o: string, y: string, day: string) {
    && i < |s.threads| && Paid(s.threads[i], o, y, day)
    && (Waits(s.threads[i], y) || (Booking(i, y) in s.unsaved && Booking(i, y) !in s.forgotten))
  }

  /** The event loses the broadcast's y: a restart that finds it at risk, or a send the chain takes while the server is
      told that it failed. */
  predicate Loses(s: Sys, e: Event, i: nat, o: string, y: string, day: string) {
    || (e.Restart? && AtRisk(s, i, o, y, day))
    || (e.Submit? && e.id == i < |s.threads| && !e.accepted
        && Paid(Sent(s.threads[i], false, e.taken, e.today), o, y, day))
  }

  /** How one step moves the loss on one broadcast. */
  lemma LostEntry(cfg: Config, s: Sys, e: Event, i: nat, o: string, y: string, day: string)
    requires Enabled(s, e) && Listed(s) && AllOrderly(s) && i < |s.threads|
    ensures i < |Next(cfg, s, e).threads|
    ensures var l, l' := LostOf(s, o, y, day)[i], LostOf(Next(cfg, s, e), o, y, day)[i];
            l <= l' && (l < l' <==> Loses(s, e, i, o, y, day))
  {
    assert Orderly(s.threads[i]);
    ForgottenWasBooked(s, i, y);
    ForgottenStep(cfg, s, e);
    hide T.Step, Saves, T.Restarted, Outflow, I.Accepts, T.Loads, Listed;
  }

  /** Losses never shrink, and they grow exactly at an event that loses a coin. */
  lemma LostGrowsIff(persistent: bool, cfg: Config, es: seq<Event>, e: Event, o: string, y: string, day: string)
    requires Valid(cfg, Fresh(persistent), es) && Enabled(Final(cfg, Fresh(persistent), es), e)
    ensures var s := Final(cfg, Fresh(persistent), es);
            && LostOn(s, o, y, day) <= LostOn(Next(cfg, s, e), o, y, day)
            && (LostOn(s, o, y, day) < LostOn(Next(cfg, s, e), o, y, day)
                <==> exists i: nat :: Loses(s, e, i, o, y, day))
  {
    hide Valid, Final, Enabled, Next, LostOn, Loses;
    RunOrderly(cfg, Fresh(persistent), es);
    RunListed(cfg, Fresh(persistent), es);
    LostStep(cfg, Final(cfg, Fresh(persistent), es), e, o, y, day);
  }

  lemma LostStep(cfg: Config, s: Sys, e: Event, o: string, y: string, day: string)
    requires Enabled(s, e) && Listed(s) && AllOrderly(s)
    ensures LostOn(s, o, y, day) <= LostOn(Next(cfg, s, e), o, y, day)
    ensures LostOn(s, o, y, day) < LostOn(Next(cfg, s, e), o, y, day) <==> exists i: nat :: Loses(s, e, i, o, y, day)
  {
    var s', n := Next(cfg, s, e), |s.threads|;
    var a, b := LostOf(s, o, y, day), LostOf(s', o, y, day);
    forall i | 0 <= i < n
      ensures i < |s'.threads| && a[i] <= b[i] && (a[i] < b[i] <==> Loses(s, e, i, o, y, day))
    {
      LostEntry(cfg, s, e, i, o, y, day);
    }
    NewcomerLosesNothing(cfg, s, e, o, y, day);
    hide Sum, Next, LostOf, Paid, Waits, Listed, AllOrderly;
    assert |a| == n by { LostLength(s, o, y, day); }
    SumMonotone(a, b[..n]);
    if i: nat :| Loses(s, e, i, o, y, day) { assert a[i] < b[..n][i]; }
  }

  lemma LostLength(s: Sys, o: string, y: string, day: string)
    ensures |LostOf(s, o, y, day)| == |s.threads|
  {
  }

  lemma NewcomerLosesNothing(cfg: Config, s: Sys, e: Event, o: string, y: string, day: string)
    requires Enabled(s, e)
    ensures var b := LostOf(Next(cfg, s, e), o, y, day);
            |b| >= |s.threads| && Sum(b) == Sum(b[..|s.threads|])
  {
    hide T.Step, Saves, T.Restarted, Outflow, I.Accepts, T.Loads, Sum;
    var s', n := Next(cfg, s, e), |s.threads|;
    var b := LostOf(s', o, y, day);
    if |s'.threads| > n {
      assert b == b[..n] + [0];
      SumSnoc(b[..n], 0);
    } else {
      assert b[..n] == b;
    }
  }

  // ---- Days -----------------------------------------------------------------------

  /** What was sent today is booked today, if it is booked. */
  ghost predicate Dated(s: Sys) {
    forall i :: 0 <= i < |s.threads| && (s.threads[i].taken || s.threads[i].accepted) ==> DatedThread(s, s.threads[i])
  }

  ghost predicate DatedThread(s: Sys, t: Thread) {
    && t.sentOn in s.over + {s.clock}
    && (t.sentOn == s.clock ==> forall y :: y in t.recorded ==> t.recorded[y] == s.clock)
  }

  lemma StepDated(cfg: Config, s: Sys, e: Event)
    requires Enabled(s, e) && NotOver(s, e) && AllOrderly(s) && Known(s) && Dated(s)
    ensures Dated(Next(cfg, s, e))
  {
    hide T.Step, Saves, T.Restarted, Outflow, I.Accepts, T.Loads;
    forall i | 0 <= i < |s.threads| ensures Orderly(s.threads[i]) { }
  }

  lemma {:induction false} RunDated(cfg: Config, s: Sys, es: seq<Event>)
    requires Valid(cfg, s, es) && Clocked(cfg, s, es) && Exact(s) && Dated(s)
    ensures Dated(Final(cfg, s, es))
    decreases |es|
  {
    hide Exact, Dated, Next, Enabled, NotOver;
    if es != [] {
      ExactParts(s);
      StepDated(cfg, s, es[0]);
      StepExact(cfg, s, es[0]);
      RunDated(cfg, Next(cfg, s, es[0]), es[1..]);
    }
  }

  /** Booked on that day for a broadcast the chain took on an earlier one, or not at all. */
  function CarriedOf(s: Sys, o: string, y: string, day: string): seq<int> {
    seq(|s.threads|, i requires 0 <= i < |s.threads| =>
      if Booking(i, y) in s.forgotten || Paid(s.threads[i], o, y, day) then 0 else Booked(s.threads[i], o, y, day))
  }

  function CarriedOn(s: Sys, o: string, y: string, day: string): int { Sum(CarriedOf(s, o, y, day)) }

  /** The day's account, in every reachable state: what the chain took today, plus what today's tally carries of other
      days, is what the meter answers, plus what waits, plus what is lost of today. */
  lemma SpentWithinADay(persistent: bool, cfg: Config, es: seq<Event>, o: string, y: string, w: T.WriteOutcome)
    requires Valid(cfg, Fresh(persistent), es) && Clocked(cfg, Fresh(persistent), es)
    ensures var s := Final(cfg, Fresh(persistent), es);
            T.Step(s.meter, s.clock, T.Used(o, y), w, w).1 ==
            T.UsedIs(SpentOn(s, o, y, s.clock) + CarriedOn(s, o, y, s.clock)
                     - WaitingOn(s, o, y, s.clock) - LostOn(s, o, y, s.clock))
  {
    hide Valid, Clocked, Final, SpentOn, WaitingOn, LostOn, CarriedOn, Exact, T.Step, ForgottenOn, BookedOn, KeptOn;
    FreshExact(persistent);
    ReachableIsExact(persistent, cfg, es);
    RunDated(cfg, Fresh(persistent), es);
    var s := Final(cfg, Fresh(persistent), es);
    ExactParts(s);
    assert s.clock !in s.over by { ClockIsNew(s); }
    UsedIsTodaysBookings(persistent, cfg, es, o, y, s.clock, w);
    KeptIsForgottenRest(s, o, y);
    StandingAndCarried(s, o, y);
    Accounted(s, o, y, s.clock);
  }

  lemma ClockIsNew(s: Sys)
    requires Known(s)
    ensures s.clock !in s.over
  {
  }

  lemma KeptIsForgottenRest(s: Sys, o: string, y: string)
    ensures KeptOn(s.threads, s.forgotten, o, y, s.clock) ==
            BookedOn(s.threads, o, y, s.clock) - ForgottenOn(s, o, y, s.clock)
  {
    KeptAndGone(s.threads, s.forgotten, o, y, s.clock);
  }

  lemma StandingAndCarried(s: Sys, o: string, y: string)
    requires AllOrderly(s) && Dated(s)
    ensures KeptOn(s.threads, s.forgotten, o, y, s.clock) == StandingOn(s, o, y, s.clock) + CarriedOn(s, o, y, s.clock)
  {
    hide Sum;
    var a, b := StandingOf(s, o, y, s.clock), CarriedOf(s, o, y, s.clock);
    var c := KeptOf(s.threads, s.forgotten, o, y, s.clock);
    forall i | 0 <= i < |c| ensures c[i] == a[i] + b[i] { assert Orderly(s.threads[i]); }
    SumPlus(a, b, c);
  }

  /** What stands of today's sends is in today's tally. */
  lemma StandingIsUsed(s: Sys, o: string, y: string)
    requires Exact(s) && Dated(s) && 0 <= Used(s, o, y)
    ensures StandingOn(s, o, y, s.clock) <= Used(s, o, y)
  {
    ExactParts(s);
    var a, b := StandingOf(s, o, y, s.clock), KeptOf(s.threads, s.forgotten, o, y, s.meter.store.day);
    forall i | 0 <= i < |a| ensures a[i] <= b[i] {
      assert Orderly(s.threads[i]);
      if a[i] != 0 { assert s.threads[i].recorded[y] == s.clock; }
    }
    SumMonotone(a, b);
  }

  lemma WaitingIsInFlight(s: Sys, o: string, y: string, day: string)
    ensures WaitingOn(s, o, y, day) <= InFlight(s, o, y)
  {
    hide Sum;
    SumMonotone(WaitingOf(s, o, y, day), HeldOf(s.threads, o, y));
  }

  // ---- The bound on spending --------------------------------------------------------

  /** A day the clock is not showing is closed. */
  lemma SpentFrozen(cfg: Config, s: Sys, e: Event, o: string, y: string, day: string)
    requires Enabled(s, e) && AllOrderly(s) && day != Next(cfg, s, e).clock
    ensures SpentOn(Next(cfg, s, e), o, y, day) == SpentOn(s, o, y, day)
  {
    hide T.Step, Saves, T.Restarted, Outflow, I.Accepts, T.Loads, Sum;
    var s', n := Next(cfg, s, e), |s.threads|;
    var a, b := SpentOf(s.threads, o, y, day), SpentOf(s'.threads, o, y, day);
    forall i | 0 <= i < n ensures a[i] == b[i] { assert Orderly(s.threads[i]); }
    if |s'.threads| > n {
      assert b == a + [0];
      SumSnoc(a, 0);
    } else {
      assert a == b;
    }
  }

  lemma SpentToday(n: nat, s: Sys, o: string, y: string, k: nat)
    requires Exact(s) && Dated(s) && Within(s, o, y, k) && Bounded(n, s, o, y, k)
    ensures SpentOn(s, o, y, s.clock) <= n * k + LostOn(s, o, y, s.clock)
  {
    ExactParts(s);
    Accounted(s, o, y, s.clock);
    StandingIsUsed(s, o, y);
    WaitingIsInFlight(s, o, y, s.clock);
  }

  /** Nothing was sent on a day the clock has not shown. */
  lemma UnseenUnspent(s: Sys, o: string, y: string, day: string)
    requires Dated(s) && day !in s.over && day != s.clock
    ensures SpentOn(s, o, y, day) == 0 == LostOn(s, o, y, day)
  {
    SumZero(SpentOf(s.threads, o, y, day));
    SumZero(LostOf(s, o, y, day));
  }

  /** Everything the bound rests on: the agreement of store, file and threads, and the bound of the tally. */
  ghost predicate Sound(n: nat, restarts: bool, s: Sys, o: string, y: string, k: nat) {
    && Exact(s) && Dated(s) && Within(s, o, y, k) && Bounded(n, s, o, y, k)
    && (restarts ==> FileBounded(n, s, o, y, k))
  }

  lemma SoundStep(n: nat, restarts: bool, cfg: Config, s: Sys, e: Event, o: string, y: string, k: nat)
    requires Sound(n, restarts, s, o, y, k) && Enabled(s, e) && NotOver(s, e)
    requires KeepsCap(e, o, y, k) && (e.Restart? ==> restarts) && Concurrency(Next(cfg, s, e), o, y) <= n
    ensures Sound(n, restarts, Next(cfg, s, e), o, y, k)
  {
    hide Exact, Dated, Within, Bounded, FileBounded, Next, Enabled, NotOver, KeepsCap, Concurrency;
    ExactParts(s);
    StepExact(cfg, s, e);
    StepDated(cfg, s, e);
    StepKeeps(n, restarts, cfg, s, e, o, y, k);
  }

  lemma SoundParts(n: nat, restarts: bool, s: Sys, o: string, y: string, k: nat)
    requires Sound(n, restarts, s, o, y, k)
    ensures Exact(s) && Dated(s) && Known(s) && Listed(s) && AllOrderly(s)
    ensures SpentOn(s, o, y, s.clock) <= n * k + LostOn(s, o, y, s.clock)
  {
    hide Exact, Dated, SpentOn, LostOn, Within, Bounded, FileBounded;
    ExactParts(s);
    SpentToday(n, s, o, y, k);
  }

  predicate DayBounded(n: nat, s: Sys, o: string, y: string, k: nat, day: string) {
    SpentOn(s, o, y, day) <= n * k + LostOn(s, o, y, day)
  }

  lemma StepDay(n: nat, restarts: bool, cfg: Config, s: Sys, e: Event, o: string, y: string, k: nat, day: string)
    requires Sound(n, restarts, s, o, y, k) && Enabled(s, e) && DayBounded(n, s, o, y, k, day)
    requires Sound(n, restarts, Next(cfg, s, e), o, y, k)
    ensures DayBounded(n, Next(cfg, s, e), o, y, k, day)
  {
    hide Sound, Next, Enabled, SpentOn, LostOn, Known, Listed, AllOrderly, Exact, Dated;
    SoundParts(n, restarts, s, o, y, k);
    SoundParts(n, restarts, Next(cfg, s, e), o, y, k);
    if day != Next(cfg, s, e).clock {
      SpentFrozen(cfg, s, e, o, y, day);
      LostStep(cfg, s, e, o, y, day);
    }
  }

  /** What is lost of the day by the time it is over, or by the end of the run. */
  function LostByClose(cfg: Config, s: Sys, es: seq<Event>, o: string, y: string, day: string): int
    requires Valid(cfg, s, es)
    decreases es
  {
    if es == [] || day in s.over then LostOn(s, o, y, day)
    else LostByClose(cfg, Next(cfg, s, es[0]), es[1..], o, y, day)
  }

  lemma OverStays(cfg: Config, s: Sys, e: Event, day: string)
    requires Enabled(s, e) && day in s.over
    ensures day in Next(cfg, s, e).over
  {
    hide T.Step, Saves, T.Restarted, Outflow, I.Accepts, T.Loads;
  }

  /** Once a day is over, nothing is sent on it. */
  lemma {:induction false} ClosedForGood(cfg: Config, s: Sys, es: seq<Event>, o: string, y: string, day: string)
    requires Valid(cfg, s, es) && Clocked(cfg, s, es) && Exact(s) && day in s.over
    ensures SpentOn(Final(cfg, s, es), o, y, day) == SpentOn(s, o, y, day)
    decreases |es|
  {
    hide Next, Enabled, NotOver, Exact, SpentOn, Known, Listed, AllOrderly;
    if es != [] {
      var s' := Next(cfg, s, es[0]);
      ExactParts(s);
      StepExact(cfg, s, es[0]);
      ExactParts(s');
      ClockIsNew(s');
      OverStays(cfg, s, es[0], day);
      SpentFrozen(cfg, s, es[0], o, y, day);
      ClosedForGood(cfg, s', es[1..], o, y, day);
    }
  }

  lemma {:induction false} RunDay(
    n: nat, restarts: bool, cfg: Config, s: Sys, es: seq<Event>, o: string, y: string, k: nat, day: string)
    requires Valid(cfg, s, es) && Clocked(cfg, s, es) && AtMost(n, cfg, s, es, o, y)
    requires forall i :: 0 <= i < |es| ==> KeepsCap(es[i], o, y, k) && (es[i].Restart? ==> restarts)
    requires Sound(n, restarts, s, o, y, k) && DayBounded(n, s, o, y, k, day)
    ensures SpentOn(Final(cfg, s, es), o, y, day) <= n * k + LostByClose(cfg, s, es, o, y, day)
    decreases |es|
  {
    hide Next, Concurrency, Enabled, KeepsCap, NotOver, Sound, Exact, Dated, SpentOn, LostOn;
    if es != [] {
      SoundParts(n, restarts, s, o, y, k);
      if day in s.over {
        ClosedForGood(cfg, s, es, o, y, day);
      } else {
        SoundStep(n, restarts, cfg, s, es[0], o, y, k);
        StepDay(n, restarts, cfg, s, es[0], o, y, k, day);
        RunDay(n, restarts, cfg, Next(cfg, s, es[0]), es[1..], o, y, k, day);
      }
    }
  }

  /** A run from an empty server, under a clock that does not return to a day, leads to s. */
  ghost predicate Reached(persistent: bool, cfg: Config, pre: seq<Event>, s: Sys) {
    && Valid(cfg, Fresh(persistent), pre) && Clocked(cfg, Fresh(persistent), pre)
    && Final(cfg, Fresh(persistent), pre) == s
  }

  ghost predicate Reachable(cfg: Config, s: Sys) {
    exists persistent: bool, pre: seq<Event> :: Reached(persistent, cfg, pre, s)
  }

  lemma ReachableIsSound(n: nat, restarts: bool, cfg: Config, s: Sys, o: string, y: string, k: nat)
    requires Reachable(cfg, s)
    requires Within(s, o, y, k) && Bounded(n, s, o, y, k) && (restarts ==> FileBounded(n, s, o, y, k))
    ensures Sound(n, restarts, s, o, y, k)
  {
    hide Valid, Clocked, Final, Exact, Dated, Within, Bounded, FileBounded;
    var persistent, pre :| Reached(persistent, cfg, pre, s);
    FreshExact(persistent);
    ReachableIsExact(persistent, cfg, pre);
    assert Dated(Fresh(persistent)) by { FreshDated(persistent); }
    RunDated(cfg, Fresh(persistent), pre);
  }

  lemma FreshDated(persistent: bool)
    ensures Dated(Fresh(persistent))
  {
  }

  /** The bound on what leaves the wallet. From any reachable state in which the cap of (o, y) is k and the tally plus
      what is in flight is within n caps: while the cap stays and at most n broadcasts stand between check and record,
      the chain takes, on every day not over yet, at most n caps plus what is lost of that day while it lasts. */
  lemma SpendSafety(
    n: nat, restarts: bool, cfg: Config, s: Sys, es: seq<Event>, o: string, y: string, k: nat, day: string)
    requires Reachable(cfg, s) && day !in s.over
    requires Within(s, o, y, k) && Bounded(n, s, o, y, k) && (restarts ==> FileBounded(n, s, o, y, k))
    requires Valid(cfg, s, es) && Clocked(cfg, s, es) && AtMost(n, cfg, s, es, o, y)
    requires forall i :: 0 <= i < |es| ==> KeepsCap(es[i], o, y, k) && (es[i].Restart? ==> restarts)
    ensures SpentOn(Final(cfg, s, es), o, y, day) <= n * k + LostByClose(cfg, s, es, o, y, day)
  {
    hide Valid, Clocked, AtMost, KeepsCap, Within, Bounded, FileBounded, Reachable, Sound, Exact, Dated;
    hide SpentOn, LostOn, LostByClose, Final;
    ReachableIsSound(n, restarts, cfg, s, o, y, k);
    SoundParts(n, restarts, s, o, y, k);
    if day != s.clock { UnseenUnspent(s, o, y, day); }
    RunDay(n, restarts, cfg, s, es, o, y, k, day);
  }

  // ---- Exactly when a day sees a loss -------------------------------------------------

  /** Some event of the run loses a coin of that day. */
  ghost predicate Risks(cfg: Config, s: Sys, es: seq<Event>, o: string, y: string, day: string)
    requires Valid(cfg, s, es)
    decreases es
  {
    && es != []
    && ((exists i: nat :: Loses(s, es[0], i, o, y, day)) || Risks(cfg, Next(cfg, s, es[0]), es[1..], o, y, day))
  }

  lemma {:induction false} LostIff(cfg: Config, s: Sys, es: seq<Event>, o: string, y: string, day: string)
    requires Valid(cfg, s, es) && Listed(s) && AllOrderly(s)
    ensures LostOn(s, o, y, day) <= LostOn(Final(cfg, s, es), o, y, day)
    ensures LostOn(s, o, y, day) < LostOn(Final(cfg, s, es), o, y, day) <==> Risks(cfg, s, es, o, y, day)
    decreases |es|
  {
    hide Next, Enabled, Listed, AllOrderly, LostOn, Loses;
    if es != [] {
      LostStep(cfg, s, es[0], o, y, day);
      StepOrderly(cfg, s, es[0]);
      StepListed(cfg, s, es[0]);
      LostIff(cfg, Next(cfg, s, es[0]), es[1..], o, y, day);
    }
  }

  /** Some event loses a coin of that day before the day is over. */
  ghost predicate RisksOpen(cfg: Config, s: Sys, es: seq<Event>, o: string, y: string, day: string)
    requires Valid(cfg, s, es)
    decreases es
  {
    && es != [] && day !in s.over
    && ((exists i: nat :: Loses(s, es[0], i, o, y, day)) || RisksOpen(cfg, Next(cfg, s, es[0]), es[1..], o, y, day))
  }

  lemma {:induction false} LostByCloseIff(cfg: Config, s: Sys, es: seq<Event>, o: string, y: string, day: string)
    requires Valid(cfg, s, es) && Listed(s) && AllOrderly(s)
    ensures LostOn(s, o, y, day) <= LostByClose(cfg, s, es, o, y, day)
    ensures LostOn(s, o, y, day) < LostByClose(cfg, s, es, o, y, day) <==> RisksOpen(cfg, s, es, o, y, day)
    decreases |es|
  {
    hide Next, Enabled, Listed, AllOrderly, LostOn, Loses;
    if es != [] && day !in s.over {
      LostStep(cfg, s, es[0], o, y, day);
      StepOrderly(cfg, s, es[0]);
      StepListed(cfg, s, es[0]);
      LostByCloseIff(cfg, Next(cfg, s, es[0]), es[1..], o, y, day);
    }
  }

  /** So when no event of the run loses a coin of the day while it lasts, the wallet spends on that day at most n caps,
      on top of what was lost of it before: with one broadcast at a time, at most the cap. */
  lemma SpendsWithinCaps(
    n: nat, restarts: bool, cfg: Config, s: Sys, es: seq<Event>, o: string, y: string, k: nat, day: string)
    requires Reachable(cfg, s) && day !in s.over
    requires Within(s, o, y, k) && Bounded(n, s, o, y, k) && (restarts ==> FileBounded(n, s, o, y, k))
    requires Valid(cfg, s, es) && Clocked(cfg, s, es) && AtMost(n, cfg, s, es, o, y)
    requires forall i :: 0 <= i < |es| ==> KeepsCap(es[i], o, y, k) && (es[i].Restart? ==> restarts)
    requires !RisksOpen(cfg, s, es, o, y, day)
    ensures SpentOn(Final(cfg, s, es), o, y, day) <= n * k + LostOn(s, o, y, day)
    ensures day != s.clock ==> SpentOn(Final(cfg, s, es), o, y, day) <= n * k
  {
    hide Valid, Clocked, AtMost, KeepsCap, Within, Bounded, FileBounded, Reachable, Sound, Exact, Dated;
    hide SpentOn, LostOn, LostByClose, Final, RisksOpen, Listed, AllOrderly;
    SpendSafety(n, restarts, cfg, s, es, o, y, k, day);
    ReachableIsSound(n, restarts, cfg, s, o, y, k);
    SoundParts(n, restarts, s, o, y, k);
    LostByCloseIff(cfg, s, es, o, y, day);
    if day != s.clock { UnseenUnspent(s, o, y, day); }
  }
}
