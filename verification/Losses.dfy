/** Two runs that show what a restart costs: money spent twice over the cap with a tally of nothing, and a tally
    that drops a booking it had made. */
module Losses {
  import opened Prelude
  import opened Sums
  import opened Broadcast
  import opened Conservation
  import opened Spending
  import T = TransferOut
  import I = Idempotency
  import Overshoot

  const DAY := "2026-01-01"

  // ---- Runs of one day -------------------------------------------------------------------

  /** The clock shows DAY, if the event reads it, and the cap stays. */
  predicate Tame(e: Event, o: string, k: nat) {
    && KeepsCap(e, o, "svp", k)
    && match e
       case CheckOne(_, _, today, _) => today == DAY
       case Submit(_, _, _, today) => today == DAY
       case RecordOne(_, _, today, _, _) => today == DAY
       case Manage(today, _, _, _) => today == DAY
       case _ => true
  }

  /** The tame run leads from s to m with at most one broadcast in flight at a time. */
  ghost predicate Trip(cfg: Config, s: Sys, es: seq<Event>, m: Sys, o: string, k: nat) {
    Overshoot.Path(cfg, s, es, m, 1, o) && forall i :: 0 <= i < |es| ==> Tame(es[i], o, k)
  }

  lemma TripSnoc(cfg: Config, s: Sys, es: seq<Event>, m: Sys, e: Event, o: string, k: nat)
    requires Trip(cfg, s, es, m, o, k) && Enabled(m, e) && Tame(e, o, k) && Concurrency(Next(cfg, m, e), o, "svp") <= 1
    ensures Trip(cfg, s, es + [e], Next(cfg, m, e), o, k)
  {
    hide Next, Enabled, Tame, Overshoot.Path, Concurrency;
    Overshoot.PathSnoc(cfg, s, es, m, e, 1, o);
  }

  /** A run that stays within one day meets the clock's condition. */
  lemma {:induction false} TameIsClocked(cfg: Config, s: Sys, es: seq<Event>, o: string, k: nat)
    requires Valid(cfg, s, es) && DAY !in s.over && forall i :: 0 <= i < |es| ==> Tame(es[i], o, k)
    ensures Clocked(cfg, s, es) && DAY !in Final(cfg, s, es).over
    decreases |es|
  {
    hide Next, Enabled, Tame;
    if es != [] {
      TameStep(cfg, s, es[0], o, k);
      TameIsClocked(cfg, Next(cfg, s, es[0]), es[1..], o, k);
    }
  }

  lemma TameStep(cfg: Config, s: Sys, e: Event, o: string, k: nat)
    requires Enabled(s, e) && Tame(e, o, k) && DAY !in s.over
    ensures NotOver(s, e) && DAY !in Next(cfg, s, e).over
  {
    hide T.Step, Saves, T.Restarted, Outflow, I.Accepts, T.Loads;
  }

  lemma TripParts(cfg: Config, s: Sys, es: seq<Event>, m: Sys, o: string, k: nat)
    requires Trip(cfg, s, es, m, o, k) && DAY !in s.over
    ensures Valid(cfg, s, es) && Final(cfg, s, es) == m && Clocked(cfg, s, es) && AtMost(1, cfg, s, es, o, "svp")
    ensures DAY !in m.over && forall i :: 0 <= i < |es| ==> KeepsCap(es[i], o, "svp", k)
  {
    hide Valid, Final, Clocked, AtMost;
    TameIsClocked(cfg, s, es, o, k);
    assert forall i :: 0 <= i < |es| ==> Tame(es[i], o, k);
  }

  // ---- One payment of a whole cap ------------------------------------------------------

  /** Every earlier broadcast is over and booked nothing. */
  ghost predicate Quiet(s: Sys, o: string, k: nat) {
    && Sound(1, true, s, o, "svp", k) && DAY !in s.over
    && forall i :: 0 <= i < |s.threads| ==> s.threads[i].phase.Ended? && s.threads[i].recorded == map[]
  }

  lemma UnbookedIsUnused(s: Sys, o: string, y: string)
    requires Exact(s) && forall i :: 0 <= i < |s.threads| ==> s.threads[i].recorded == map[]
    ensures Used(s, o, y) == 0
  {
    hide Sum, AllOrderly, T.Restarted, T.Loads;
    SumZero(KeptOf(s.threads, s.forgotten, o, y, s.meter.store.day));
  }

  lemma EndedHoldNothing(s: Sys, o: string, y: string)
    requires forall i :: 0 <= i < |s.threads| ==> s.threads[i].phase.Ended?
    ensures InFlight(s, o, y) == 0 && Concurrency(s, o, y) == 0
    ensures forall i :: 0 <= i < |s.threads| ==> Held(s.threads[i], o, y) == 0
  {
    SumZero(HeldOf(s.threads, o, y));
  }

  lemma QuietParts(s: Sys, o: string, k: nat)
    requires Quiet(s, o, k)
    ensures Used(s, o, "svp") == 0 && Concurrency(s, o, "svp") == 0 && Capped(s, o, "svp", k) && DAY !in s.over
  {
    hide Exact, FileBounded, Used, Concurrency, InFlight, Held, Dated;
    UnbookedIsUnused(s, o, "svp");
    EndedHoldNothing(s, o, "svp");
  }

  function Paying(s: Sys, o: string, k: nat, p: Phase, sent: nat, day: string, recorded: map<string, string>): Thread {
    Thread("t", "c", 0, s.boot, o, Overshoot.Spend(o, k), map["svp" := k], p, sent, day, sent > 0, sent > 0, recorded)
  }

  function Start1(o: string, k: nat): Event { Begin("t", "c", o, Overshoot.Spend(o, k), 0) }

  function Check1(s: Sys): Event { CheckOne(|s.threads|, "svp", DAY, T.Renamed) }

  function Submit1(s: Sys): Event { Submit(|s.threads|, true, true, DAY) }

  /** With at most one live broadcast the concurrency is at most one. */
  lemma OneLive(s: Sys, m: Sys, t: Thread, o: string)
    requires Concurrency(s, o, "svp") == 0 && m.threads == s.threads + [t]
    ensures Concurrency(m, o, "svp") <= 1
  {
    hide Sum, Positive, Held;
    SumSnoc(HeldOf(s.threads, o, "svp"), Held(t, o, "svp"));
    assert HeldOf(m.threads, o, "svp") == HeldOf(s.threads, o, "svp") + [Held(t, o, "svp")];
  }

  lemma Begun(cfg: Config, s: Sys, o: string, k: nat)
    requires I.Accepts(s.seen, "t", "c", 0)
    ensures var b := Next(cfg, s, Start1(o, k));
            && b.threads == s.threads + [Paying(s, o, k, Checking({"svp"}), 0, "", map[])]
            && b.meter == s.meter && b.over == s.over && b.clock == s.clock
            && b.forgotten == s.forgotten && b.unsaved == s.unsaved
  {
    hide Outflow;
    Overshoot.SpendTakesOut(cfg, o, k);
    assert map["svp" := k].Keys == {"svp"};
  }

  lemma CheckPasses(cfg: Config, s: Sys, b: Sys, o: string, k: nat)
    requires b.threads == s.threads + [Paying(s, o, k, Checking({"svp"}), 0, "", map[])]
    requires Capped(b, o, "svp", k) && Used(b, o, "svp") == 0
    ensures Enabled(b, Check1(s))
    ensures var c := Next(cfg, b, Check1(s));
            && c.threads == s.threads + [Paying(s, o, k, Checking({}), 0, "", map[])]
            && c.over == At(b, DAY).over && c.clock == DAY
            && c.meter.store.day == (if k > 0 then DAY else b.meter.store.day)
  {
    hide T.Encode, T.Decode, Saves;
    assert T.Judge(T.Rolled(b.meter.store, DAY), o, "svp", k).Pass?;
    assert {"svp"} - {"svp"} == {};
    var c := Next(cfg, b, Check1(s));
    assert c.threads[|s.threads|] == Paying(s, o, k, Checking({}), 0, "", map[]);
    assert c.threads == s.threads + [Paying(s, o, k, Checking({}), 0, "", map[])];
  }

  lemma Submitted(cfg: Config, s: Sys, c: Sys, o: string, k: nat)
    requires c.threads == s.threads + [Paying(s, o, k, Checking({}), 0, "", map[])]
    ensures Enabled(c, Submit1(s))
    ensures var d := Next(cfg, c, Submit1(s));
            && d.threads == s.threads + [Paying(s, o, k, Recording({"svp"}), 1, DAY, map[])]
            && d.clock == DAY && d.over == At(c, DAY).over && d.meter == c.meter
  {
    assert map["svp" := k].Keys == {"svp"};
    var d := Next(cfg, c, Submit1(s));
    assert d.threads[|s.threads|] == Paying(s, o, k, Recording({"svp"}), 1, DAY, map[]);
  }

  /** The payment of s's next broadcast was accepted and nothing else is under way. */
  ghost predicate JustPaid(s: Sys, d: Sys, o: string, k: nat) {
    && d.threads == s.threads + [Paying(s, o, k, Recording({"svp"}), 1, DAY, map[])]
    && d.clock == DAY && DAY !in d.over && d.meter.store.day == DAY
    && Sound(1, true, d, o, "svp", k) && Concurrency(d, o, "svp") <= 1
  }

  /** A tame step on a server with at most one broadcast in flight. */
  lemma Onward(cfg: Config, s0: Sys, es: seq<Event>, m: Sys, e: Event, o: string, k: nat)
    requires Trip(cfg, s0, es, m, o, k) && Enabled(m, e) && Tame(e, o, k) && DAY !in m.over
    requires Sound(1, true, m, o, "svp", k) && Concurrency(Next(cfg, m, e), o, "svp") <= 1
    ensures Trip(cfg, s0, es + [e], Next(cfg, m, e), o, k) && Sound(1, true, Next(cfg, m, e), o, "svp", k)
    ensures DAY !in Next(cfg, m, e).over
  {
    hide Next, Enabled, Sound, Concurrency, Trip;
    TripSnoc(cfg, s0, es, m, e, o, k);
    TameStep(cfg, m, e, o, k);
    SoundStep(1, true, cfg, m, e, o, "svp", k);
  }

  /** From a quiet server, a payment of the whole cap goes through. */
  lemma Pays(cfg: Config, s0: Sys, es0: seq<Event>, s: Sys, o: string, k: nat) returns (es: seq<Event>, d: Sys)
    requires k > 0 && Trip(cfg, s0, es0, s, o, k) && Quiet(s, o, k) && I.Accepts(s.seen, "t", "c", 0)
    ensures Trip(cfg, s0, es, d, o, k) && JustPaid(s, d, o, k)
  {
    hide Next, Sound, Concurrency, Capped, Exact, I.Accepts, Trip, Quiet;
    QuietParts(s, o, k);
    QuietIsSound(s, o, k);
    var b := Next(cfg, s, Start1(o, k));
    Begun(cfg, s, o, k);
    OneLive(s, b, b.threads[|s.threads|], o);
    Onward(cfg, s0, es0, s, Start1(o, k), o, k);
    SameMeter(s, b, o, k);
    CheckPasses(cfg, s, b, o, k);
    var c := Next(cfg, b, Check1(s));
    OneLive(s, c, c.threads[|s.threads|], o);
    Onward(cfg, s0, es0 + [Start1(o, k)], b, Check1(s), o, k);
    Submitted(cfg, s, c, o, k);
    d := Next(cfg, c, Submit1(s));
    OneLive(s, d, d.threads[|s.threads|], o);
    Onward(cfg, s0, es0 + [Start1(o, k)] + [Check1(s)], c, Submit1(s), o, k);
    es := es0 + [Start1(o, k)] + [Check1(s)] + [Submit1(s)];
  }

  lemma QuietIsSound(s: Sys, o: string, k: nat)
    requires Quiet(s, o, k)
    ensures Sound(1, true, s, o, "svp", k)
  {
  }

  lemma SameMeter(s: Sys, b: Sys, o: string, k: nat)
    requires b.meter == s.meter && Capped(s, o, "svp", k) && Used(s, o, "svp") == 0
    ensures Capped(b, o, "svp", k) && Used(b, o, "svp") == 0
  {
  }

  // ---- The server the runs start from -----------------------------------------------------

  function SetCap1(o: string, k: nat): Event {
    Manage(DAY, T.SetCap(o, T.SymbolCap("svp", 18, Some(k))), T.Renamed, T.Renamed)
  }

  /** An empty server on which the cap of o's native coin was set to k, and saved. */
  function CapSet(cfg: Config, o: string, k: nat): Sys { Next(cfg, Fresh(true), SetCap1(o, k)) }

  lemma CapSetIsExact(cfg: Config, o: string, k: nat)
    ensures Exact(CapSet(cfg, o, k))
  {
    hide Exact, T.Encode, T.Decode, T.Loads;
    FreshExact(true);
    StepExact(cfg, Fresh(true), SetCap1(o, k));
  }

  lemma CapSetShape(cfg: Config, o: string, k: nat)
    ensures var s := CapSet(cfg, o, k);
            && s.threads == [] && s.seen == map[] && DAY !in s.over && Capped(s, o, "svp", k)
            && s.meter.persistent && s.meter.file == Some(T.Encode(s.meter.store))
  {
    hide T.Encode, T.Decode, T.Loads;
  }

  lemma CapSetIsQuiet(cfg: Config, o: string, k: nat)
    ensures var s := CapSet(cfg, o, k);
            Quiet(s, o, k) && s.threads == [] && s.seen == map[] && Trip(cfg, s, [], s, o, k)
  {
    hide Exact, FileBounded, CapSet, T.Encode, Concurrency, InFlight, Held, Used, Sum;
    var s := CapSet(cfg, o, k);
    CapSetShape(cfg, o, k);
    CapSetIsExact(cfg, o, k);
    UnbookedIsUnused(s, o, "svp");
    EndedHoldNothing(s, o, "svp");
    OnFile(s, o, k);
  }

  lemma OnFile(s: Sys, o: string, k: nat)
    requires s.meter.persistent && s.meter.file == Some(T.Encode(s.meter.store))
    requires Capped(s, o, "svp", k) && Used(s, o, "svp") == 0
    ensures FileBounded(1, s, o, "svp", k)
  {
    hide T.Encode, T.Decode;
    EncodedBounded(1, s.meter, s.meter.store, o, "svp", k);
  }

  lemma CapSetIsReachable(cfg: Config, o: string, k: nat)
    ensures Reachable(cfg, CapSet(cfg, o, k))
  {
    hide Next;
    var pre := [SetCap1(o, k)];
    assert pre[1..] == [];
    var s := CapSet(cfg, o, k);
    assert Valid(cfg, s, []) && Final(cfg, s, []) == s && Clocked(cfg, s, []);
    assert Reached(true, cfg, pre, s);
  }

  // ---- Spending twice the cap ----------------------------------------------------------

  /** A restart after the payment leaves a quiet server. */
  lemma PaidThenRestarted(cfg: Config, s0: Sys, es: seq<Event>, s: Sys, d: Sys, o: string, k: nat)
    requires Quiet(s, o, k) && JustPaid(s, d, o, k) && Trip(cfg, s0, es, d, o, k)
    ensures Enabled(d, Restart)
    ensures var r := Next(cfg, d, Restart);
            && Quiet(r, o, k) && r.seen == map[] && r.threads == s.threads + [Paying(s, o, k, Ended, 1, DAY, map[])]
            && Trip(cfg, s0, es + [Restart], r, o, k)
  {
    hide Exact, Within, Bounded, FileBounded, Dated, T.Loads, Stopped, Trip, Concurrency, InFlight, Held;
    CanRestart(d);
    var r := Next(cfg, d, Restart);
    EndedThreads(s, d, o, k);
    assert r.threads == Stopped(d.threads);
    EndedHoldNothing(r, o, "svp");
    Onward(cfg, s0, es, d, Restart, o, k);
  }

  lemma CanRestart(d: Sys)
    requires Exact(d)
    ensures T.Loads(d.meter.file)
  {
  }

  lemma EndedThreads(s: Sys, d: Sys, o: string, k: nat)
    requires Quiet(s, o, k) && JustPaid(s, d, o, k)
    ensures Stopped(d.threads) == s.threads + [Paying(s, o, k, Ended, 1, DAY, map[])]
    ensures forall i :: 0 <= i < |d.threads| ==>
              Stopped(d.threads)[i].phase.Ended? && Stopped(d.threads)[i].recorded == map[]
  {
    hide Sound, Concurrency;
    forall i | 0 <= i < |s.threads| ensures Stopped(d.threads)[i] == s.threads[i] { assert s.threads[i].phase.Ended?; }
  }

  lemma SumOfTwo(a: int, b: int)
    ensures Sum([a, b]) == a + b
  {
    assert [a, b][..1] == [a] && [a][..0] == [];
    assert Sum([a]) == Sum([a][..0]) + a;
  }

  lemma NothingToForget(m: Sys, i: nat, o: string, k: nat)
    requires Sound(1, true, m, o, "svp", k) && i < |m.threads| && m.threads[i].recorded == map[]
    ensures Booking(i, "svp") !in m.forgotten
  {
    hide Within, Bounded, FileBounded, AllOrderly, Agrees, Dated;
  }

  lemma PaidTwice(x: Sys, r: Sys, m: Sys, o: string, k: nat)
    requires k > 0 && JustPaid(r, m, o, k) && r.threads == [Paying(x, o, k, Ended, 1, DAY, map[])]
    ensures Used(m, o, "svp") == 0 && LostOn(m, o, "svp", DAY) == k && SpentOn(m, o, "svp", DAY) == 2 * k
  {
    hide Sum, Sound, Exact, Concurrency;
    assert SpentOf(m.threads, o, "svp", DAY) == [k, k];
    NothingToForget(m, 0, o, k);
    NothingToForget(m, 1, o, k);
    assert LostOf(m, o, "svp", DAY) == [k, 0];
    SumOfTwo(k, k);
    SumOfTwo(k, 0);
    SoundParts(1, true, m, o, "svp", k);
    UnbookedIsUnused(m, o, "svp");
  }

  /** Broadcasts go out strictly one at a time, the cap never moves and every write succeeds, and yet the chain takes
      two caps in one day and the tally stands at zero: the server restarted between a send and its record. */
  lemma RestartSpendsTwice(cfg: Config, o: string, k: nat) returns (es: seq<Event>)
    requires k > 0
    ensures var s := CapSet(cfg, o, k);
            && Reachable(cfg, s) && DAY !in s.over
            && Within(s, o, "svp", k) && Bounded(1, s, o, "svp", k) && FileBounded(1, s, o, "svp", k)
            && Valid(cfg, s, es) && Clocked(cfg, s, es) && AtMost(1, cfg, s, es, o, "svp")
            && (forall i :: 0 <= i < |es| ==> KeepsCap(es[i], o, "svp", k))
            && var m := Final(cfg, s, es);
               Used(m, o, "svp") == 0 && LostOn(m, o, "svp", DAY) == k && SpentOn(m, o, "svp", DAY) == 2 * k
  {
    hide Next, JustPaid, SpentOn, LostOn, Valid, Clocked, AtMost, Final, Trip, Reachable, CapSet, KeepsCap, Used;
    hide Within, Bounded, FileBounded, Exact, Dated;
    var s := CapSet(cfg, o, k);
    CapSetIsReachable(cfg, o, k);
    CapSetIsQuiet(cfg, o, k);
    var d, m;
    es, d := Pays(cfg, s, [], s, o, k);
    PaidThenRestarted(cfg, s, es, s, d, o, k);
    var r := Next(cfg, d, Restart);
    es, m := Pays(cfg, s, es + [Restart], r, o, k);
    TripParts(cfg, s, es, m, o, k);
    PaidTwice(s, r, m, o, k);
  }

  // ---- Dropping a booking ----------------------------------------------------------------

  function Record1(s: Sys): Event { RecordOne(|s.threads|, "svp", DAY, T.Renamed, T.WriteFailed) }

  lemma RecordedUnsaved(cfg: Config, s: Sys, d: Sys, o: string, k: nat)
    requires k > 0 && JustPaid(s, d, o, k)
    ensures Enabled(d, Record1(s))
    ensures var m := Next(cfg, d, Record1(s));
            && m.threads == s.threads + [Paying(s, o, k, Recording({}), 1, DAY, map["svp" := DAY])]
            && Booking(|s.threads|, "svp") in m.unsaved
  {
    hide Sound, Concurrency, T.Encode, T.Decode, Saves;
    var m := Next(cfg, d, Record1(s));
    assert {"svp"} - {"svp"} == {};
    assert m.threads[|s.threads|] == Paying(s, o, k, Recording({}), 1, DAY, map["svp" := DAY]);
  }

  lemma DroppedAtRestart(cfg: Config, s0: Sys, es: seq<Event>, s: Sys, b: Sys, o: string, k: nat, w: T.WriteOutcome)
    returns (m: Sys)
    requires k > 0 && s.threads == [] && Sound(1, true, b, o, "svp", k) && DAY !in b.over && Trip(cfg, s0, es, b, o, k)
    requires b.threads == [Paying(s, o, k, Recording({}), 1, DAY, map["svp" := DAY])] && Booking(0, "svp") in b.unsaved
    ensures Trip(cfg, s0, es + [Restart], m, o, k)
    ensures T.Step(m.meter, DAY, T.Used(o, "svp"), w, w).1 == T.UsedIs(0) && BookedOn(m.threads, o, "svp", DAY) == k
  {
    hide Sound, Exact, Dated, T.Loads, T.Step, T.Restarted, BookedOn, Concurrency, InFlight, Held, Trip;
    hide SpentOn, LostOn, Known, Listed, AllOrderly;
    SoundParts(1, true, b, o, "svp", k);
    CanRestart(b);
    m := Next(cfg, b, Restart);
    EndedHoldNothing(m, o, "svp");
    Onward(cfg, s0, es, b, Restart, o, k);
    SoundParts(1, true, m, o, "svp", k);
    GoneIsUnused(m, o, "svp");
    OneBooked(m, s, o, k);
    AnswersZero(m.meter, o, "svp", w);
  }

  lemma OneBooked(m: Sys, s: Sys, o: string, k: nat)
    requires m.threads == [Paying(s, o, k, Ended, 1, DAY, map["svp" := DAY])]
    ensures BookedOn(m.threads, o, "svp", DAY) == k
  {
    assert BookedOf(m.threads, o, "svp", DAY) == [k];
    SumSnoc([], k);
    assert [] + [k] == [k];
  }

  lemma GoneIsUnused(m: Sys, o: string, y: string)
    requires Exact(m) && |m.threads| == 1 && Booking(0, y) in m.forgotten
    ensures Used(m, o, y) == 0
  {
    hide AllOrderly, T.Restarted, T.Loads;
    SumZero(KeptOf(m.threads, m.forgotten, o, y, m.meter.store.day));
  }

  lemma AnswersZero(m: T.Machine, o: string, y: string, w: T.WriteOutcome)
    requires T.UsedAt(m.store, o, y) == 0
    ensures T.Step(m, DAY, T.Used(o, y), w, w).1 == T.UsedIs(0)
  {
    hide T.Encode, T.Decode;
  }

  /** The payment is booked, the write of the booking fails and the server restarts: the chain's coins are in no
      tally, on the day they were booked. */
  lemma RestartDropsBooking(cfg: Config, o: string, k: nat, w: T.WriteOutcome) returns (es: seq<Event>)
    requires k > 0
    ensures var s := CapSet(cfg, o, k);
            && Valid(cfg, s, es) && Clocked(cfg, s, es) && DAY !in Final(cfg, s, es).over
            && var m := Final(cfg, s, es);
               T.Step(m.meter, DAY, T.Used(o, "svp"), w, w).1 == T.UsedIs(0) && BookedOn(m.threads, o, "svp", DAY) == k
  {
    hide Next, Trip, Valid, Clocked, Final, Enabled, Concurrency, Sound, T.Step, BookedOn, CapSet, AtMost;
    var s := CapSet(cfg, o, k);
    CapSetIsQuiet(cfg, o, k);
    var d, m;
    es, d := Pays(cfg, s, [], s, o, k);
    RecordedUnsaved(cfg, s, d, o, k);
    var b := Next(cfg, d, Record1(s));
    QuietParts(s, o, k);
    OneLive(s, b, b.threads[0], o);
    Onward(cfg, s, es, d, Record1(s), o, k);
    m := DroppedAtRestart(cfg, s, es + [Record1(s)], s, b, o, k, w);
    es := es + [Record1(s)] + [Restart];
    TripParts(cfg, s, es, m, o, k);
  }
}
