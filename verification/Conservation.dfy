/** Conservation across the rails: what the meter says was used today, plus what restarts made it forget, is the
    exact sum of what the recorded broadcasts of today take out, and of nothing else. */
module Conservation {
  import opened Prelude
  import opened Sums
  import opened Broadcast
  import T = TransferOut
  import Rails

  // ---- Bookings ---------------------------------------------------------------

  /** What the broadcast booked for the symbol on that day. */
  function Booked(t: Thread, o: string, y: string, day: string): int {
    if t.owner == o && y in t.amounts && y in t.recorded && t.recorded[y] == day then t.amounts[y] else 0
  }

  function BookedOf(ts: seq<Thread>, o: string, y: string, day: string): seq<int> {
    seq(|ts|, i requires 0 <= i < |ts| => Booked(ts[i], o, y, day))
  }

  function BookedOn(ts: seq<Thread>, o: string, y: string, day: string): int {
    Sum(BookedOf(ts, o, y, day))
  }

  /** The same, leaving out the bookings in `gone`. */
  function KeptOf(ts: seq<Thread>, gone: set<Booking>, o: string, y: string, day: string): seq<int> {
    seq(|ts|, i requires 0 <= i < |ts| => if Booking(i, y) in gone then 0 else Booked(ts[i], o, y, day))
  }

  function KeptOn(ts: seq<Thread>, gone: set<Booking>, o: string, y: string, day: string): int {
    Sum(KeptOf(ts, gone, o, y, day))
  }

  /** What was booked on that day and is in `gone`. */
  function GoneOf(ts: seq<Thread>, gone: set<Booking>, o: string, y: string, day: string): seq<int> {
    seq(|ts|, i requires 0 <= i < |ts| => if Booking(i, y) in gone then Booked(ts[i], o, y, day) else 0)
  }

  /** What restarts dropped of that day's bookings. */
  function ForgottenOn(s: Sys, o: string, y: string, day: string): int {
    Sum(GoneOf(s.threads, s.forgotten, o, y, day))
  }

  lemma KeptAndGone(ts: seq<Thread>, gone: set<Booking>, o: string, y: string, day: string)
    ensures KeptOn(ts, gone, o, y, day) + Sum(GoneOf(ts, gone, o, y, day)) == BookedOn(ts, o, y, day)
  {
    hide Booked, Sum;
    SumPlus(KeptOf(ts, gone, o, y, day), GoneOf(ts, gone, o, y, day), BookedOf(ts, o, y, day));
  }

  /** The clock never shows a day again once it has left it. */
  predicate NotOver(s: Sys, e: Event) {
    match e
    case CheckOne(_, _, today, _) => today !in s.over
    case Submit(_, _, _, today) => today !in s.over
    case RecordOne(_, _, today, _, _) => today !in s.over
    case Manage(today, _, _, _) => today !in s.over
    case _ => true
  }

  predicate Clocked(cfg: Config, s: Sys, es: seq<Event>)
    decreases es
  {
    es == [] || (Enabled(s, es[0]) ==> NotOver(s, es[0]) && Clocked(cfg, Next(cfg, s, es[0]), es[1..]))
  }

  // ---- What a thread looks like -------------------------------------------------

  function Positives(t: Thread): set<string> {
    set y | y in t.amounts && t.amounts[y] > 0
  }

  /** Bookings follow acceptance by the chain, one per symbol with a positive amount. */
  predicate Orderly(t: Thread) {
    && (t.phase.Checking? ==> !t.accepted && !t.taken)
    && (t.phase.Recording? ==> t.accepted && t.recorded.Keys == Positives(t) - t.phase.todo)
    && t.recorded.Keys <= Positives(t)
    && (t.recorded != map[] ==> t.accepted)
  }

  ghost predicate AllOrderly(s: Sys) {
    forall i :: 0 <= i < |s.threads| ==> Orderly(s.threads[i])
  }

  lemma JudgedOrderly(t: Thread, y: string, v: T.Verdict)
    requires t.phase.Checking? && Orderly(t)
    ensures Orderly(Judged(t, y, v))
  {
  }

  lemma NotedOrderly(t: Thread, y: string, today: string)
    requires t.phase.Recording? && y in t.phase.todo && y in t.amounts && Orderly(t)
    ensures Orderly(Noted(t, y, today))
    ensures y !in t.recorded
  {
  }

  lemma EndedOrderly(t: Thread)
    requires Orderly(t)
    ensures Orderly(t.(phase := Ended))
  {
  }

  lemma SentOrderly(t: Thread, accepted: bool, taken: bool, today: string)
    requires t.phase.Checking? && Orderly(t)
    ensures Orderly(Sent(t, accepted, taken, today))
  {
  }

  lemma StepOrderly(cfg: Config, s: Sys, e: Event)
    requires Enabled(s, e) && AllOrderly(s)
    ensures AllOrderly(Next(cfg, s, e))
  {
    hide Orderly, Metering, T.Restarted, T.Loads, Judged, Noted, Sent;
    match e
    case Begin(_, _, _, _, _) => BeginOrderly(cfg, s, e);
    case CheckOne(id, y, today, w) =>
      var op := T.Check(s.threads[id].owner, y, s.threads[id].amounts[y]);
      MeteringThreads(s, today, op, w, w);
      JudgedOrderly(s.threads[id], y, T.Step(s.meter, today, op, w, w).1.verdict);
    case Drop(id) => EndedOrderly(s.threads[id]);
    case Submit(id, accepted, taken, today) => SentOrderly(s.threads[id], accepted, taken, today);
    case RecordOne(id, y, today, w1, w2) =>
      MeteringThreads(s, today, T.Record(s.threads[id].owner, y, s.threads[id].amounts[y]), w1, w2);
      NotedOrderly(s.threads[id], y, today);
    case Manage(today, op, w1, w2) => MeteringThreads(s, today, op, w1, w2);
    case Restart =>
      forall i | 0 <= i < |s.threads| ensures Orderly(Stopped(s.threads)[i]) { EndedOrderly(s.threads[i]); }
  }

  lemma BeginOrderly(cfg: Config, s: Sys, e: Event)
    requires e.Begin? && AllOrderly(s)
    ensures AllOrderly(Next(cfg, s, e))
  {
    hide I.Accepts, Outflow;
  }

  lemma {:induction false} RunOrderly(cfg: Config, s: Sys, es: seq<Event>)
    requires Valid(cfg, s, es) && AllOrderly(s)
    ensures AllOrderly(Final(cfg, s, es))
    decreases |es|
  {
    hide AllOrderly, Next, Enabled;
    if es != [] {
      StepOrderly(cfg, s, es[0]);
      RunOrderly(cfg, Next(cfg, s, es[0]), es[1..]);
    }
  }

  // ---- The invariant -------------------------------------------------------------

  /** A store x that has lost the bookings in `gone` and no other agrees with the threads. */
  ghost predicate Agrees(ts: seq<Thread>, clock: string, over: set<string>, x: T.Store, gone: set<Booking>) {
    && x.day in over + {clock}
    && (forall i, y :: 0 <= i < |ts| && y in ts[i].recorded && ts[i].recorded[y] == clock && Booking(i, y) !in gone ==>
                         x.day == clock)
    && (forall o, y :: T.UsedAt(x, o, y) == KeptOn(ts, gone, o, y, x.day))
  }

  /** Only bookings are unsaved or forgotten. */
  ghost predicate Listed(s: Sys) {
    forall b :: b in s.unsaved + s.forgotten ==> b.id < |s.threads| && b.symbol in s.threads[b.id].recorded
  }

  /** Every booking was made on a day the clock has shown. */
  ghost predicate Known(s: Sys) {
    && s.clock !in s.over && Listed(s)
    && (forall i, y :: 0 <= i < |s.threads| && y in s.threads[i].recorded ==>
                         s.threads[i].recorded[y] in s.over + {s.clock})
  }

  lemma StepListed(cfg: Config, s: Sys, e: Event)
    requires Enabled(s, e) && Listed(s)
    ensures Listed(Next(cfg, s, e))
  {
    hide T.Step, Saves, T.Restarted, Outflow, I.Accepts, T.Loads;
  }

  lemma {:induction false} RunListed(cfg: Config, s: Sys, es: seq<Event>)
    requires Valid(cfg, s, es) && Listed(s)
    ensures Listed(Final(cfg, s, es))
    decreases |es|
  {
    hide Listed, Next, Enabled;
    if es != [] {
      StepListed(cfg, s, es[0]);
      RunListed(cfg, Next(cfg, s, es[0]), es[1..]);
    }
  }

  /** The store agrees with the threads up to what was forgotten, and so does what a restart would bring back, up
      to what is unsaved besides. */
  ghost predicate Exact(s: Sys) {
    && Known(s) && AllOrderly(s) && T.Loads(s.meter.file)
    && Agrees(s.threads, s.clock, s.over, s.meter.store, s.forgotten)
    && Agrees(s.threads, s.clock, s.over, T.Restarted(s.meter).store, s.forgotten + s.unsaved)
  }

  // ---- Moves of the clock and of the meter ---------------------------------------

  lemma AgreesTick(s: Sys, today: string, x: T.Store, gone: set<Booking>)
    requires Known(s) && today !in s.over && Agrees(s.threads, s.clock, s.over, x, gone)
    ensures Agrees(s.threads, At(s, today).clock, At(s, today).over, x, gone)
  {
    hide KeptOn;
  }

  lemma TickExact(s: Sys, today: string)
    requires Exact(s) && today !in s.over
    ensures Exact(At(s, today))
  {
    hide Agrees, AllOrderly;
    AgreesTick(s, today, s.meter.store, s.forgotten);
    AgreesTick(s, today, T.Restarted(s.meter).store, s.forgotten + s.unsaved);
    assert AllOrderly(At(s, today)) by { SameOrderly(s, At(s, today)); }
  }

  lemma SameOrderly(s: Sys, s': Sys)
    requires AllOrderly(s) && s'.threads == s.threads
    ensures AllOrderly(s')
  {
  }

  predicate SameUse(x: T.Store, x': T.Store, o: string, y: string) {
    T.UsedAt(x', o, y) == T.UsedAt(x, o, y)
  }

  ghost predicate SameTally(x: T.Store, x': T.Store) {
    x'.day == x.day && forall o, y :: SameUse(x, x', o, y)
  }

  lemma AgreesSame(ts: seq<Thread>, clock: string, over: set<string>, x: T.Store, x': T.Store, gone: set<Booking>)
    requires Agrees(ts, clock, over, x, gone) && SameTally(x, x')
    ensures Agrees(ts, clock, over, x', gone)
  {
    hide KeptOn;
    forall o, y ensures T.UsedAt(x', o, y) == KeptOn(ts, gone, o, y, x'.day) { assert SameUse(x, x', o, y); }
  }

  /** An empty tally for a day on which nothing that counts was booked. */
  lemma AgreesRolled(ts: seq<Thread>, clock: string, over: set<string>, x: T.Store, gone: set<Booking>)
    requires Agrees(ts, clock, over, x, gone) && x.day != clock
    ensures Agrees(ts, clock, over, T.Rolled(x, clock), gone)
  {
    forall o, y ensures KeptOn(ts, gone, o, y, clock) == 0 { SumZero(KeptOf(ts, gone, o, y, clock)); }
  }

  /** What a call that records nothing does to the store. */
  lemma QuietStore(m: T.Machine, today: string, op: T.Op, w1: T.WriteOutcome, w2: T.WriteOutcome)
    requires !op.Record?
    ensures var n := T.Step(m, today, op, w1, w2).0;
            SameTally(m.store, n.store) || (m.store.day != today && SameTally(T.Rolled(m.store, today), n.store))
  {
    hide T.Encode, T.Decode, T.Judge;
  }

  /** And to the file: the new tally when some write succeeds, else nothing. */
  lemma QuietFile(m: T.Machine, today: string, op: T.Op, w1: T.WriteOutcome, w2: T.WriteOutcome)
    requires !op.Record? && T.Loads(m.file)
    ensures var n := T.Step(m, today, op, w1, w2).0;
            if Saves(m, today, op, w1, w2) then SameTally(n.store, T.Restarted(n).store)
            else T.Restarted(n).store == T.Restarted(m).store
  {
    hide T.Encode, T.Decode, T.Judge, T.Loads;
    var n := T.Step(m, today, op, w1, w2).0;
    T.Reloaded(n.store);
    QuietAttempts(m, today, op, w1, w2);
  }

  lemma QuietAttempts(m: T.Machine, today: string, op: T.Op, w1: T.WriteOutcome, w2: T.WriteOutcome)
    requires !op.Record?
    ensures var n := T.Step(m, today, op, w1, w2).0;
            n.file == if Saves(m, today, op, w1, w2) then Some(T.Encode(n.store)) else m.file
  {
    hide T.Encode, T.Decode, T.Judge, T.Loads;
    var a := T.StepAttempts(m, today, op, w1, w2);
    if a != [] {
      assert a[..0] == [] && T.LastWritten([]) == None;
      assert T.LastWritten(a).Some? <==> a[0].outcome.Renamed?;
    }
  }

  lemma MeteringExact(s: Sys, today: string, op: T.Op, w1: T.WriteOutcome, w2: T.WriteOutcome)
    requires Exact(s) && today !in s.over && !op.Record?
    ensures Exact(Metering(s, today, op, w1, w2))
  {
    TickExact(s, today);
    QuietStore(s.meter, today, op, w1, w2);
    QuietFile(s.meter, today, op, w1, w2);
    hide T.Step, Saves, Agrees, SameTally, T.Rolled, T.Restarted, AllOrderly, T.Loads;
    var c, r := At(s, today), Metering(s, today, op, w1, w2);
    SameOrderly(s, r);
    if SameTally(s.meter.store, r.meter.store) {
      AgreesSame(c.threads, c.clock, c.over, s.meter.store, r.meter.store, s.forgotten);
    } else {
      AgreesRolled(c.threads, c.clock, c.over, s.meter.store, s.forgotten);
      AgreesSame(c.threads, c.clock, c.over, T.Rolled(s.meter.store, today), r.meter.store, s.forgotten);
    }
    if Saves(s.meter, today, op, w1, w2) {
      AgreesSame(c.threads, c.clock, c.over, r.meter.store, T.Restarted(r.meter).store, s.forgotten);
      assert s.forgotten + {} == s.forgotten;
    }
  }

  // ---- Moves of the threads --------------------------------------------------------

  lemma KeptUpdate(ts: seq<Thread>, gone: set<Booking>, id: nat, t: Thread, o: string, y: string, day: string)
    requires id < |ts|
    ensures KeptOn(ts[id := t], gone, o, y, day) == KeptOn(ts, gone, o, y, day)
              + if Booking(id, y) in gone then 0 else Booked(t, o, y, day) - Booked(ts[id], o, y, day)
  {
    hide Booked, Sum;
    var w := if Booking(id, y) in gone then 0 else Booked(t, o, y, day);
    SumUpdate(KeptOf(ts, gone, o, y, day), id, w);
    assert KeptOf(ts[id := t], gone, o, y, day) == KeptOf(ts, gone, o, y, day)[id := w];
  }

  predicate SameBookings(t: Thread, t': Thread) {
    t'.owner == t.owner && t'.amounts == t.amounts && t'.recorded == t.recorded
  }

  lemma AgreesThread(
    ts: seq<Thread>, clock: string, over: set<string>, x: T.Store, gone: set<Booking>, id: nat, t: Thread)
    requires Agrees(ts, clock, over, x, gone) && id < |ts| && SameBookings(ts[id], t)
    ensures Agrees(ts[id := t], clock, over, x, gone)
  {
    hide KeptOn;
    forall o, y ensures KeptOn(ts[id := t], gone, o, y, x.day) == KeptOn(ts, gone, o, y, x.day) {
      KeptUpdate(ts, gone, id, t, o, y, x.day);
    }
  }

  lemma ThreadExact(s: Sys, id: nat, t: Thread)
    requires Exact(s) && id < |s.threads| && Orderly(t) && SameBookings(s.threads[id], t)
    ensures Exact(WithThread(s, id, t))
  {
    hide Agrees, Orderly, T.Restarted, T.Loads;
    AgreesThread(s.threads, s.clock, s.over, s.meter.store, s.forgotten, id, t);
    AgreesThread(s.threads, s.clock, s.over, T.Restarted(s.meter).store, s.forgotten + s.unsaved, id, t);
  }

  /** Booking an amount raises the store's tally and no other. */
  lemma AgreesBooked(
    ts: seq<Thread>, clock: string, over: set<string>, x: T.Store, gone: set<Booking>, id: nat, y: string, t: Thread)
    requires Agrees(ts, clock, over, x, gone) && x.day == clock && id < |ts|
    requires t.owner == ts[id].owner && t.amounts == ts[id].amounts && t.recorded == ts[id].recorded[y := clock]
    requires y in t.amounts && y !in ts[id].recorded && Booking(id, y) !in gone
    ensures Agrees(ts[id := t], clock, over, T.Added(x, t.owner, y, t.amounts[y]), gone)
  {
    hide KeptOn;
    var x' := T.Added(x, t.owner, y, t.amounts[y]);
    forall o, z ensures T.UsedAt(x', o, z) == KeptOn(ts[id := t], gone, o, z, clock) {
      KeptUpdate(ts, gone, id, t, o, z, clock);
    }
  }

  /** A store that does not hold the booking goes on agreeing when the booking is counted as gone. */
  lemma AgreesUnsaved(
    ts: seq<Thread>, clock: string, over: set<string>, x: T.Store, gone: set<Booking>, id: nat, y: string, t: Thread)
    requires Agrees(ts, clock, over, x, gone) && id < |ts|
    requires t.owner == ts[id].owner && t.amounts == ts[id].amounts && t.recorded == ts[id].recorded[y := clock]
    requires y !in ts[id].recorded
    ensures Agrees(ts[id := t], clock, over, x, gone + {Booking(id, y)})
  {
    hide KeptOn;
    var gone' := gone + {Booking(id, y)};
    forall o, z ensures KeptOn(ts[id := t], gone', o, z, x.day) == KeptOn(ts, gone, o, z, x.day) {
      KeptUpdate(ts, gone', id, t, o, z, x.day);
      KeptMore(ts, gone, id, y, o, z, x.day);
    }
  }

  lemma KeptMore(ts: seq<Thread>, gone: set<Booking>, id: nat, y: string, o: string, z: string, day: string)
    requires id < |ts| && y !in ts[id].recorded
    ensures KeptOn(ts, gone + {Booking(id, y)}, o, z, day) == KeptOn(ts, gone, o, z, day)
  {
    hide Sum;
    assert KeptOf(ts, gone + {Booking(id, y)}, o, z, day) == KeptOf(ts, gone, o, z, day);
  }

  // ---- Steps -------------------------------------------------------------------------

  lemma CheckExact(cfg: Config, s: Sys, e: Event)
    requires e.CheckOne? && Enabled(s, e) && NotOver(s, e) && Exact(s)
    ensures Exact(Next(cfg, s, e))
  {
    hide Exact, Metering, Orderly, AllOrderly, T.Step;
    var t := s.threads[e.id];
    var op := T.Check(t.owner, e.symbol, t.amounts[e.symbol]);
    MeteringExact(s, e.today, op, e.w, e.w);
    MeteringThreads(s, e.today, op, e.w, e.w);
    OrderlyThread(s, e.id);
    var t' := Judged(t, e.symbol, T.Step(s.meter, e.today, op, e.w, e.w).1.verdict);
    JudgedOrderly(t, e.symbol, T.Step(s.meter, e.today, op, e.w, e.w).1.verdict);
    ThreadExact(Metering(s, e.today, op, e.w, e.w), e.id, t');
  }

  lemma MeteringThreads(s: Sys, today: string, op: T.Op, w1: T.WriteOutcome, w2: T.WriteOutcome)
    ensures Metering(s, today, op, w1, w2).threads == s.threads
  {
  }

  lemma OrderlyThread(s: Sys, id: nat)
    requires Exact(s) && id < |s.threads|
    ensures Orderly(s.threads[id])
  {
  }

  /** The tally after a booking that no write has saved yet. */
  function BookedIn(r: Sys, id: nat, y: string, today: string): Sys
    requires id < |r.threads| && r.threads[id].phase.Recording? && y in r.threads[id].amounts
  {
    var t := r.threads[id];
    WithThread(r.(meter := r.meter.(store := T.Added(r.meter.store, t.owner, y, t.amounts[y])),
                  unsaved := r.unsaved + {Booking(id, y)}),
               id, Noted(t, y, today))
  }

  lemma BookedExact(r: Sys, id: nat, y: string)
    requires Exact(r) && r.meter.store.day == r.clock && id < |r.threads|
    requires r.threads[id].phase.Recording? && y in r.threads[id].phase.todo
    requires y in r.threads[id].amounts && r.threads[id].amounts[y] > 0
    ensures Exact(BookedIn(r, id, y, r.clock))
  {
    hide Agrees, Known, AllOrderly, T.Added, T.Loads;
    var t, r' := r.threads[id], BookedIn(r, id, y, r.clock);
    OrderlyThread(r, id);
    NotedOrderly(t, y, r.clock);
    BookedKnown(r, id, y);
    var back, gone := T.Restarted(r.meter).store, r.forgotten + r.unsaved;
    AgreesBooked(r.threads, r.clock, r.over, r.meter.store, r.forgotten, id, y, r'.threads[id]);
    AgreesUnsaved(r.threads, r.clock, r.over, back, gone, id, y, r'.threads[id]);
    assert r'.forgotten + r'.unsaved == gone + {Booking(id, y)};
  }

  lemma BookedKnown(r: Sys, id: nat, y: string)
    requires Known(r) && AllOrderly(r) && id < |r.threads|
    requires r.threads[id].phase.Recording? && y in r.threads[id].phase.todo
    requires y in r.threads[id].amounts && r.threads[id].amounts[y] > 0
    ensures Known(BookedIn(r, id, y, r.clock)) && AllOrderly(BookedIn(r, id, y, r.clock))
    ensures Booking(id, y) !in r.forgotten
  {
    hide Orderly, T.Added;
    assert Orderly(r.threads[id]);
    NotedOrderly(r.threads[id], y, r.clock);
  }

  lemma SavedExact(r: Sys)
    requires Exact(r) && r.meter.persistent
    ensures Exact(r.(meter := r.meter.(file := Some(T.Encode(r.meter.store))), unsaved := {}))
  {
    hide T.Encode, T.Decode, Agrees;
    var r' := r.(meter := r.meter.(file := Some(T.Encode(r.meter.store))), unsaved := {});
    T.Reloaded(r.meter.store);
    SameOrderly(r, r');
    AgreesSame(r.threads, r.clock, r.over, r.meter.store, T.Restarted(r'.meter).store, r.forgotten);
    assert r.forgotten + {} == r.forgotten;
  }

  /** A record rolls the day over, books, and saves if its write succeeds. */
  lemma RecordExact(cfg: Config, s: Sys, e: Event)
    requires e.RecordOne? && Enabled(s, e) && NotOver(s, e) && Exact(s)
    ensures Exact(Next(cfg, s, e))
  {
    var t, y := s.threads[e.id], e.symbol;
    OrderlyThread(s, e.id);
    if t.amounts[y] <= 0 {
      NotedOrderly(t, y, e.today);
      TickExact(s, e.today);
      ThreadExact(At(s, e.today), e.id, Noted(t, y, e.today));
      NothingRecorded(cfg, s, e);
    } else {
      var rolled := Metering(s, e.today, T.Used(t.owner, y), e.w1, e.w1);
      MeteringExact(s, e.today, T.Used(t.owner, y), e.w1, e.w1);
      MeteringThreads(s, e.today, T.Used(t.owner, y), e.w1, e.w1);
      RolledToday(s, e.today, t.owner, y, e.w1);
      BookedExact(rolled, e.id, y);
      RecordInStages(cfg, s, e);
      if s.meter.persistent && e.w2.Renamed? { SavedExact(BookedIn(rolled, e.id, y, e.today)); }
    }
  }

  lemma NothingRecorded(cfg: Config, s: Sys, e: Event)
    requires e.RecordOne? && Enabled(s, e) && s.threads[e.id].amounts[e.symbol] <= 0
    ensures Next(cfg, s, e) == WithThread(At(s, e.today), e.id, Noted(s.threads[e.id], e.symbol, e.today))
  {
  }

  lemma RolledToday(s: Sys, today: string, o: string, y: string, w: T.WriteOutcome)
    ensures var r := Metering(s, today, T.Used(o, y), w, w); r.meter.store.day == today == r.clock
    ensures Metering(s, today, T.Used(o, y), w, w).meter.persistent == s.meter.persistent
  {
  }

  lemma RecordInStages(cfg: Config, s: Sys, e: Event)
    requires e.RecordOne? && Enabled(s, e) && s.threads[e.id].amounts[e.symbol] > 0
    ensures var t := s.threads[e.id];
            var rolled := Metering(s, e.today, T.Used(t.owner, e.symbol), e.w1, e.w1);
            var booked := BookedIn(rolled, e.id, e.symbol, e.today);
            Next(cfg, s, e) ==
            if s.meter.persistent && e.w2.Renamed?
            then booked.(meter := booked.meter.(file := Some(T.Encode(booked.meter.store))), unsaved := {}) else booked
  {
    hide T.Encode, T.Decode, T.Added, T.Rolled;
    var t := s.threads[e.id];
    var op := T.Record(t.owner, e.symbol, t.amounts[e.symbol]);
    var a := T.RollAttempts(s.meter, e.today, e.w1);
    var b := T.StepAttempts(s.meter, e.today, op, e.w1, e.w2);
    assert b[..|b| - 1] == a;
    assert T.LastWritten(b).Some? <==> e.w2.Renamed? || T.LastWritten(a).Some?;
  }

  lemma RestartExact(cfg: Config, s: Sys)
    requires Exact(s)
    ensures Exact(Next(cfg, s, Restart))
  {
    var s' := Next(cfg, s, Restart);
    StepOrderly(cfg, s, Restart);
    hide T.Decode, T.Loads, AllOrderly;
    AgreesStopped(s.threads, s.clock, s.over, T.Restarted(s.meter).store, s.forgotten + s.unsaved);
    assert s'.forgotten + s'.unsaved == s'.forgotten;
    assert T.Restarted(s'.meter).store == s'.meter.store;
  }

  lemma AgreesStopped(ts: seq<Thread>, clock: string, over: set<string>, x: T.Store, gone: set<Booking>)
    requires Agrees(ts, clock, over, x, gone)
    ensures Agrees(Stopped(ts), clock, over, x, gone)
  {
    hide Sum;
    forall o, y ensures KeptOn(Stopped(ts), gone, o, y, x.day) == KeptOn(ts, gone, o, y, x.day) {
      assert KeptOf(Stopped(ts), gone, o, y, x.day) == KeptOf(ts, gone, o, y, x.day);
    }
  }

  lemma AgreesBegun(ts: seq<Thread>, clock: string, over: set<string>, x: T.Store, gone: set<Booking>, t: Thread)
    requires Agrees(ts, clock, over, x, gone) && t.recorded == map[]
    ensures Agrees(ts + [t], clock, over, x, gone)
  {
    hide Sum;
    forall o, y ensures KeptOn(ts + [t], gone, o, y, x.day) == KeptOn(ts, gone, o, y, x.day) {
      assert KeptOf(ts + [t], gone, o, y, x.day) == KeptOf(ts, gone, o, y, x.day) + [0];
      SumSnoc(KeptOf(ts, gone, o, y, x.day), 0);
    }
  }

  lemma BeginExact(cfg: Config, s: Sys, e: Event)
    requires e.Begin? && Exact(s)
    ensures Exact(Next(cfg, s, e))
  {
    StepOrderly(cfg, s, e);
    hide Agrees, I.Accepts, Outflow, AllOrderly, T.Restarted, T.Loads;
    var s' := Next(cfg, s, e);
    if s'.threads != s.threads {
      var t := Started(cfg, s, e.tenant, e.client, e.owner, e.tx, e.now);
      AgreesBegun(s.threads, s.clock, s.over, s.meter.store, s.forgotten, t);
      AgreesBegun(s.threads, s.clock, s.over, T.Restarted(s.meter).store, s.forgotten + s.unsaved, t);
    }
  }

  lemma StepExact(cfg: Config, s: Sys, e: Event)
    requires Enabled(s, e) && NotOver(s, e) && Exact(s)
    ensures Exact(Next(cfg, s, e))
  {
    hide Exact, T.Step, Orderly, AllOrderly, Metering;
    match e
    case Begin(_, _, _, _, _) => BeginExact(cfg, s, e);
    case CheckOne(_, _, _, _) => CheckExact(cfg, s, e);
    case Drop(id) =>
      OrderlyThread(s, id);
      EndedOrderly(s.threads[id]);
      ThreadExact(s, id, s.threads[id].(phase := Ended));
    case Submit(id, accepted, taken, today) =>
      OrderlyThread(s, id);
      SentOrderly(s.threads[id], accepted, taken, today);
      TickExact(s, today);
      ThreadExact(At(s, today), id, Sent(s.threads[id], accepted, taken, today));
    case RecordOne(_, _, _, _, _) => RecordExact(cfg, s, e);
    case Manage(today, op, w1, w2) => MeteringExact(s, today, op, w1, w2);
    case Restart => RestartExact(cfg, s);
  }

  lemma {:induction false} RunExact(cfg: Config, s: Sys, es: seq<Event>)
    requires Valid(cfg, s, es) && Clocked(cfg, s, es) && Exact(s)
    ensures Exact(Final(cfg, s, es))
    decreases |es|
  {
    hide Exact, Next, Enabled, NotOver;
    if es != [] {
      StepExact(cfg, s, es[0]);
      RunExact(cfg, Next(cfg, s, es[0]), es[1..]);
    }
  }

  lemma FreshExact(persistent: bool)
    ensures Exact(Fresh(persistent))
  {
    forall o, y, gone | true ensures KeptOn([], gone, o, y, "") == 0 { assert KeptOf([], gone, o, y, "") == []; }
  }

  /** Store, file and threads agree in every state reached from an empty server, whatever writes failed and whenever
      it restarted. */
  lemma ReachableIsExact(persistent: bool, cfg: Config, es: seq<Event>)
    requires Valid(cfg, Fresh(persistent), es) && Clocked(cfg, Fresh(persistent), es)
    ensures Exact(Final(cfg, Fresh(persistent), es))
  {
    hide Valid, Clocked, Final, Exact;
    FreshExact(persistent);
    RunExact(cfg, Fresh(persistent), es);
  }

  // ---- The theorem -------------------------------------------------------------------

  /** In every reachable state, whatever writes failed and whenever the server restarted, what the meter answers
      for (o, y) today plus what restarts dropped of today is the exact sum, over all broadcasts of that owner by
      any tenant and on either rail, of what they booked today. */
  lemma UsedIsTodaysBookings(
    persistent: bool, cfg: Config, es: seq<Event>, o: string, y: string, today: string, w: T.WriteOutcome)
    requires Valid(cfg, Fresh(persistent), es) && Clocked(cfg, Fresh(persistent), es)
    requires today !in Final(cfg, Fresh(persistent), es).over
    ensures var s := Final(cfg, Fresh(persistent), es);
            T.Step(s.meter, today, T.Used(o, y), w, w).1
            == T.UsedIs(BookedOn(s.threads, o, y, today) - ForgottenOn(s, o, y, today))
  {
    ReachableIsExact(persistent, cfg, es);
    var s := Final(cfg, Fresh(persistent), es);
    MeteringExact(s, today, T.Used(o, y), w, w);
    MeteringThreads(s, today, T.Used(o, y), w, w);
    RolledToday(s, today, o, y, w);
    KeptAndGone(s.threads, s.forgotten, o, y, today);
    hide Valid, Final, Clocked, KeptOn, ForgottenOn, BookedOn, Exact, T.Encode, T.Decode;
    ExactToday(Metering(s, today, T.Used(o, y), w, w), o, y);
  }

  lemma ExactToday(s: Sys, o: string, y: string)
    requires Exact(s) && s.meter.store.day == s.clock
    ensures Used(s, o, y) == KeptOn(s.threads, s.forgotten, o, y, s.clock)
  {
  }

  /** At this restart a booking made that day for (o, y) is not on file. */
  predicate DropsAt(s: Sys, e: Event, o: string, y: string, day: string) {
    e.Restart? && exists b :: b in s.unsaved && BookedAs(s, b, o, y, day)
  }

  predicate BookedAs(s: Sys, b: Booking, o: string, y: string, day: string) {
    b.id < |s.threads| && b.symbol == y && Booked(s.threads[b.id], o, y, day) > 0
  }

  /** Some restart of the run follows a failed write that carried a booking of that day, with no successful write
      in between. */
  predicate Drops(cfg: Config, s: Sys, es: seq<Event>, o: string, y: string, day: string)
    requires Valid(cfg, s, es)
    decreases es
  {
    es != [] && (DropsAt(s, es[0], o, y, day) || Drops(cfg, Next(cfg, s, es[0]), es[1..], o, y, day))
  }

  predicate Dropped(s: Sys, o: string, y: string, day: string) {
    exists b :: b in s.forgotten && BookedAs(s, b, o, y, day)
  }

  /** A booking is for good. */
  lemma BookingStays(cfg: Config, s: Sys, e: Event, b: Booking, o: string, y: string, day: string)
    requires Enabled(s, e) && AllOrderly(s) && b.id < |s.threads| && b.symbol in s.threads[b.id].recorded
    ensures BookedAs(Next(cfg, s, e), b, o, y, day) <==> BookedAs(s, b, o, y, day)
  {
    hide T.Step, Saves, T.Restarted, Outflow, I.Accepts, T.Loads;
    assert Orderly(s.threads[b.id]);
  }

  lemma DroppedStep(cfg: Config, s: Sys, e: Event, o: string, y: string, day: string)
    requires Enabled(s, e) && Known(s) && AllOrderly(s)
    ensures Dropped(Next(cfg, s, e), o, y, day) <==> Dropped(s, o, y, day) || DropsAt(s, e, o, y, day)
  {
    ForgottenStep(cfg, s, e);
    forall b | b in s.unsaved + s.forgotten
      ensures BookedAs(Next(cfg, s, e), b, o, y, day) <==> BookedAs(s, b, o, y, day)
    {
      BookingStays(cfg, s, e, b, o, y, day);
    }
    hide Next, BookedAs, Known, AllOrderly;
  }

  lemma ForgottenStep(cfg: Config, s: Sys, e: Event)
    requires Enabled(s, e)
    ensures Next(cfg, s, e).forgotten == if e.Restart? then s.forgotten + s.unsaved else s.forgotten
  {
    hide T.Step, Saves, T.Restarted, Outflow, I.Accepts, T.Loads;
  }

  lemma {:induction false} DroppedRun(cfg: Config, s: Sys, es: seq<Event>, o: string, y: string, day: string)
    requires Valid(cfg, s, es) && Clocked(cfg, s, es) && Exact(s)
    ensures Dropped(Final(cfg, s, es), o, y, day) <==> Dropped(s, o, y, day) || Drops(cfg, s, es, o, y, day)
    decreases |es|
  {
    hide Exact, Next, Enabled, NotOver, Dropped, DropsAt;
    if es != [] {
      StepExact(cfg, s, es[0]);
      assert Known(s) && AllOrderly(s) by { ExactParts(s); }
      DroppedStep(cfg, s, es[0], o, y, day);
      DroppedRun(cfg, Next(cfg, s, es[0]), es[1..], o, y, day);
    }
  }

  lemma ExactParts(s: Sys)
    requires Exact(s)
    ensures Known(s) && Listed(s) && AllOrderly(s)
  {
  }

  lemma ForgottenIff(s: Sys, o: string, y: string, day: string)
    requires AllOrderly(s)
    ensures ForgottenOn(s, o, y, day) >= 0
    ensures ForgottenOn(s, o, y, day) == 0 <==> !Dropped(s, o, y, day)
  {
    hide Sum;
    var ws := GoneOf(s.threads, s.forgotten, o, y, day);
    var zeros := seq(|ws|, i => 0);
    SumZero(zeros);
    forall i | 0 <= i < |ws| ensures 0 <= ws[i] && (ws[i] > 0 ==> Dropped(s, o, y, day)) {
      assert Orderly(s.threads[i]);
      if ws[i] > 0 { assert BookedAs(s, Booking(i, y), o, y, day); }
    }
    SumMonotone(zeros, ws);
    if Dropped(s, o, y, day) {
      var b :| b in s.forgotten && BookedAs(s, b, o, y, day);
      assert b == Booking(b.id, y);
      assert zeros[b.id] < ws[b.id];
    }
  }

  /** The meter's answer is the day's bookings if and only if no restart of the run finds one of them unsaved. */
  lemma UsedIsExactIff(
    persistent: bool, cfg: Config, es: seq<Event>, o: string, y: string, today: string, w: T.WriteOutcome)
    requires Valid(cfg, Fresh(persistent), es) && Clocked(cfg, Fresh(persistent), es)
    requires today !in Final(cfg, Fresh(persistent), es).over
    ensures var s := Final(cfg, Fresh(persistent), es);
            T.Step(s.meter, today, T.Used(o, y), w, w).1 == T.UsedIs(BookedOn(s.threads, o, y, today))
            <==> !Drops(cfg, Fresh(persistent), es, o, y, today)
  {
    hide Valid, Final, Clocked, Drops, T.Step, BookedOn, ForgottenOn, Exact;
    FreshExact(persistent);
    RunExact(cfg, Fresh(persistent), es);
    ExactParts(Final(cfg, Fresh(persistent), es));
    DroppedRun(cfg, Fresh(persistent), es, o, y, today);
    ForgottenIff(Final(cfg, Fresh(persistent), es), o, y, today);
    UsedIsTodaysBookings(persistent, cfg, es, o, y, today, w);
  }

  /** No restart loses a booking while the write of every record succeeds. */
  lemma {:induction false} SavedRecordsStay(cfg: Config, s: Sys, es: seq<Event>, o: string, y: string, day: string)
    requires Valid(cfg, s, es) && s.meter.persistent && s.unsaved == {}
    requires forall i :: 0 <= i < |es| && es[i].RecordOne? ==> es[i].w2.Renamed?
    ensures !Drops(cfg, s, es, o, y, day)
    decreases |es|
  {
    hide Next, Enabled, BookedAs;
    if es != [] {
      SavedStep(cfg, s, es[0]);
      SavedRecordsStay(cfg, Next(cfg, s, es[0]), es[1..], o, y, day);
    }
  }

  lemma SavedStep(cfg: Config, s: Sys, e: Event)
    requires Enabled(s, e) && s.meter.persistent && s.unsaved == {} && (e.RecordOne? ==> e.w2.Renamed?)
    ensures Next(cfg, s, e).meter.persistent && Next(cfg, s, e).unsaved == {}
  {
    hide T.Step, Saves, Outflow, I.Accepts, T.Loads;
  }

  // ---- What a booking is worth -------------------------------------------------

  /** A thread's amounts are what its transaction takes out of its owner's wallet, unless it was refused for good. */
  ghost predicate Decoded(cfg: Config, s: Sys) {
    forall i :: 0 <= i < |s.threads| ==> DecodedThread(cfg, s.threads[i])
  }

  predicate DecodedThread(cfg: Config, t: Thread) {
    || Outflow(cfg, t.owner, t.tx) == Some(t.amounts)
    || (t.amounts == map[] && t.phase.Ended? && !t.accepted && t.submissions == 0)
  }

  lemma {:induction false} RunDecoded(cfg: Config, s: Sys, es: seq<Event>)
    requires Valid(cfg, s, es) && Decoded(cfg, s)
    ensures Decoded(cfg, Final(cfg, s, es))
    decreases |es|
  {
    if es != [] {
      StepDecoded(cfg, s, es[0]);
      RunDecoded(cfg, Next(cfg, s, es[0]), es[1..]);
    }
  }

  lemma StepDecoded(cfg: Config, s: Sys, e: Event)
    requires Enabled(s, e) && Decoded(cfg, s)
    ensures Decoded(cfg, Next(cfg, s, e))
  {
    hide T.Step, Outflow, I.Accepts, T.Restarted;
  }

  /** The owner signed the transaction and it takes out `amt` of symbol y: on the bank rail its own coins of that
      symbol, on the home EVM chain native value and ERC-20 amount, on a foreign chain nothing. */
  predicate TakesOut(cfg: Config, owner: string, tx: Tx, y: string, amt: int) {
    match tx
    case Bank(signer, msgs) => signer == owner && amt == Rails.BankAmount(msgs, owner, y)
    case Evm(sender, home, call) =>
      && cfg.ethOf(owner) == Some(sender)
      && amt == if home then GetOr(Rails.EvmOut(call, sender, cfg.swap), y, 0) else 0
    case Garbled => false
  }

  lemma OutflowTakesOut(cfg: Config, t: Thread, y: string)
    requires Outflow(cfg, t.owner, t.tx) == Some(t.amounts)
    ensures TakesOut(cfg, t.owner, t.tx, y, if y in t.amounts then t.amounts[y] else 0)
  {
    hide Rails.BankOut, Rails.EvmOut;
  }

  /** Every booking belongs to a transaction the chain accepted and the owner signed, and is worth exactly
      what that transaction takes out. */
  lemma BookingsAreDecoded(persistent: bool, cfg: Config, es: seq<Event>, i: nat, y: string)
    requires Valid(cfg, Fresh(persistent), es)
    requires i < |Final(cfg, Fresh(persistent), es).threads|
    requires y in Final(cfg, Fresh(persistent), es).threads[i].recorded
    ensures var t := Final(cfg, Fresh(persistent), es).threads[i];
            && t.accepted && y in t.amounts && t.amounts[y] > 0
            && TakesOut(cfg, t.owner, t.tx, y, t.amounts[y])
  {
    hide Valid, Final, TakesOut, Outflow;
    RunOrderly(cfg, Fresh(persistent), es);
    RunDecoded(cfg, Fresh(persistent), es);
    var t := Final(cfg, Fresh(persistent), es).threads[i];
    assert Orderly(t) && DecodedThread(cfg, t);
    OutflowTakesOut(cfg, t, y);
  }

  /** And nothing escapes: a broadcast that was accepted and has recorded all it had to record has booked every symbol
      of which its transaction takes out a positive amount, and no other, at that amount. */
  lemma FinishedBooksEverything(persistent: bool, cfg: Config, es: seq<Event>, i: nat, y: string)
    requires Valid(cfg, Fresh(persistent), es)
    requires i < |Final(cfg, Fresh(persistent), es).threads|
    requires Final(cfg, Fresh(persistent), es).threads[i].phase == Recording({})
    ensures var t := Final(cfg, Fresh(persistent), es).threads[i];
            var amt := if y in t.amounts then t.amounts[y] else 0;
            TakesOut(cfg, t.owner, t.tx, y, amt) && (y in t.recorded <==> amt > 0)
  {
    hide Valid, Final, TakesOut, Outflow;
    RunOrderly(cfg, Fresh(persistent), es);
    RunDecoded(cfg, Fresh(persistent), es);
    var t := Final(cfg, Fresh(persistent), es).threads[i];
    assert Orderly(t) && DecodedThread(cfg, t);
    OutflowTakesOut(cfg, t, y);
    assert t.recorded.Keys == Positives(t) - {};
    assert y in t.recorded <==> y in Positives(t);
  }
}
