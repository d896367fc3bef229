/** Conservation under any clock, one that runs back included: the tally is the sum of the bookings made since it was
    last emptied, by a rollover or by a restart that falls back on the file. */
module Counted {
  import opened Prelude
  import opened Sums
  import opened Broadcast
  import opened Conservation
  import T = TransferOut
  import I = Idempotency

  // ---- The history of the tally --------------------------------------------------

  /** The bookings in the tally, and those in the tally on file. */
  datatype Trail = Trail(counted: set<Booking>, saved: set<Booking>)

  const NOTHING := Trail({}, {})

  /** The call empties the tally, because the day it shows is not the tally's. */
  predicate Empties(m: T.Machine, today: string, op: T.Op) {
    m.store.day != today && (op.Used? || ((op.Check? || op.Record?) && op.amt > 0))
  }

  /** A call that books nothing: the tally may be emptied, and whatever it then holds may be saved. */
  function Called(m: T.Machine, today: string, op: T.Op, w1: T.WriteOutcome, w2: T.WriteOutcome, tr: Trail): Trail {
    var counted := if Empties(m, today, op) then {} else tr.counted;
    Trail(counted, if Saves(m, today, op, w1, w2) then counted else tr.saved)
  }

  function Follow(s: Sys, e: Event, tr: Trail): Trail
    requires Enabled(s, e)
  {
    match e
    case CheckOne(id, y, today, w) =>
      Called(s.meter, today, T.Check(s.threads[id].owner, y, s.threads[id].amounts[y]), w, w, tr)
    case RecordOne(id, y, today, w1, w2) =>
      if s.threads[id].amounts[y] <= 0 then tr
      else
        var rolled := Called(s.meter, today, T.Used(s.threads[id].owner, y), w1, w1, tr);
        var counted := rolled.counted + {Booking(id, y)};
        Trail(counted, if s.meter.persistent && w2.Renamed? then counted else rolled.saved)
    case Manage(today, op, w1, w2) => Called(s.meter, today, op, w1, w2, tr)
    case Restart => Trail(tr.saved, tr.saved)
    case _ => tr
  }

  function TrailOf(cfg: Config, s: Sys, es: seq<Event>, tr: Trail): Trail
    requires Valid(cfg, s, es)
    decreases es
  {
    if es == [] then tr else TrailOf(cfg, Next(cfg, s, es[0]), es[1..], Follow(s, es[0], tr))
  }

  // ---- The invariant ----------------------------------------------------------------

  function CountedOf(ts: seq<Thread>, c: set<Booking>, o: string, y: string): seq<int> {
    seq(|ts|, i requires 0 <= i < |ts| =>
      if Booking(i, y) in c && ts[i].owner == o && y in ts[i].amounts then ts[i].amounts[y] else 0)
  }

  function CountedSum(ts: seq<Thread>, c: set<Booking>, o: string, y: string): int { Sum(CountedOf(ts, c, o, y)) }

  /** The store's tally holds the bookings in c, all of which were made on the store's day. */
  ghost predicate Holds(ts: seq<Thread>, x: T.Store, c: set<Booking>) {
    && (forall b :: b in c ==> b.id < |ts| && b.symbol in ts[b.id].recorded && ts[b.id].recorded[b.symbol] == x.day)
    && (forall o, y :: T.UsedAt(x, o, y) == CountedSum(ts, c, o, y))
  }

  ghost predicate Tallied(s: Sys, tr: Trail) {
    && T.Loads(s.meter.file) && AllOrderly(s)
    && Holds(s.threads, s.meter.store, tr.counted) && Holds(s.threads, T.Restarted(s.meter).store, tr.saved)
  }

  lemma HoldsSame(ts: seq<Thread>, x: T.Store, x': T.Store, c: set<Booking>)
    requires Holds(ts, x, c) && SameTally(x, x')
    ensures Holds(ts, x', c)
  {
    hide CountedSum;
    forall o, y ensures T.UsedAt(x', o, y) == CountedSum(ts, c, o, y) { assert SameUse(x, x', o, y); }
  }

  lemma HoldsEmptied(ts: seq<Thread>, x: T.Store, today: string)
    requires x.day != today
    ensures Holds(ts, T.Rolled(x, today), {})
  {
    forall o, y ensures CountedSum(ts, {}, o, y) == 0 { SumZero(CountedOf(ts, {}, o, y)); }
  }

  /** Threads may end, move on or be joined by others, as long as owners, amounts and old bookings stay. */
  lemma HoldsThreads(ts: seq<Thread>, ts': seq<Thread>, x: T.Store, c: set<Booking>)
    requires Holds(ts, x, c) && |ts| <= |ts'|
    requires forall i :: 0 <= i < |ts| ==> ts'[i].owner == ts[i].owner && ts'[i].amounts == ts[i].amounts
    requires forall i, y :: 0 <= i < |ts| && y in ts[i].recorded ==>
                              y in ts'[i].recorded && ts'[i].recorded[y] == ts[i].recorded[y]
    requires |ts'| <= |ts| + 1
    ensures Holds(ts', x, c)
  {
    hide Sum;
    forall o, y ensures CountedSum(ts', c, o, y) == CountedSum(ts, c, o, y) {
      var a, b := CountedOf(ts, c, o, y), CountedOf(ts', c, o, y);
      if |ts'| == |ts| {
        assert a == b;
      } else {
        assert b == a + [0];
        SumSnoc(a, 0);
      }
    }
  }

  lemma HoldsBooked(ts: seq<Thread>, x: T.Store, c: set<Booking>, id: nat, y: string, t: Thread)
    requires Holds(ts, x, c) && id < |ts| && y in ts[id].amounts && y !in ts[id].recorded
    requires t.owner == ts[id].owner && t.amounts == ts[id].amounts && t.recorded == ts[id].recorded[y := x.day]
    ensures Holds(ts[id := t], T.Added(x, t.owner, y, t.amounts[y]), c + {Booking(id, y)})
  {
    hide Sum;
    var ts', c', x' := ts[id := t], c + {Booking(id, y)}, T.Added(x, t.owner, y, t.amounts[y]);
    assert Booking(id, y) !in c;
    forall o, z ensures T.UsedAt(x', o, z) == CountedSum(ts', c', o, z) {
      var a := CountedOf(ts, c, o, z);
      var w := if z == y && t.owner == o then t.amounts[y] else a[id];
      SumUpdate(a, id, w);
      assert CountedOf(ts', c', o, z) == a[id := w];
    }
  }

  // ---- Steps ---------------------------------------------------------------------------

  lemma CalledStore(m: T.Machine, today: string, op: T.Op, w1: T.WriteOutcome, w2: T.WriteOutcome)
    requires !op.Record?
    ensures var n := T.Step(m, today, op, w1, w2).0;
            SameTally(if Empties(m, today, op) then T.Rolled(m.store, today) else m.store, n.store)
  {
    hide T.Encode, T.Decode, T.Judge;
  }

  lemma CalledTallied(s: Sys, today: string, op: T.Op, w1: T.WriteOutcome, w2: T.WriteOutcome, tr: Trail)
    requires Tallied(s, tr) && !op.Record?
    ensures Tallied(Metering(s, today, op, w1, w2), Called(s.meter, today, op, w1, w2, tr))
  {
    CalledStore(s.meter, today, op, w1, w2);
    QuietFile(s.meter, today, op, w1, w2);
    var r, tr' := Metering(s, today, op, w1, w2), Called(s.meter, today, op, w1, w2, tr);
    hide T.Step, Saves, Holds, SameTally, T.Rolled, T.Restarted, AllOrderly, T.Loads;
    SameOrderly(s, r);
    if Empties(s.meter, today, op) {
      HoldsEmptied(s.threads, s.meter.store, today);
      HoldsSame(s.threads, T.Rolled(s.meter.store, today), r.meter.store, {});
    } else {
      HoldsSame(s.threads, s.meter.store, r.meter.store, tr.counted);
    }
    if Saves(s.meter, today, op, w1, w2) {
      HoldsSame(s.threads, r.meter.store, T.Restarted(r.meter).store, tr'.counted);
    }
  }

  /** Whatever a step does to the threads, it keeps their owners, amounts and bookings. */
  lemma BookingsStay(cfg: Config, s: Sys, e: Event)
    requires Enabled(s, e) && AllOrderly(s)
    ensures var ts, ts' := s.threads, Next(cfg, s, e).threads;
            && |ts| <= |ts'| <= |ts| + 1
            && (forall i :: 0 <= i < |ts| ==> ts'[i].owner == ts[i].owner && ts'[i].amounts == ts[i].amounts)
            && (forall i, y :: 0 <= i < |ts| && y in ts[i].recorded ==>
                                 y in ts'[i].recorded && ts'[i].recorded[y] == ts[i].recorded[y])
  {
    hide T.Step, Saves, T.Restarted, Outflow, I.Accepts, T.Loads;
    forall i | 0 <= i < |s.threads| ensures Orderly(s.threads[i]) { }
  }

  /** A step that books nothing, given what it does to the meter. */
  lemma ThreadsTallied(cfg: Config, s: Sys, e: Event, r: Sys, tr: Trail)
    requires Enabled(s, e) && AllOrderly(s) && r.threads == s.threads && Tallied(r, tr)
    requires Next(cfg, s, e).meter == r.meter
    ensures Tallied(Next(cfg, s, e), tr)
  {
    hide Next, Enabled, Holds, T.Restarted, T.Loads, AllOrderly;
    BookingsStay(cfg, s, e);
    StepOrderly(cfg, s, e);
    HoldsThreads(s.threads, Next(cfg, s, e).threads, r.meter.store, tr.counted);
    HoldsThreads(s.threads, Next(cfg, s, e).threads, T.Restarted(r.meter).store, tr.saved);
  }

  lemma BookedTallied(r: Sys, id: nat, y: string, tr: Trail)
    requires Tallied(r, tr) && r.meter.store.day == r.clock && id < |r.threads|
    requires r.threads[id].phase.Recording? && y in r.threads[id].phase.todo
    requires y in r.threads[id].amounts && r.threads[id].amounts[y] > 0
    ensures Tallied(BookedIn(r, id, y, r.clock), tr.(counted := tr.counted + {Booking(id, y)}))
  {
    var t, r' := r.threads[id], BookedIn(r, id, y, r.clock);
    assert Orderly(t);
    NotedOrderly(t, y, r.clock);
    hide Holds, Orderly, T.Added, T.Loads;
    HoldsBooked(r.threads, r.meter.store, tr.counted, id, y, r'.threads[id]);
    HoldsThreads(r.threads, r'.threads, T.Restarted(r.meter).store, tr.saved);
  }

  lemma SavedTallied(r: Sys, tr: Trail)
    requires Tallied(r, tr) && r.meter.persistent
    ensures Tallied(r.(meter := r.meter.(file := Some(T.Encode(r.meter.store))), unsaved := {}),
                    tr.(saved := tr.counted))
  {
    hide T.Encode, T.Decode, Holds;
    var r' := r.(meter := r.meter.(file := Some(T.Encode(r.meter.store))), unsaved := {});
    T.Reloaded(r.meter.store);
    SameOrderly(r, r');
    HoldsSame(r.threads, r.meter.store, T.Restarted(r'.meter).store, tr.counted);
  }

  lemma RecordTallied(cfg: Config, s: Sys, e: Event, tr: Trail)
    requires e.RecordOne? && Enabled(s, e) && Tallied(s, tr)
    ensures Tallied(Next(cfg, s, e), Follow(s, e, tr))
  {
    var t, y := s.threads[e.id], e.symbol;
    hide Tallied;
    TalliedOrderly(s, tr);
    if t.amounts[y] <= 0 {
      NothingRecorded(cfg, s, e);
      ThreadsTallied(cfg, s, e, s, tr);
    } else {
      var op := T.Used(t.owner, y);
      var rolled := Metering(s, e.today, op, e.w1, e.w1);
      var tr1 := Called(s.meter, e.today, op, e.w1, e.w1, tr);
      CalledTallied(s, e.today, op, e.w1, e.w1, tr);
      MeteringThreads(s, e.today, op, e.w1, e.w1);
      RolledToday(s, e.today, t.owner, y, e.w1);
      BookedTallied(rolled, e.id, y, tr1);
      RecordInStages(cfg, s, e);
      if s.meter.persistent && e.w2.Renamed? {
        SavedTallied(BookedIn(rolled, e.id, y, e.today), tr1.(counted := tr1.counted + {Booking(e.id, y)}));
      }
    }
  }

  lemma TalliedOrderly(s: Sys, tr: Trail)
    requires Tallied(s, tr)
    ensures AllOrderly(s) && T.Loads(s.meter.file)
  {
  }

  lemma RestartTallied(cfg: Config, s: Sys, tr: Trail)
    requires Tallied(s, tr)
    ensures Enabled(s, Restart) && Tallied(Next(cfg, s, Restart), Trail(tr.saved, tr.saved))
  {
    StepOrderly(cfg, s, Restart);
    hide T.Decode, T.Loads, AllOrderly, Holds;
    var s' := Next(cfg, s, Restart);
    BookingsStay(cfg, s, Restart);
    HoldsThreads(s.threads, s'.threads, T.Restarted(s.meter).store, tr.saved);
    assert T.Restarted(s'.meter).store == s'.meter.store;
  }

  lemma StepTallied(cfg: Config, s: Sys, e: Event, tr: Trail)
    requires Enabled(s, e) && Tallied(s, tr)
    ensures Tallied(Next(cfg, s, e), Follow(s, e, tr))
  {
    hide Tallied, Metering, Called, AllOrderly, T.Step, Outflow, I.Accepts, T.Loads;
    TalliedOrderly(s, tr);
    match e
    case CheckOne(id, y, today, w) =>
      var op := T.Check(s.threads[id].owner, y, s.threads[id].amounts[y]);
      CalledTallied(s, today, op, w, w, tr);
      MeteringThreads(s, today, op, w, w);
      ThreadsTallied(cfg, s, e, Metering(s, today, op, w, w), Follow(s, e, tr));
    case RecordOne(_, _, _, _, _) => RecordTallied(cfg, s, e, tr);
    case Manage(today, op, w1, w2) => CalledTallied(s, today, op, w1, w2, tr);
    case Restart => RestartTallied(cfg, s, tr);
    case _ => ThreadsTallied(cfg, s, e, s, tr);
  }

  lemma {:induction false} RunTallied(cfg: Config, s: Sys, es: seq<Event>, tr: Trail)
    requires Valid(cfg, s, es) && Tallied(s, tr)
    ensures Tallied(Final(cfg, s, es), TrailOf(cfg, s, es, tr))
    decreases |es|
  {
    hide Tallied, Next, Enabled, Follow;
    if es != [] {
      StepTallied(cfg, s, es[0], tr);
      RunTallied(cfg, Next(cfg, s, es[0]), es[1..], Follow(s, es[0], tr));
    }
  }

  lemma FreshTallied(persistent: bool)
    ensures Tallied(Fresh(persistent), NOTHING)
  {
    forall o, y ensures CountedSum([], {}, o, y) == 0 { assert CountedOf([], {}, o, y) == []; }
  }

  /** Whatever the clock shows, whatever writes fail and whenever the server restarts, what the meter answers is the
      sum of the bookings its tally has taken in since it was last emptied, or nothing when it is asked about another
      day; and every one of those was booked on the tally's day. */
  lemma UsedIsCounted(
    persistent: bool, cfg: Config, es: seq<Event>, o: string, y: string, today: string, w: T.WriteOutcome)
    requires Valid(cfg, Fresh(persistent), es)
    ensures var s := Final(cfg, Fresh(persistent), es);
            var counted := TrailOf(cfg, Fresh(persistent), es, NOTHING).counted;
            && T.Step(s.meter, today, T.Used(o, y), w, w).1
               == T.UsedIs(if s.meter.store.day == today then CountedSum(s.threads, counted, o, y) else 0)
            && (forall b :: b in counted ==>
                  && b.id < |s.threads| && b.symbol in s.threads[b.id].recorded
                  && s.threads[b.id].recorded[b.symbol] == s.meter.store.day)
  {
    FreshTallied(persistent);
    RunTallied(cfg, Fresh(persistent), es, NOTHING);
    hide Valid, Final, TrailOf, CountedSum, T.Encode, T.Decode, T.Loads, T.Restarted, AllOrderly;
  }
}
