/** The two broadcast rails as one step system: `BroadcastSignedTx` and `BroadcastEVMTx` run
    claim, check, send and record as separate critical sections, so any number of broadcasts
    may stand between their check and their record while the day changes, sends fail, caps are
    set and the server restarts. */
module Broadcast {
  import opened Prelude
  import opened Sums
  import T = TransferOut
  import Rails
  import I = Idempotency

  // ---- State ---------------------------------------------------------------

  /** `Garbled` is a submission that does not decode. */
  datatype Tx =
    | Bank(signer: string, msgs: seq<Rails.Msg>)
    | Evm(sender: Rails.Address, home: bool, call: Rails.Call)
    | Garbled

  /** `ethOf` turns a wallet into its EVM address (bech32 decoding, not modelled). */
  datatype Config = Config(ttl: nat, swap: Rails.Swap, ethOf: string -> Option<Rails.Address>)

  /** What the transaction takes out of the owner's wallet; `None` when it does not decode or is not signed by
      the owner. A transaction for a foreign chain is not metered. */
  function Outflow(cfg: Config, owner: string, tx: Tx): Option<map<string, int>> {
    match tx
    case Bank(signer, msgs) => if signer == owner then Some(Rails.BankOut(msgs, signer)) else None
    case Evm(sender, home, call) =>
      if cfg.ethOf(owner) != Some(sender) then None
      else if home then Some(Rails.EvmOut(call, sender, cfg.swap)) else Some(map[])
    case Garbled => None
  }

  /** `todo` holds the symbols still to be checked, or still to be recorded. */
  datatype Phase = Checking(todo: set<string>) | Recording(todo: set<string>) | Ended

  /** One accepted claim and the broadcast that follows it. `boot` is the server life it belongs to,
      `submissions` how often it was sent, `sentOn` the day of the last send, `accepted` whether the server was told
      that the chain took it, `taken` whether the chain did, `recorded` the day each symbol was booked on. */
  datatype Thread = Thread(
    tenant: string, client: string, began: int, boot: nat,
    owner: string, tx: Tx, amounts: map<string, int>,
    phase: Phase, submissions: nat, sentOn: string, accepted: bool, taken: bool, recorded: map<string, string>)

  /** One symbol of one broadcast in the daily tally. */
  datatype Booking = Booking(id: nat, symbol: string)

  /** `clock` is the day the last event saw and `over` the days before it. `unsaved` holds the bookings made since
      the last write that succeeded, `forgotten` those a restart has dropped from the tally. */
  datatype Sys = Sys(
    meter: T.Machine, seen: I.Seen, boot: nat, threads: seq<Thread>,
    clock: string, over: set<string>, unsaved: set<Booking>, forgotten: set<Booking>)

  /** A server before its first call, with or without a file to keep its caps in. */
  function Fresh(persistent: bool): Sys { Sys(T.Machine(persistent, T.EMPTY, None), map[], 0, [], "", {}, {}, {}) }

  datatype Event =
    | Begin(tenant: string, client: string, owner: string, tx: Tx, now: int)
    | CheckOne(id: nat, symbol: string, today: string, w: T.WriteOutcome)
    | Drop(id: nat)  // refused by another guard before sending
    | Submit(id: nat, accepted: bool, taken: bool, today: string)  // the reply and the fact
    | RecordOne(id: nat, symbol: string, today: string, w1: T.WriteOutcome, w2: T.WriteOutcome)
    | Manage(today: string, op: T.Op, w1: T.WriteOutcome, w2: T.WriteOutcome)  // the cap tools
    | Restart

  predicate Enabled(s: Sys, e: Event) {
    match e
    case Begin(_, _, _, _, _) => true
    case CheckOne(id, y, _, _) =>
      id < |s.threads| && s.threads[id].phase.Checking? && y in s.threads[id].phase.todo && y in s.threads[id].amounts
    case Drop(id) => id < |s.threads| && s.threads[id].phase.Checking?
    case Submit(id, _, _, _) => id < |s.threads| && s.threads[id].phase == Checking({})
    case RecordOne(id, y, _, _, _) =>
      id < |s.threads| && s.threads[id].phase.Recording? && y in s.threads[id].phase.todo && y in s.threads[id].amounts
    case Manage(_, op, _, _) => !op.Record?
    case Restart => T.Loads(s.meter.file)
  }

  /** The clock shows `today`. */
  function At(s: Sys, today: string): Sys {
    s.(clock := today, over := if today == s.clock then s.over else s.over + {s.clock})
  }

  /** The meter moves to m; when some write of the call succeeded, every earlier booking is on file. */
  function Metered(s: Sys, today: string, m: T.Machine, saved: bool): Sys {
    At(s, today).(meter := m, unsaved := if saved then {} else s.unsaved)
  }

  /** Some write of this call reaches the file. */
  predicate Saves(m: T.Machine, today: string, op: T.Op, w1: T.WriteOutcome, w2: T.WriteOutcome) {
    m.persistent && T.LastWritten(T.StepAttempts(m, today, op, w1, w2)).Some?
  }

  /** One call on the meter, bookings aside. */
  function Metering(s: Sys, today: string, op: T.Op, w1: T.WriteOutcome, w2: T.WriteOutcome): Sys {
    Metered(s, today, T.Step(s.meter, today, op, w1, w2).0, Saves(s.meter, today, op, w1, w2))
  }

  function WithThread(s: Sys, id: nat, t: Thread): Sys
    requires id < |s.threads|
  {
    s.(threads := s.threads[id := t])
  }

  function Started(cfg: Config, s: Sys, tenant: string, client: string, owner: string, tx: Tx, now: int): Thread {
    var out := Outflow(cfg, owner, tx);
    if out.None? then Thread(tenant, client, now, s.boot, owner, tx, map[], Ended, 0, "", false, false, map[])
    else Thread(tenant, client, now, s.boot, owner, tx, out.value, Checking(out.value.Keys), 0, "", false, false, map[])
  }

  function Stopped(ts: seq<Thread>): seq<Thread> {
    seq(|ts|, i requires 0 <= i < |ts| => ts[i].(phase := Ended))
  }

  /** The thread after a verdict on one of its symbols. */
  function Judged(t: Thread, y: string, v: T.Verdict): Thread
    requires t.phase.Checking?
  {
    t.(phase := if v.Pass? then Checking(t.phase.todo - {y}) else Ended)
  }

  function Sent(t: Thread, accepted: bool, taken: bool, today: string): Thread {
    t.(submissions := t.submissions + 1, sentOn := today, accepted := accepted, taken := taken,
       phase := if accepted then Recording(t.amounts.Keys) else Ended)
  }

  /** The thread after one of its symbols was recorded; amounts that are not positive are not booked. */
  function Noted(t: Thread, y: string, today: string): Thread
    requires t.phase.Recording? && y in t.amounts
  {
    t.(phase := Recording(t.phase.todo - {y}),
       recorded := if t.amounts[y] > 0 then t.recorded[y := today] else t.recorded)
  }

  function Next(cfg: Config, s: Sys, e: Event): Sys
    requires Enabled(s, e)
  {
    match e
    case Begin(tenant, client, owner, tx, now) =>
      if I.Accepts(s.seen, tenant, client, now)
      then s.(seen := I.Claimed(s.seen, cfg.ttl, tenant, client, now),
              threads := s.threads + [Started(cfg, s, tenant, client, owner, tx, now)])
      else s
    case CheckOne(id, y, today, w) =>
      var t := s.threads[id];
      var op := T.Check(t.owner, y, t.amounts[y]);
      WithThread(Metering(s, today, op, w, w), id, Judged(t, y, T.Step(s.meter, today, op, w, w).1.verdict))
    case Drop(id) => WithThread(s, id, s.threads[id].(phase := Ended))
    case Submit(id, accepted, taken, today) => WithThread(At(s, today), id, Sent(s.threads[id], accepted, taken, today))
    case RecordOne(id, y, today, w1, w2) =>
      var t := s.threads[id];
      var r := Metering(s, today, T.Record(t.owner, y, t.amounts[y]), w1, w2);
      WithThread(r.(unsaved := if t.amounts[y] <= 0 || (s.meter.persistent && w2.Renamed?) then r.unsaved
                               else r.unsaved + {Booking(id, y)}),
                 id, Noted(t, y, today))
    case Manage(today, op, w1, w2) => Metering(s, today, op, w1, w2)
    case Restart =>
      Sys(T.Restarted(s.meter), map[], s.boot + 1, Stopped(s.threads), s.clock, s.over, {}, s.forgotten + s.unsaved)
  }

  predicate Valid(cfg: Config, s: Sys, es: seq<Event>)
    decreases es
  {
    es == [] || (Enabled(s, es[0]) && Valid(cfg, Next(cfg, s, es[0]), es[1..]))
  }

  function Final(cfg: Config, s: Sys, es: seq<Event>): Sys
    requires Valid(cfg, s, es)
    decreases es
  {
    if es == [] then s else Final(cfg, Next(cfg, s, es[0]), es[1..])
  }

  // ---- Cap safety ------------------------------------------------------------

  /** What the broadcast has had checked for the symbol and not yet recorded. */
  function Held(t: Thread, o: string, y: string): int {
    if t.owner == o && y in t.amounts && t.amounts[y] > 0
       && ((t.phase.Checking? && y !in t.phase.todo) || (t.phase.Recording? && y in t.phase.todo))
    then t.amounts[y] else 0
  }

  function HeldOf(ts: seq<Thread>, o: string, y: string): seq<int> {
    seq(|ts|, i requires 0 <= i < |ts| => Held(ts[i], o, y))
  }

  function InFlight(s: Sys, o: string, y: string): int { Sum(HeldOf(s.threads, o, y)) }

  function Concurrency(s: Sys, o: string, y: string): nat { Positive(HeldOf(s.threads, o, y)) }

  function Used(s: Sys, o: string, y: string): int { T.UsedAt(s.meter.store, o, y) }

  /** No state of the run has more than n broadcasts between check and record. */
  predicate AtMost(n: nat, cfg: Config, s: Sys, es: seq<Event>, o: string, y: string)
    decreases es
  {
    && Concurrency(s, o, y) <= n
    && (es == [] || (Enabled(s, es[0]) ==> AtMost(n, cfg, Next(cfg, s, es[0]), es[1..], o, y)))
  }

  /** The event leaves the cap of (o, y) at k. */
  predicate KeepsCap(e: Event, o: string, y: string, k: int) {
    e.Manage? ==>
      match e.op
      case SetCap(o', c) => (o' == o && c.symbol == y) ==> c.capBase == Some(k)
      case SetUnlimited(o', y') => o' != o || y' != y
      case _ => true
  }

  predicate Capped(s: Sys, o: string, y: string, k: int) {
    var c := T.CapAt(s.meter.store, o, y); c.Some? && c.value.capBase == Some(k)
  }

  predicate Within(s: Sys, o: string, y: string, k: nat) {
    && Capped(s, o, y, k)
    && 0 <= Used(s, o, y)
    && forall i :: 0 <= i < |s.threads| ==> Held(s.threads[i], o, y) <= k
  }

  /** Used plus in flight, against n caps. */
  predicate Bounded(n: nat, s: Sys, o: string, y: string, k: nat) {
    Used(s, o, y) + InFlight(s, o, y) <= n * k
  }

  lemma HeldUpdate(ts: seq<Thread>, id: nat, t: Thread, o: string, y: string)
    requires id < |ts|
    ensures Sum(HeldOf(ts[id := t], o, y)) == Sum(HeldOf(ts, o, y)) - Held(ts[id], o, y) + Held(t, o, y)
    ensures Positive(HeldOf(ts[id := t], o, y)) == Positive(HeldOf(ts, o, y))
              - (if Held(ts[id], o, y) > 0 then 1 else 0) + (if Held(t, o, y) > 0 then 1 else 0)
  {
    hide Held, Sum, Positive;
    SumUpdate(HeldOf(ts, o, y), id, Held(t, o, y));
    assert HeldOf(ts[id := t], o, y) == HeldOf(ts, o, y)[id := Held(t, o, y)];
  }

  lemma HeldBound(s: Sys, o: string, y: string, k: nat)
    requires Within(s, o, y, k)
    ensures 0 <= InFlight(s, o, y) <= Concurrency(s, o, y) * k
  {
    SumBound(HeldOf(s.threads, o, y), k);
  }

  /** The one step that raises the total: a check that passes. */
  lemma CheckKeeps(n: nat, cfg: Config, s: Sys, e: Event, o: string, y: string, k: nat)
    requires e.CheckOne? && Enabled(s, e) && Within(s, o, y, k) && Bounded(n, s, o, y, k)
    requires Concurrency(Next(cfg, s, e), o, y) <= n
    ensures Within(Next(cfg, s, e), o, y, k) && Bounded(n, Next(cfg, s, e), o, y, k)
  {
    hide Sum, Positive, HeldOf, T.Encode, T.Decode, T.Human.BaseToHuman, Saves;
    var t, s' := s.threads[e.id], Next(cfg, s, e);
    var t' := s'.threads[e.id];
    HeldUpdate(s.threads, e.id, t', o, y);
    HeldBound(s, o, y, k);
    if Held(t', o, y) > Held(t, o, y) {
      assert t.owner == o && e.symbol == y && Used(s', o, y) + t.amounts[y] <= k;
      Scale(Concurrency(s, o, y) + 1, n, k);
      assert (Concurrency(s, o, y) + 1) * k == Concurrency(s, o, y) * k + k;
    }
  }

  /** A record moves an amount from in flight to used, or resets used first. */
  lemma RecordKeeps(n: nat, cfg: Config, s: Sys, e: Event, o: string, y: string, k: nat)
    requires e.RecordOne? && Enabled(s, e) && Within(s, o, y, k) && Bounded(n, s, o, y, k)
    ensures Within(Next(cfg, s, e), o, y, k) && Bounded(n, Next(cfg, s, e), o, y, k)
  {
    hide Sum, Positive, HeldOf, T.Encode, T.Decode, T.Human.BaseToHuman, Saves;
    HeldUpdate(s.threads, e.id, Next(cfg, s, e).threads[e.id], o, y);
  }

  lemma ManageKeeps(n: nat, cfg: Config, s: Sys, e: Event, o: string, y: string, k: nat)
    requires e.Manage? && Enabled(s, e) && KeepsCap(e, o, y, k) && Within(s, o, y, k) && Bounded(n, s, o, y, k)
    ensures Within(Next(cfg, s, e), o, y, k) && Bounded(n, Next(cfg, s, e), o, y, k)
  {
    hide Sum, Positive, HeldOf, T.Encode, T.Decode, T.Human.BaseToHuman, Saves;
  }

  lemma BeginKeeps(n: nat, cfg: Config, s: Sys, e: Event, o: string, y: string, k: nat)
    requires e.Begin? && Within(s, o, y, k) && Bounded(n, s, o, y, k)
    ensures Within(Next(cfg, s, e), o, y, k) && Bounded(n, Next(cfg, s, e), o, y, k)
  {
    hide Sum, Positive, I.Accepts, Outflow;
    if I.Accepts(s.seen, e.tenant, e.client, e.now) {
      var t := Started(cfg, s, e.tenant, e.client, e.owner, e.tx, e.now);
      assert Held(t, o, y) == 0;
      assert HeldOf(s.threads + [t], o, y) == HeldOf(s.threads, o, y) + [0];
      SumSnoc(HeldOf(s.threads, o, y), 0);
    }
  }

  lemma StopKeeps(n: nat, cfg: Config, s: Sys, e: Event, o: string, y: string, k: nat)
    requires (e.Drop? || e.Submit?) && Enabled(s, e) && Within(s, o, y, k) && Bounded(n, s, o, y, k)
    ensures Within(Next(cfg, s, e), o, y, k) && Bounded(n, Next(cfg, s, e), o, y, k)
  {
    hide Sum, Positive, HeldOf;
    HeldUpdate(s.threads, e.id, Next(cfg, s, e).threads[e.id], o, y);
  }

  // ---- Restarts ---------------------------------------------------------------------

  /** A restart would bring back a store with the same cap and no more than n caps used. */
  predicate FileBounded(n: nat, s: Sys, o: string, y: string, k: nat) {
    T.Loads(s.meter.file) && StoreBounded(n, T.Restarted(s.meter).store, o, y, k)
  }

  predicate StoreBounded(n: nat, x: T.Store, o: string, y: string, k: nat) {
    && T.CapAt(x, o, y).Some? && T.CapAt(x, o, y).value.capBase == Some(k)
    && 0 <= T.UsedAt(x, o, y) <= n * k
  }

  /** Reading a snapshot back keeps the bound. */
  lemma EncodedBounded(n: nat, m: T.Machine, x: T.Store, o: string, y: string, k: nat)
    requires m.persistent && m.file == Some(T.Encode(x)) && StoreBounded(n, x, o, y, k)
    ensures T.Loads(m.file) && StoreBounded(n, T.Restarted(m).store, o, y, k)
  {
    hide T.Encode, T.Decode;
    T.Reloaded(x);
  }

  lemma MeteringFile(
    n: nat, s: Sys, today: string, op: T.Op, w1: T.WriteOutcome, w2: T.WriteOutcome, o: string, y: string, k: nat)
    requires FileBounded(n, s, o, y, k) && StoreBounded(n, s.meter.store, o, y, k)
    requires StoreBounded(n, T.Step(s.meter, today, op, w1, w2).0.store, o, y, k)
    ensures FileBounded(n, Metering(s, today, op, w1, w2), o, y, k)
  {
    var m := T.Step(s.meter, today, op, w1, w2).0;
    T.StepFileCases(s.meter, today, op, w1, w2);
    RolledBounded(n, s.meter.store, today, o, y, k);
    hide T.Encode, T.Decode, T.Step, StoreBounded, T.Loads, Saves;
    if m.file == s.meter.file {
      SameFileSameRestart(s.meter, m);
    } else if m.file == Some(T.Encode(m.store)) {
      EncodedBounded(n, m, m.store, o, y, k);
    } else {
      EncodedBounded(n, m, T.Rolled(s.meter.store, today), o, y, k);
    }
  }

  lemma RolledBounded(n: nat, x: T.Store, today: string, o: string, y: string, k: nat)
    requires StoreBounded(n, x, o, y, k)
    ensures StoreBounded(n, T.Rolled(x, today), o, y, k)
  {
  }

  lemma SameFileSameRestart(m: T.Machine, m': T.Machine)
    requires m.file == m'.file && m.persistent == m'.persistent && T.Loads(m.file)
    ensures T.Loads(m'.file) && T.Restarted(m').store == T.Restarted(m).store
  {
  }

  lemma StoreIsBounded(n: nat, s: Sys, o: string, y: string, k: nat)
    requires Within(s, o, y, k) && Bounded(n, s, o, y, k)
    ensures StoreBounded(n, s.meter.store, o, y, k)
  {
    hide Sum, Positive, HeldOf;
    HeldBound(s, o, y, k);
  }

  lemma FileKeeps(n: nat, cfg: Config, s: Sys, e: Event, o: string, y: string, k: nat)
    requires Enabled(s, e) && !e.Restart? && FileBounded(n, s, o, y, k)
    requires StoreBounded(n, s.meter.store, o, y, k) && StoreBounded(n, Next(cfg, s, e).meter.store, o, y, k)
    ensures FileBounded(n, Next(cfg, s, e), o, y, k)
  {
    hide StoreBounded, T.Step, T.Loads, T.Restarted, Saves, Outflow, I.Accepts, Judged, Noted, Sent;
    match e
    case Begin(_, _, _, _, _) =>
    case CheckOne(id, y', today, w) =>
      MeteringFile(n, s, today, T.Check(s.threads[id].owner, y', s.threads[id].amounts[y']), w, w, o, y, k);
    case Drop(_) =>
    case Submit(_, _, _, _) =>
    case RecordOne(id, y', today, w1, w2) =>
      MeteringFile(n, s, today, T.Record(s.threads[id].owner, y', s.threads[id].amounts[y']), w1, w2, o, y, k);
    case Manage(today, op, w1, w2) => MeteringFile(n, s, today, op, w1, w2, o, y, k);
  }

  lemma RestartKeeps(n: nat, cfg: Config, s: Sys, o: string, y: string, k: nat)
    requires Enabled(s, Restart) && FileBounded(n, s, o, y, k)
    ensures var s' := Next(cfg, s, Restart);
            Within(s', o, y, k) && Bounded(n, s', o, y, k) && FileBounded(n, s', o, y, k)
  {
    hide Sum, Positive, T.Decode;
    SumZero(HeldOf(Stopped(s.threads), o, y));
    assert T.Restarted(T.Restarted(s.meter)).store == T.Restarted(s.meter).store;
  }

  // ---- The theorem --------------------------------------------------------------------

  lemma StepKeeps(n: nat, restarts: bool, cfg: Config, s: Sys, e: Event, o: string, y: string, k: nat)
    requires Enabled(s, e) && KeepsCap(e, o, y, k) && (e.Restart? ==> restarts)
    requires Within(s, o, y, k) && Bounded(n, s, o, y, k) && (restarts ==> FileBounded(n, s, o, y, k))
    requires Concurrency(Next(cfg, s, e), o, y) <= n
    ensures Within(Next(cfg, s, e), o, y, k) && Bounded(n, Next(cfg, s, e), o, y, k)
    ensures restarts ==> FileBounded(n, Next(cfg, s, e), o, y, k)
  {
    hide Within, Bounded, Next, Concurrency, FileBounded, StoreBounded, KeepsCap, Enabled;
    match e {
      case Begin(_, _, _, _, _) => BeginKeeps(n, cfg, s, e, o, y, k);
      case CheckOne(_, _, _, _) => CheckKeeps(n, cfg, s, e, o, y, k);
      case Drop(_) => StopKeeps(n, cfg, s, e, o, y, k);
      case Submit(_, _, _, _) => StopKeeps(n, cfg, s, e, o, y, k);
      case RecordOne(_, _, _, _, _) => RecordKeeps(n, cfg, s, e, o, y, k);
      case Manage(_, _, _, _) => ManageKeeps(n, cfg, s, e, o, y, k);
      case Restart => RestartKeeps(n, cfg, s, o, y, k);
    }
    if restarts && !e.Restart? {
      StoreIsBounded(n, s, o, y, k);
      StoreIsBounded(n, Next(cfg, s, e), o, y, k);
      FileKeeps(n, cfg, s, e, o, y, k);
    }
  }

  /** Cap safety under interleaving: while the cap of (o, y) stays at k and at most n broadcasts stand between check
      and record, the tally plus what is in flight never exceeds n caps, over both rails, under any clock, across
      rollovers, failed sends, failed writes and restarts in any combination. When the run restarts the server,
      its file must hold the cap to begin with. */
  lemma {:induction false} CapSafety(
    n: nat, restarts: bool, cfg: Config, s: Sys, es: seq<Event>, o: string, y: string, k: nat)
    requires Valid(cfg, s, es) && AtMost(n, cfg, s, es, o, y)
    requires forall i :: 0 <= i < |es| ==> KeepsCap(es[i], o, y, k) && (es[i].Restart? ==> restarts)
    requires Within(s, o, y, k) && Bounded(n, s, o, y, k) && (restarts ==> FileBounded(n, s, o, y, k))
    ensures Within(Final(cfg, s, es), o, y, k) && Bounded(n, Final(cfg, s, es), o, y, k)
    decreases |es|
  {
    hide Within, Bounded, Next, Concurrency, Enabled, KeepsCap, FileBounded;
    if es != [] {
      StepKeeps(n, restarts, cfg, s, es[0], o, y, k);
      CapSafety(n, restarts, cfg, Next(cfg, s, es[0]), es[1..], o, y, k);
    }
  }

  /** One broadcast at a time never takes the tally past the cap. */
  lemma SerialNeverExceeds(restarts: bool, cfg: Config, s: Sys, es: seq<Event>, o: string, y: string, k: nat)
    requires Valid(cfg, s, es) && AtMost(1, cfg, s, es, o, y)
    requires forall i :: 0 <= i < |es| ==> KeepsCap(es[i], o, y, k) && (es[i].Restart? ==> restarts)
    requires Within(s, o, y, k) && Bounded(1, s, o, y, k) && (restarts ==> FileBounded(1, s, o, y, k))
    ensures Used(Final(cfg, s, es), o, y) <= k
  {
    hide Valid, Final, AtMost, FileBounded, KeepsCap;
    CapSafety(1, restarts, cfg, s, es, o, y, k);
    HeldBound(Final(cfg, s, es), o, y, k);
  }
}
