/** The two broadcast tools as the source writes them: claim, inspect, check, send, record, in sequence
    over shared stores. Each call is shown to be a path of the step system in Broadcast.dfy, so the
    theorems about interleaved runs speak about these handlers. */
module Handlers {
  import opened Prelude
  import opened Broadcast
  import O = Overshoot
  import T = TransferOut
  import S = TransferOutStore
  import I = Idempotency
  import L = Ledger
  import Rails

  /** What one call sees of the world: the clock at each critical section, how each write ends, the chain's
      answer and what the chain did. */
  datatype World = World(
    now: int, enforceDay: string, checkDay: string -> string, sendDay: string, recordDay: string -> string,
    ledgerDay: string, checkWrite: string -> T.WriteOutcome, rollWrite: string -> T.WriteOutcome,
    recordWrite: string -> T.WriteOutcome, accepted: bool, taken: bool)

  datatype Outcome = Duplicate | Refused | CapExceeded | ChainReject | Accepted

  class Server {
    const cfg: Config
    const limits: L.Config
    const tracker: I.Tracker
    const store: S.MemoryTransferOutStore
    const ledger: L.MemoryLedger
    ghost var boot: nat
    ghost var threads: seq<Thread>
    ghost var clock: string
    ghost var over: set<string>
    ghost var unsaved: set<Booking>
    ghost var forgotten: set<Booking>

    ghost predicate Wired() { tracker.ttl == cfg.ttl }

    ghost function View(): Sys
      reads this, tracker, store
    {
      Sys(store.State(), tracker.seen, boot, threads, clock, over, unsaved, forgotten)
    }

    constructor (cfg: Config, limits: L.Config, persistent: bool)
      requires cfg.ttl > 0
      ensures Wired() && View() == Fresh(persistent)
      ensures ledger.cap == (if L.DailyCap(limits).Some? then L.DailyCap(limits).value else 0)
    {
      this.cfg, this.limits := cfg, limits;
      tracker := new I.Tracker(cfg.ttl);
      store := new S.MemoryTransferOutStore(persistent, None);
      ledger := new L.MemoryLedger(limits.dailyWithdrawCap);
      boot, threads, clock, over, unsaved, forgotten := 0, [], "", {}, {}, {};
    }

    /** Checks every symbol; stops at the first refusal. */
    method CheckAll(owner: string, amounts: map<string, int>, world: World,
                    ghost id: nat, ghost start: Sys, ghost es0: seq<Event>)
      returns (ok: bool, ghost es: seq<Event>)
      requires Valid(cfg, start, es0) && Final(cfg, start, es0) == View()
      requires id < |threads| && threads[id].owner == owner && threads[id].amounts == amounts
      requires threads[id].phase == Checking(amounts.Keys)
      modifies store`day, store`used, store`file, this`threads, this`clock, this`over, this`unsaved
      ensures Valid(cfg, start, es) && Final(cfg, start, es) == View()
      ensures threads == old(threads)[id := old(threads)[id].(phase := if ok then Checking({}) else Ended)]
    {
      hide Valid, Final, T.Step;
      es := es0;
      var todo := amounts.Keys;
      while todo != {}
        invariant todo <= amounts.Keys
        invariant Valid(cfg, start, es) && Final(cfg, start, es) == View()
        invariant threads == old(threads)[id := old(threads)[id].(phase := Checking(todo))]
      {
        var sym :| sym in todo;
        ghost var m := View();
        ghost var e := CheckOne(id, sym, world.checkDay(sym), world.checkWrite(sym));
        O.RunSnoc(cfg, start, es, m, e);
        var v := store.Check(owner, sym, amounts[sym], world.checkDay(sym), world.checkWrite(sym));
        ghost var n := Next(cfg, m, e);
        threads, clock, over, unsaved := n.threads, n.clock, n.over, n.unsaved;
        es := es + [e];
        if v.Exceeded? { return false, es; }
        todo := todo - {sym};
      }
      ok := true;
    }

    /** Records every symbol. */
    method RecordAll(owner: string, amounts: map<string, int>, world: World,
                     ghost id: nat, ghost start: Sys, ghost es0: seq<Event>)
      returns (ghost es: seq<Event>)
      requires Valid(cfg, start, es0) && Final(cfg, start, es0) == View()
      requires id < |threads| && threads[id].owner == owner && threads[id].amounts == amounts
      requires threads[id].phase == Recording(amounts.Keys)
      modifies store`day, store`used, store`file, this`threads, this`clock, this`over, this`unsaved
      ensures Valid(cfg, start, es) && Final(cfg, start, es) == View()
      ensures |threads| == |old(threads)| && threads[..id] == old(threads)[..id]
      ensures threads[id] == old(threads)[id].(phase := Recording({}), recorded := threads[id].recorded)
    {
      hide Valid, Final, T.Step;
      es := es0;
      var todo := amounts.Keys;
      while todo != {}
        invariant todo <= amounts.Keys
        invariant Valid(cfg, start, es) && Final(cfg, start, es) == View()
        invariant |threads| == |old(threads)| && threads[..id] == old(threads)[..id]
        invariant threads[id] == old(threads)[id].(phase := Recording(todo), recorded := threads[id].recorded)
      {
        var sym :| sym in todo;
        ghost var m := View();
        ghost var e := RecordOne(id, sym, world.recordDay(sym), world.rollWrite(sym), world.recordWrite(sym));
        O.RunSnoc(cfg, start, es, m, e);
        store.Record(owner, sym, amounts[sym], world.recordDay(sym), world.rollWrite(sym), world.recordWrite(sym));
        ghost var n := Next(cfg, m, e);
        threads, clock, over, unsaved := n.threads, n.clock, n.over, n.unsaved;
        es := es + [e];
        todo := todo - {sym};
      }
    }

    /** The ghost history follows one event that touches no store. */
    ghost method Note(start: Sys, es0: seq<Event>, e: Event) returns (es: seq<Event>)
      requires Valid(cfg, start, es0) && Final(cfg, start, es0) == View()
      requires Enabled(View(), e) && (e.Drop? || e.Submit?)
      modifies this`threads, this`clock, this`over
      ensures Valid(cfg, start, es) && Final(cfg, start, es) == View() == Next(cfg, old(View()), e)
    {
      O.RunSnoc(cfg, start, es0, View(), e);
      ghost var n := Next(cfg, View(), e);
      threads, clock, over := n.threads, n.clock, n.over;
      es := es0 + [e];
    }

    /** Claims the key and opens the broadcast's history. */
    method Open(tenant: string, client: string, owner: string, tx: Tx, now: int, ghost start: Sys)
      returns (ok: bool, ghost es: seq<Event>)
      requires Wired() && start == View()
      modifies tracker, this`threads
      ensures Valid(cfg, start, es) && Final(cfg, start, es) == View()
      ensures ok == I.Accepts(start.seen, tenant, client, now)
      ensures View() == Next(cfg, start, Begin(tenant, client, owner, tx, now))
    {
      ghost var e := Begin(tenant, client, owner, tx, now);
      assert Valid(cfg, start, []) && Final(cfg, start, []) == start;
      O.RunSnoc(cfg, start, [], start, e);
      es := [] + [e];
      ok := tracker.Claim(tenant, client, now);
      threads := Next(cfg, start, e).threads;
    }

    /** What a call leaves behind in the history. */
    ghost predicate Told(start: Sys, now: Sys, r: Outcome, tenant: string, client: string, owner: string, tx: Tx) {
      if r.Duplicate? then now == start
      else
        && |now.threads| == |start.threads| + 1 && now.threads[..|start.threads|] == start.threads
        && var t := now.threads[|start.threads|];
           && t.tenant == tenant && t.client == client && t.owner == owner && t.tx == tx
           && t.submissions == (if r.Refused? || r.CapExceeded? then 0 else 1)
           && t.accepted == r.Accepted?
           && t.phase == if r.Accepted? then Recording({}) else Ended
    }

    /** `BroadcastEVMTx`, from the claim on. */
    method BroadcastEVMTx(tenant: string, client: string, owner: string, tx: Tx, world: World)
      returns (r: Outcome, ghost es: seq<Event>)
      requires Wired() && (tx.Evm? || tx.Garbled?)
      modifies tracker, store`day, store`used, store`file, this`threads, this`clock, this`over, this`unsaved
      ensures Valid(cfg, old(View()), es) && Final(cfg, old(View()), es) == View()
      ensures Told(old(View()), View(), r, tenant, client, owner, tx)
      ensures tx.Garbled? ==> r.Duplicate? || r.Refused?
      ensures r.Duplicate? <==> !I.Accepts(old(tracker.seen), tenant, client, world.now)
    {
      ghost var start, id := View(), |threads|;
      var ok;
      ok, es := Open(tenant, client, owner, tx, world.now, start);
      if !ok { return Duplicate, es; }
      if tx.Garbled? || cfg.ethOf(owner) != Some(tx.sender) { return Refused, es; }
      var amounts: map<string, int> := map[];
      if tx.home { amounts := Rails.DecodeTransferOut(tx.call, tx.sender, cfg.swap); }
      r, es := Send(owner, amounts, world, id, start, es);
      if r.Accepted? { es := RecordAll(owner, amounts, world, id, start, es); }
    }

    /** Check every symbol, then hand the transaction to the chain. */
    method Send(owner: string, amounts: map<string, int>, world: World,
                ghost id: nat, ghost start: Sys, ghost es0: seq<Event>)
      returns (r: Outcome, ghost es: seq<Event>)
      requires Valid(cfg, start, es0) && Final(cfg, start, es0) == View()
      requires id < |threads| && threads[id].owner == owner && threads[id].amounts == amounts
      requires threads[id].phase == Checking(amounts.Keys)
      modifies store`day, store`used, store`file, this`threads, this`clock, this`over, this`unsaved
      ensures Valid(cfg, start, es) && Final(cfg, start, es) == View()
      ensures r.CapExceeded? || r.ChainReject? || r.Accepted?
      ensures threads == old(threads)[id := old(threads)[id].(
                         phase := if r.Accepted? then Recording(amounts.Keys) else Ended,
                         submissions := old(threads)[id].submissions + (if r.CapExceeded? then 0 else 1),
                         sentOn := if r.CapExceeded? then old(threads)[id].sentOn else world.sendDay,
                         accepted := if r.CapExceeded? then old(threads)[id].accepted else r.Accepted?,
                         taken := if r.CapExceeded? then old(threads)[id].taken else world.taken)]
    {
      hide Valid, Final;
      var ok;
      ok, es := CheckAll(owner, amounts, world, id, start, es0);
      if !ok { return CapExceeded, es; }
      es := Note(start, es, Submit(id, world.accepted, world.taken, world.sendDay));
      r := if world.accepted then Accepted else ChainReject;
    }

    /** `BroadcastSignedTx`, from the claim on. The withdraw guard can refuse before the caps are checked,
        and the withdraw ledger books before the transfer-out meter does. */
    method BroadcastSignedTx(tenant: string, client: string, owner: string, tx: Tx, world: World)
      returns (r: Outcome, ghost es: seq<Event>)
      requires Wired() && (tx.Bank? || tx.Garbled?)
      requires tx.Bank? ==> forall i :: 0 <= i < |tx.msgs| && tx.msgs[i].Withdraw? ==> tx.msgs[i].quantums <= MAX_UINT64
      modifies tracker, store`day, store`used, store`file, ledger, this`threads, this`clock, this`over, this`unsaved
      ensures Valid(cfg, old(View()), es) && Final(cfg, old(View()), es) == View()
      ensures Told(old(View()), View(), r, tenant, client, owner, tx)
      ensures tx.Garbled? ==> r.Duplicate? || r.Refused?
      ensures r.Duplicate? <==> !I.Accepts(old(tracker.seen), tenant, client, world.now)
      ensures r.Accepted? ==>
                tx.Bank? && Booked(old(ledger.Current()), ledger.Current(), tenant, Rails.WithdrawSum(tx.msgs), world)
      ensures !r.Accepted? ==>
                || ledger.Current() == old(ledger.Current())
                || ledger.Current() == L.Rolled(old(ledger.Current()), world.enforceDay)
    {
      hide Valid, Final, L.Judge, L.Rolled, L.Recorded, Booked, Rails.WithdrawSum, I.Accepts, L.DailyCap, Rails.BankOut;
      ghost var start, id := View(), |threads|;
      var ok;
      ok, es := Open(tenant, client, owner, tx, world.now, start);
      if !ok { return Duplicate, es; }
      if tx.Garbled? || tx.signer != owner { return Refused, es; }
      var q := Guard(tenant, tx.msgs, world.enforceDay);
      if q.None? {
        es := Note(start, es, Drop(id));
        return Refused, es;
      }
      var amounts := Rails.ExtractBankSends(tx.msgs, tx.signer);
      r, es := Send(owner, amounts, world, id, start, es);
      if r.Accepted? {
        ghost var checked := ledger.Current();
        if q.value > 0 { ledger.Record(tenant, q.value, world.ledgerDay); }
        BookedAfter(old(ledger.Current()), checked, ledger.Current(), tenant, q.value, world);
        es := RecordAll(owner, amounts, world, id, start, es);
      }
    }

    /** The withdraw guard: the transaction's USDC withdrawals against the per-transaction and daily caps. */
    method Guard(tenant: string, msgs: seq<Rails.Msg>, day: string) returns (q: Option<nat>)
      requires forall i :: 0 <= i < |msgs| && msgs[i].Withdraw? ==> msgs[i].quantums <= MAX_UINT64
      modifies ledger
      ensures q.Some? ==> q.value == Rails.WithdrawSum(msgs) <= MAX_UINT64
      ensures q.Some? <==>
                && Rails.WithdrawSum(msgs) <= MAX_UINT64
                && (Rails.WithdrawSum(msgs) > 0 ==>
                      L.Judge(limits, L.Rolled(old(ledger.Current()), day), tenant, L.Withdraw,
                              Rails.WithdrawSum(msgs)) == L.Pass)
      ensures q.Some? ==> ledger.Current() ==
                            if q.value > 0 && L.DailyCap(limits).Some? then L.Rolled(old(ledger.Current()), day)
                            else old(ledger.Current())
      ensures ledger.Current() == old(ledger.Current()) || ledger.Current() == L.Rolled(old(ledger.Current()), day)
    {
      hide L.Rolled, Rails.WithdrawSum, L.PerToolCap;
      q := Rails.ExtractWithdrawQuantums(msgs);
      if q.Some? && q.value > 0 {
        var v := ledger.Enforce(limits, tenant, L.Withdraw, q.value, day);
        if v != L.Pass { return None; }
      }
    }

    lemma BookedAfter(before: L.Tally, checked: L.Tally, after: L.Tally, tenant: string, q: nat, world: World)
      requires q <= MAX_UINT64
      requires q > 0 ==> L.Judge(limits, L.Rolled(before, world.enforceDay), tenant, L.Withdraw, q) == L.Pass
      requires checked == if q > 0 && L.DailyCap(limits).Some? then L.Rolled(before, world.enforceDay) else before
      requires after == if q > 0 then L.Recorded(L.Rolled(checked, world.ledgerDay), tenant, q) else checked
      ensures Booked(before, after, tenant, q, world)
    {
      hide L.Judge, L.Rolled, L.Recorded;
    }

    /** The ledger after an accepted broadcast that withdraws q: untouched when q is zero; otherwise q passed
        the limits and was booked, exactly as one step of the serial model when a daily cap is set. */
    ghost predicate Booked(before: L.Tally, after: L.Tally, tenant: string, q: nat, world: World) {
      if q == 0 then after == before
      else
        && q <= MAX_UINT64
        && L.Judge(limits, L.Rolled(before, world.enforceDay), tenant, L.Withdraw, q) == L.Pass
        && (L.DailyCap(limits).Some? ==>
              after == L.Step(limits, before, L.Broadcast(tenant, q, world.enforceDay, true, world.ledgerDay)))
        && (L.DailyCap(limits).None? ==> after == L.Recorded(L.Rolled(before, world.ledgerDay), tenant, q))
    }
  }
}
