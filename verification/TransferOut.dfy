/** The per-owner, per-symbol daily transfer-out meter of `limits/transferout.go`, on
    values: its state, its operations, its file, and runs of operations with failing
    writes and restarts. The class that updates this state in place is in
    TransferOutStore.dfy. */
module TransferOut {
  import opened Prelude
  import opened Decimal
  import Human

  /** `capBase` is `None` for the nil pointer, which Check reads as "no cap". */
  datatype SymbolCap = SymbolCap(symbol: string, decimals: int, capBase: Option<int>)

  /** Owner, then symbol. `day` is the UTC date `used` belongs to, "" before the first use. */
  datatype Store = Store(
    day: string,
    caps: map<string, map<string, SymbolCap>>,
    used: map<string, map<string, int>>)

  const EMPTY := Store("", map[], map[])

  function CapAt(s: Store, owner: string, symbol: string): Option<SymbolCap> {
    if owner in s.caps && symbol in s.caps[owner] then Some(s.caps[owner][symbol]) else None
  }

  function UsedAt(s: Store, owner: string, symbol: string): int {
    if owner in s.used && symbol in s.used[owner] then s.used[owner][symbol] else 0
  }

  /** Nothing a caller can ask tells the two stores apart. */
  ghost predicate Same(s: Store, t: Store) {
    && s.day == t.day
    && (forall o, y :: CapAt(s, o, y) == CapAt(t, o, y))
    && (forall o, y :: UsedAt(s, o, y) == UsedAt(t, o, y))
  }

  // ---- Operations -------------------------------------------------------

  function WithCap(s: Store, owner: string, c: SymbolCap): (r: Store)
    ensures r.day == s.day && forall o, y :: UsedAt(r, o, y) == UsedAt(s, o, y)
    ensures forall o, y :: CapAt(r, o, y) == if o == owner && y == c.symbol then Some(c) else CapAt(s, o, y)
  {
    s.(caps := s.caps[owner := GetOr(s.caps, owner, map[])[c.symbol := c]])
  }

  function WithoutCap(s: Store, owner: string, symbol: string): (r: Store)
    ensures r.day == s.day && forall o, y :: UsedAt(r, o, y) == UsedAt(s, o, y)
    ensures forall o, y :: CapAt(r, o, y) == if o == owner && y == symbol then None else CapAt(s, o, y)
  {
    if owner in s.caps then s.(caps := s.caps[owner := s.caps[owner] - {symbol}]) else s
  }

  /** `rolloverLocked`: a new UTC date empties the tally and keeps the caps. */
  function Rolled(s: Store, today: string): (r: Store)
    ensures r.day == today
    ensures forall o, y :: CapAt(r, o, y) == CapAt(s, o, y)
    ensures forall o, y :: UsedAt(r, o, y) == if s.day == today then UsedAt(s, o, y) else 0
  {
    if s.day == today then s else Store(today, s.caps, map[])
  }

  function Added(s: Store, owner: string, symbol: string, amt: int): (r: Store)
    ensures r.day == s.day && forall o, y :: CapAt(r, o, y) == CapAt(s, o, y)
    ensures forall o, y :: UsedAt(r, o, y) == UsedAt(s, o, y) + if o == owner && y == symbol then amt else 0
  {
    var bySym := GetOr(s.used, owner, map[]);
    s.(used := s.used[owner := bySym[symbol := GetOr(bySym, symbol, 0) + amt]])
  }

  datatype Verdict = Pass | Exceeded(symbol: string, limit: string, requested: string, used: string)

  /** What Check answers once the tally belongs to today. */
  function Judge(s: Store, owner: string, symbol: string, amt: int): Verdict {
    var c := CapAt(s, owner, symbol);
    if amt <= 0 || c.None? || c.value.capBase.None? then Pass
    else
      var cap, used, d := c.value.capBase.value, UsedAt(s, owner, symbol), c.value.decimals;
      if used + amt > cap
      then Exceeded(c.value.symbol, Human.BaseToHuman(Some(cap), d), Human.BaseToHuman(Some(amt), d),
                    Human.BaseToHuman(Some(used), d))
      else Pass
  }

  /** A refusal happens exactly when the day's total would pass a set cap, and its texts are true at any number of
      decimals: they denote the cap, the request and the usage. */
  lemma RefusalIsTrue(s: Store, owner: string, symbol: string, amt: int)
    ensures var c, v := CapAt(s, owner, symbol), Judge(s, owner, symbol, amt);
            && (v.Exceeded? <==>
                  && amt > 0 && c.Some? && c.value.capBase.Some?
                  && UsedAt(s, owner, symbol) + amt > c.value.capBase.value)
            && (v.Exceeded? ==>
                  var d := Max(0, c.value.decimals);
                  && v.symbol == c.value.symbol
                  && Human.Denoted(v.limit, d) == c.value.capBase
                  && Human.Denoted(v.requested, d) == Some(amt)
                  && Human.Denoted(v.used, d) == Some(UsedAt(s, owner, symbol)))
  {
    hide Human.BaseToHuman, Human.Denoted;
    var c, used := CapAt(s, owner, symbol), UsedAt(s, owner, symbol);
    if c.Some? && c.value.capBase.Some? {
      Human.RenderedTruly(c.value.capBase.value, c.value.decimals);
      Human.RenderedTruly(amt, c.value.decimals);
      Human.RenderedTruly(used, c.value.decimals);
    }
  }

  // ---- The file ---------------------------------------------------------

  datatype PersistedCap = PersistedCap(symbol: string, decimals: int, capBase: string)

  datatype Snapshot = Snapshot(
    day: string,
    caps: map<string, map<string, PersistedCap>>,
    used: map<string, map<string, string>>)

  function PersistCap(c: SymbolCap): PersistedCap {
    PersistedCap(c.symbol, c.decimals, if c.capBase.None? then "0" else PrintInt(c.capBase.value))
  }

  function PersistCaps(m: map<string, SymbolCap>): map<string, PersistedCap> {
    map y | y in m :: PersistCap(m[y])
  }

  function PersistUses(m: map<string, int>): map<string, string> {
    map y | y in m :: PrintInt(m[y])
  }

  function EncodeCaps(caps: map<string, map<string, SymbolCap>>): map<string, map<string, PersistedCap>> {
    map o | o in caps && caps[o] != map[] :: PersistCaps(caps[o])
  }

  function EncodeUses(used: map<string, map<string, int>>): map<string, map<string, string>> {
    map o | o in used && used[o] != map[] :: PersistUses(used[o])
  }

  /** The snapshot `persistLocked` marshals: owners without entries are skipped. */
  function Encode(s: Store): Snapshot {
    Snapshot(s.day, EncodeCaps(s.caps), EncodeUses(s.used))
  }

  predicate NumericCaps(m: map<string, PersistedCap>) {
    forall y | y in m :: ParseInt(m[y].capBase).Some?
  }

  predicate NumericUses(m: map<string, string>) {
    forall y | y in m :: ParseInt(m[y]).Some?
  }

  predicate Numeric(p: Snapshot) {
    && (forall o | o in p.caps :: NumericCaps(p.caps[o]))
    && (forall o | o in p.used :: NumericUses(p.used[o]))
  }

  function LoadCap(c: PersistedCap): SymbolCap {
    SymbolCap(c.symbol, c.decimals, ParseInt(c.capBase))
  }

  function LoadCaps(m: map<string, PersistedCap>): map<string, SymbolCap> {
    map y | y in m :: LoadCap(m[y])
  }

  function LoadUses(m: map<string, string>): map<string, int>
    requires NumericUses(m)
  {
    map y | y in m :: ParseInt(m[y]).value
  }

  function DecodeCaps(m: map<string, map<string, PersistedCap>>): map<string, map<string, SymbolCap>> {
    map o | o in m && m[o] != map[] :: LoadCaps(m[o])
  }

  function DecodeUses(m: map<string, map<string, string>>): map<string, map<string, int>>
    requires forall o | o in m :: NumericUses(m[o])
  {
    map o | o in m && m[o] != map[] :: LoadUses(m[o])
  }

  /** `LoadMemoryTransferOutStore` on a file that exists: fails on any amount that is not a number. */
  function Decode(p: Snapshot): Option<Store> {
    if Numeric(p) then
      Some(Store(p.day, DecodeCaps(p.caps), DecodeUses(p.used)))
    else None
  }

  predicate NoNilCaps(s: Store) {
    forall o | o in s.caps :: forall y | y in s.caps[o] :: s.caps[o][y].capBase.Some?
  }

  /** A cap as it comes back from the file: the nil pointer has become zero. */
  function Denil(c: Option<SymbolCap>): Option<SymbolCap> {
    if c.Some? && c.value.capBase.None? then Some(c.value.(capBase := Some(0))) else c
  }

  lemma LoadPersistedCap(c: SymbolCap)
    ensures ParseInt(PersistCap(c).capBase).Some?
    ensures Some(LoadCap(PersistCap(c))) == Denil(Some(c))
  {
    if c.capBase.Some? { ParsePrint(c.capBase.value); } else { ParsePrint(0); }
  }

  lemma EncodeNumeric(s: Store)
    ensures Numeric(Encode(s))
  {
    hide PrintInt, ParseInt, PersistCap;
    forall c ensures ParseInt(PersistCap(c).capBase).Some? { LoadPersistedCap(c); }
    forall z: int ensures ParseInt(PrintInt(z)) == Some(z) { ParsePrint(z); }
  }

  lemma ReloadedCap(s: Store, o: string, y: string)
    requires Numeric(Encode(s))
    ensures CapAt(Decode(Encode(s)).value, o, y) == Denil(CapAt(s, o, y))
  {
    hide PrintInt, ParseInt, PersistCap, LoadCap, Numeric;
    if CapAt(s, o, y).Some? {
      LoadPersistedCap(s.caps[o][y]);
      assert Encode(s).caps[o][y] == PersistCap(s.caps[o][y]);
      assert Encode(s).caps[o] != map[];
    }
  }

  lemma ReloadedUse(s: Store, o: string, y: string)
    requires Numeric(Encode(s))
    ensures UsedAt(Decode(Encode(s)).value, o, y) == UsedAt(s, o, y)
  {
    hide PrintInt, ParseInt, PersistCap, LoadCap, Numeric;
    if o in s.used && y in s.used[o] {
      ParsePrint(s.used[o][y]);
      assert o in Encode(s).used && Encode(s).used[o][y] == PrintInt(s.used[o][y]);
      assert Encode(s).used[o] != map[];
    }
  }

  /** Every snapshot the store writes can be read back, and only nil caps come back changed. */
  lemma Reloaded(s: Store)
    ensures Decode(Encode(s)).Some?
    ensures var t := Decode(Encode(s)).value;
            && t.day == s.day
            && (forall o, y :: CapAt(t, o, y) == Denil(CapAt(s, o, y)))
            && (forall o, y :: UsedAt(t, o, y) == UsedAt(s, o, y))
  {
    hide CapAt, UsedAt, Denil, Numeric;
    EncodeNumeric(s);
    forall o, y ensures CapAt(Decode(Encode(s)).value, o, y) == Denil(CapAt(s, o, y)) { ReloadedCap(s, o, y); }
    forall o, y ensures UsedAt(Decode(Encode(s)).value, o, y) == UsedAt(s, o, y) { ReloadedUse(s, o, y); }
  }

  /** A reload is invisible exactly when no cap in the store is the nil pointer. */
  lemma ReloadInvisibleIff(s: Store)
    ensures Decode(Encode(s)).Some?
    ensures Same(Decode(Encode(s)).value, s) <==> NoNilCaps(s)
  {
    hide Encode, Decode;
    Reloaded(s);
    var t := Decode(Encode(s)).value;
    if Same(t, s) {
      forall o, y | o in s.caps && y in s.caps[o] ensures s.caps[o][y].capBase.Some? {
        assert CapAt(t, o, y) == CapAt(s, o, y);
      }
    }
  }

  /** A cap set with a nil amount lets everything through until the next restart, and nothing after it. */
  lemma NilCapTurnsIntoZero(owner: string, symbol: string, amt: int)
    requires amt > 0
    ensures var s := WithCap(EMPTY, owner, SymbolCap(symbol, 6, None));
            && Judge(s, owner, symbol, amt) == Pass
            && Decode(Encode(s)).Some?
            && Judge(Decode(Encode(s)).value, owner, symbol, amt).Exceeded?
  {
    hide Encode, Decode;
    var s := WithCap(EMPTY, owner, SymbolCap(symbol, 6, None));
    Reloaded(s);
    assert CapAt(s, owner, symbol) == Some(SymbolCap(symbol, 6, None));
  }

  // ---- Runs with failing writes and restarts ----------------------------

  /** How one temp-file write and rename ended. Only a completed rename touches the file. */
  datatype WriteOutcome = Renamed | MarshalFailed | WriteFailed | RenameFailed

  /** A store together with the file at its path; `persistent` is false for the empty path. */
  datatype Machine = Machine(persistent: bool, store: Store, file: Option<Snapshot>)

  predicate Loads(file: Option<Snapshot>) { file.None? || Decode(file.value).Some? }

  function Persist(m: Machine, w: WriteOutcome): (r: Machine)
    ensures r.store == m.store && r.persistent == m.persistent
    ensures Loads(m.file) ==> Loads(r.file)
  {
    Reloaded(m.store);
    if m.persistent && w.Renamed? then m.(file := Some(Encode(m.store))) else m
  }

  /** Startup: an absent file, or persistence switched off, gives the empty store. */
  function Restarted(m: Machine): Machine
    requires Loads(m.file)
  {
    m.(store := if m.persistent && m.file.Some? then Decode(m.file.value).value else EMPTY)
  }

  datatype Op =
    | SetCap(owner: string, cap: SymbolCap)
    | SetUnlimited(owner: string, symbol: string)
    | Cap(owner: string, symbol: string)
    | Used(owner: string, symbol: string)
    | Record(owner: string, symbol: string, amt: int)
    | Check(owner: string, symbol: string, amt: int)

  datatype Reply = Done | CapIs(cap: Option<SymbolCap>) | UsedIs(amt: int) | Checked(verdict: Verdict)

  /** The rollover that starts Used, Record and Check, with its own write. */
  function RollStep(m: Machine, today: string, w: WriteOutcome): (r: Machine)
    ensures r.store == Rolled(m.store, today) && r.persistent == m.persistent
    ensures Loads(m.file) ==> Loads(r.file)
  {
    if m.store.day == today then m else Persist(m.(store := Rolled(m.store, today)), w)
  }

  /** One locked call. `w1` is the outcome of the rollover's write, `w2` of the call's own. */
  function Step(m: Machine, today: string, op: Op, w1: WriteOutcome, w2: WriteOutcome): (r: (Machine, Reply))
    ensures r.0.persistent == m.persistent
    ensures Loads(m.file) ==> Loads(r.0.file)
    ensures op.Check? ==> r.1.Checked?
  {
    match op
    case SetCap(o, c) => (Persist(m.(store := WithCap(m.store, o, c)), w2), Done)
    case SetUnlimited(o, y) => (Persist(m.(store := WithoutCap(m.store, o, y)), w2), Done)
    case Cap(o, y) => (m, CapIs(CapAt(m.store, o, y)))
    case Used(o, y) =>
      var r := RollStep(m, today, w1);
      (r, UsedIs(UsedAt(r.store, o, y)))
    case Record(o, y, amt) =>
      if amt <= 0 then (m, Done)
      else
        var r := RollStep(m, today, w1);
        (Persist(r.(store := Added(r.store, o, y, amt)), w2), Done)
    case Check(o, y, amt) =>
      if amt <= 0 then (m, Checked(Pass))
      else
        var r := RollStep(m, today, w1);
        (r, Checked(Judge(r.store, o, y, amt)))
  }

  /** What (owner, symbol) has used by the tally of the day that is asked about. */
  function UsedToday(m: Machine, today: string, owner: string, symbol: string): int {
    if m.store.day == today then UsedAt(m.store, owner, symbol) else 0
  }

  /** The answer of Check: a refusal comes exactly when a set cap is less than the amount plus what was used today,
      where a tally of another day counts for nothing, and its texts denote cap, request and that usage. So on a new
      day whatever is within the cap passes. No cap and no tally but today's is touched by asking. */
  lemma CheckAnswers(m: Machine, today: string, o: string, y: string, amt: int, w1: WriteOutcome, w2: WriteOutcome)
    ensures var (m', reply) := Step(m, today, Check(o, y, amt), w1, w2);
            var c, used := CapAt(m.store, o, y), UsedToday(m, today, o, y);
            && reply.Checked?
            && (reply.verdict.Exceeded? <==>
                  amt > 0 && c.Some? && c.value.capBase.Some? && c.value.capBase.value < used + amt)
            && (reply.verdict.Exceeded? ==>
                  var d := Max(0, c.value.decimals);
                  && reply.verdict.symbol == c.value.symbol
                  && Human.Denoted(reply.verdict.limit, d) == c.value.capBase
                  && Human.Denoted(reply.verdict.requested, d) == Some(amt)
                  && Human.Denoted(reply.verdict.used, d) == Some(used))
            && (forall p, z :: CapAt(m'.store, p, z) == CapAt(m.store, p, z)
                               && UsedToday(m', today, p, z) == UsedToday(m, today, p, z))
  {
    hide Encode, Decode, Human.BaseToHuman, Human.Denoted;
    RefusalIsTrue(Rolled(m.store, today), o, y, amt);
  }

  /** The answer of Used, and what a record adds to it: the amount, if it is positive, to one tally of the day. */
  lemma RecordAdds(m: Machine, today: string, o: string, y: string, amt: int, w1: WriteOutcome, w2: WriteOutcome)
    ensures Step(m, today, Used(o, y), w1, w2).1 == UsedIs(UsedToday(m, today, o, y))
    ensures var m' := Step(m, today, Record(o, y, amt), w1, w2).0;
            forall p, z :: && CapAt(m'.store, p, z) == CapAt(m.store, p, z)
                           && UsedToday(m', today, p, z) == UsedToday(m, today, p, z)
                                                            + if p == o && z == y && amt > 0 then amt else 0
  {
    hide Encode, Decode;
  }

  /** What the cap tools do to every later question: a cap that is set is answered and judged by, one that is lifted
      lets everything pass, and neither touches another cap or any tally. */
  lemma CapToolsTakeEffect(
    m: Machine, today: string, later: string, o: string, c: SymbolCap, amt: int, w1: WriteOutcome, w2: WriteOutcome)
    ensures var capped := Step(m, today, SetCap(o, c), w1, w2).0;
            && Step(capped, later, Cap(o, c.symbol), w1, w2).1 == CapIs(Some(c))
            && (c.capBase.Some? ==>
                  var v := Step(capped, later, Check(o, c.symbol, amt), w1, w2).1.verdict;
                  v.Exceeded? <==> amt > 0 && c.capBase.value < UsedToday(m, later, o, c.symbol) + amt)
    ensures var lifted := Step(m, today, SetUnlimited(o, c.symbol), w1, w2).0;
            && Step(lifted, later, Cap(o, c.symbol), w1, w2).1 == CapIs(None)
            && Step(lifted, later, Check(o, c.symbol, amt), w1, w2).1 == Checked(Pass)
    ensures forall p, z, op | op in {SetCap(o, c), SetUnlimited(o, c.symbol)} ::
              var m' := Step(m, today, op, w1, w2).0;
              && (p != o || z != c.symbol ==> CapAt(m'.store, p, z) == CapAt(m.store, p, z))
              && UsedToday(m', later, p, z) == UsedToday(m, later, p, z)
  {
    hide Encode, Decode;
    CheckAnswers(Step(m, today, SetCap(o, c), w1, w2).0, later, o, c.symbol, amt, w1, w2);
  }

  datatype Event = Call(today: string, op: Op, w1: WriteOutcome, w2: WriteOutcome) | Restart

  function Run(m: Machine, es: seq<Event>): (Machine, seq<Reply>)
    requires Loads(m.file)
    decreases es
  {
    if es == [] then (m, [])
    else if es[0].Restart? then Run(Restarted(m), es[1..])
    else
      var (m1, reply) := Step(m, es[0].today, es[0].op, es[0].w1, es[0].w2);
      var (m2, replies) := Run(m1, es[1..]);
      (m2, [reply] + replies)
  }

  function WithoutRestarts(es: seq<Event>): seq<Event> {
    if es == [] then []
    else if es[0].Restart? then WithoutRestarts(es[1..])
    else [es[0]] + WithoutRestarts(es[1..])
  }

  /** Every write of the call succeeds and no nil cap is set. */
  predicate Healthy(e: Event) {
    e.Restart? || (e.w1.Renamed? && e.w2.Renamed? && (e.op.SetCap? ==> e.op.cap.capBase.Some?))
  }

  /** What a restart would bring back is what the store holds. */
  ghost predicate InSync(m: Machine) {
    && m.persistent && NoNilCaps(m.store) && Loads(m.file) && Same(Restarted(m).store, m.store)
  }

  lemma PersistSyncs(m: Machine)
    requires m.persistent && NoNilCaps(m.store)
    ensures InSync(Persist(m, Renamed))
  {
    ReloadInvisibleIff(m.store);
  }

  /** NoNilCaps through the observer, which is all Same speaks about. */
  lemma NoNilCapsSame(s: Store, t: Store)
    requires Same(s, t) && NoNilCaps(s)
    ensures NoNilCaps(t)
  {
    forall o, y | o in t.caps && y in t.caps[o] ensures t.caps[o][y].capBase.Some? {
      assert CapAt(t, o, y) == CapAt(s, o, y);
    }
  }

  lemma RestartSyncs(m: Machine)
    requires InSync(m)
    ensures InSync(Restarted(m)) && Same(Restarted(m).store, m.store)
  {
    NoNilCapsSame(m.store, Restarted(m).store);
  }

  lemma RollSyncs(m: Machine, today: string)
    requires InSync(m)
    ensures InSync(RollStep(m, today, Renamed))
  {
    if m.store.day != today {
      var r := m.(store := Rolled(m.store, today));
      PersistSyncs(r);
    }
  }

  lemma StepSyncs(m: Machine, today: string, op: Op)
    requires InSync(m) && (op.SetCap? ==> op.cap.capBase.Some?)
    ensures InSync(Step(m, today, op, Renamed, Renamed).0)
  {
    hide InSync, RollStep, Same;
    match op
    case SetCap(o, c) => NoNilAfterSet(m, o, c); PersistSyncs(m.(store := WithCap(m.store, o, c)));
    case SetUnlimited(o, y) => NoNilAfterUnset(m, o, y); PersistSyncs(m.(store := WithoutCap(m.store, o, y)));
    case Cap(_, _) =>
    case Used(_, _) => RollSyncs(m, today);
    case Record(o, y, amt) =>
      RollSyncs(m, today);
      var r := RollStep(m, today, Renamed);
      SyncedFacts(r);
      if amt > 0 { PersistSyncs(r.(store := Added(r.store, o, y, amt))); }
    case Check(_, _, _) => RollSyncs(m, today);
  }

  lemma SyncedFacts(m: Machine)
    requires InSync(m)
    ensures m.persistent && NoNilCaps(m.store)
  {
  }

  lemma NoNilAfterSet(m: Machine, o: string, c: SymbolCap)
    requires InSync(m) && c.capBase.Some?
    ensures m.persistent && NoNilCaps(WithCap(m.store, o, c))
  {
    hide Same, Restarted;
    var r := WithCap(m.store, o, c);
    forall o', y | o' in r.caps && y in r.caps[o'] ensures r.caps[o'][y].capBase.Some? {
      assert CapAt(r, o', y).Some?;
      assert (o' == o && y == c.symbol) || CapAt(m.store, o', y).Some?;
    }
  }

  lemma NoNilAfterUnset(m: Machine, o: string, y: string)
    requires InSync(m)
    ensures m.persistent && NoNilCaps(WithoutCap(m.store, o, y))
  {
  }

  /** The same call on two stores that look alike gives the same answer and lookalikes again. */
  lemma StepSame(m: Machine, n: Machine, today: string, op: Op)
    requires Same(m.store, n.store)
    ensures Step(m, today, op, Renamed, Renamed).1 == Step(n, today, op, Renamed, Renamed).1
    ensures Same(Step(m, today, op, Renamed, Renamed).0.store, Step(n, today, op, Renamed, Renamed).0.store)
  {
    hide Encode, Decode;
    match op
    case SetCap(_, _) =>
    case SetUnlimited(_, _) =>
    case Cap(_, _) =>
    case Used(_, _) =>
    case Record(_, _, _) =>
    case Check(_, _, _) =>
  }

  /** Restart transparency: with a persistent store, every write succeeding and no nil cap set, restarts
      anywhere in a run under any clock change no answer given after them. */
  lemma {:induction false} RestartTransparent(m: Machine, n: Machine, es: seq<Event>)
    requires InSync(m) && InSync(n) && Same(m.store, n.store)
    requires forall i :: 0 <= i < |es| ==> Healthy(es[i])
    ensures Run(m, es).1 == Run(n, WithoutRestarts(es)).1
    ensures Same(Run(m, es).0.store, Run(n, WithoutRestarts(es)).0.store)
    decreases |es|
  {
    hide InSync, Step, Restarted, Same;
    SyncLoads(m);
    SyncLoads(n);
    if es == [] {
    } else if es[0].Restart? {
      RestartSyncs(m);
      SameTrans(Restarted(m).store, m.store, n.store);
      RestartTransparent(Restarted(m), n, es[1..]);
    } else {
      var e := es[0];
      assert Healthy(e);
      StepSyncs(m, e.today, e.op);
      StepSyncs(n, e.today, e.op);
      StepSame(m, n, e.today, e.op);
      var m1, n1 := Step(m, e.today, e.op, Renamed, Renamed).0, Step(n, e.today, e.op, Renamed, Renamed).0;
      RestartTransparent(m1, n1, es[1..]);
      assert WithoutRestarts(es)[1..] == WithoutRestarts(es[1..]);
    }
  }

  lemma SyncLoads(m: Machine)
    requires InSync(m)
    ensures Loads(m.file)
  {
  }

  lemma SameTrans(s: Store, t: Store, u: Store)
    requires Same(s, t) && Same(t, u)
    ensures Same(s, u)
  {
  }

  // ---- Write failures ----------------------------------------------------

  /** One attempt to write the file: the store at that moment and how it ended. */
  datatype Attempt = Attempt(store: Store, outcome: WriteOutcome)

  function RollAttempts(m: Machine, today: string, w: WriteOutcome): seq<Attempt> {
    if m.store.day == today then [] else [Attempt(Rolled(m.store, today), w)]
  }

  function StepAttempts(m: Machine, today: string, op: Op, w1: WriteOutcome, w2: WriteOutcome): seq<Attempt> {
    var after := Step(m, today, op, w1, w2).0.store;
    match op
    case SetCap(_, _) => [Attempt(after, w2)]
    case SetUnlimited(_, _) => [Attempt(after, w2)]
    case Cap(_, _) => []
    case Used(_, _) => RollAttempts(m, today, w1)
    case Record(_, _, amt) => if amt <= 0 then [] else RollAttempts(m, today, w1) + [Attempt(after, w2)]
    case Check(_, _, amt) => if amt <= 0 then [] else RollAttempts(m, today, w1)
  }

  function Attempts(m: Machine, es: seq<Event>): seq<Attempt>
    requires Loads(m.file)
    decreases es
  {
    if es == [] then []
    else if es[0].Restart? then Attempts(Restarted(m), es[1..])
    else
      StepAttempts(m, es[0].today, es[0].op, es[0].w1, es[0].w2)
      + Attempts(Step(m, es[0].today, es[0].op, es[0].w1, es[0].w2).0, es[1..])
  }

  /** The store at the last attempt that succeeded. */
  function LastWritten(atts: seq<Attempt>): Option<Store> {
    if atts == [] then None
    else if atts[|atts| - 1].outcome.Renamed? then Some(atts[|atts| - 1].store)
    else LastWritten(atts[..|atts| - 1])
  }

  function FileAfter(before: Option<Snapshot>, atts: seq<Attempt>): Option<Snapshot> {
    if LastWritten(atts).None? then before else Some(Encode(LastWritten(atts).value))
  }

  lemma {:induction false} LastWrittenConcat(a: seq<Attempt>, b: seq<Attempt>)
    ensures LastWritten(a + b) == if LastWritten(b).Some? then LastWritten(b) else LastWritten(a)
  {
    if b == [] {
      assert a + b == a;
    } else {
      assert (a + b)[..|a + b| - 1] == a + b[..|b| - 1];
      LastWrittenConcat(a, b[..|b| - 1]);
    }
  }

  lemma LastWrittenNone()
    ensures LastWritten([]) == None
  {
  }

  lemma LastWrittenOne(a: Attempt)
    ensures LastWritten([a]) == if a.outcome.Renamed? then Some(a.store) else None
  {
    assert [a][..0] == [];
  }

  lemma StepFile(m: Machine, today: string, op: Op, w1: WriteOutcome, w2: WriteOutcome)
    requires m.persistent
    ensures Step(m, today, op, w1, w2).0.file == FileAfter(m.file, StepAttempts(m, today, op, w1, w2))
  {
    hide Encode, Decode, Same, LastWritten;
    var last := Attempt(Step(m, today, op, w1, w2).0.store, w2);
    LastWrittenOne(last);
    LastWrittenOne(Attempt(Rolled(m.store, today), w1));
    LastWrittenNone();
    LastWrittenConcat(RollAttempts(m, today, w1), [last]);
  }

  /** What a call can leave in the file: what was there, or the store after its rollover, or the store after it. */
  lemma StepFileCases(m: Machine, today: string, op: Op, w1: WriteOutcome, w2: WriteOutcome)
    ensures var r := Step(m, today, op, w1, w2).0;
            || r.file == m.file
            || (m.persistent && (r.file == Some(Encode(Rolled(m.store, today))) || r.file == Some(Encode(r.store))))
  {
    hide Encode, Decode, Judge;
  }

  /** Write-failure safety: whatever writes fail and whenever the server restarts, the file holds one
      complete snapshot, that of the store at the last attempt that succeeded. */
  lemma {:induction false} FileIsLastWritten(m: Machine, es: seq<Event>)
    requires m.persistent && Loads(m.file)
    ensures Run(m, es).0.file == FileAfter(m.file, Attempts(m, es))
    ensures Run(m, es).0.persistent && Loads(Run(m, es).0.file)
    decreases |es|
  {
    hide Encode, Step, StepAttempts, Restarted, Loads;
    if es == [] {
    } else if es[0].Restart? {
      RestartKeepsFile(m);
      FileIsLastWritten(Restarted(m), es[1..]);
    } else {
      var e := es[0];
      StepFile(m, e.today, e.op, e.w1, e.w2);
      var m1 := Step(m, e.today, e.op, e.w1, e.w2).0;
      FileIsLastWritten(m1, es[1..]);
      LastWrittenConcat(StepAttempts(m, e.today, e.op, e.w1, e.w2), Attempts(m1, es[1..]));
    }
  }

  lemma RestartKeepsFile(m: Machine)
    requires Loads(m.file)
    ensures Restarted(m).file == m.file && Restarted(m).persistent == m.persistent
  {
  }

  /** So a restart brings back exactly the day, the tallies and the caps of the last successful write, a nil cap as
      zero; nothing tells it from that store if and only if no cap in it was nil. */
  lemma RestartAfterFailures(m: Machine, es: seq<Event>)
    requires m.persistent && Loads(m.file) && LastWritten(Attempts(m, es)).Some?
    ensures Loads(Run(m, es).0.file)
    ensures var last, back := LastWritten(Attempts(m, es)).value, Restarted(Run(m, es).0).store;
            && back.day == last.day
            && (forall o, y :: CapAt(back, o, y) == Denil(CapAt(last, o, y)))
            && (forall o, y :: UsedAt(back, o, y) == UsedAt(last, o, y))
            && (Same(back, last) <==> NoNilCaps(last))
  {
    hide Encode, Decode, Attempts, Run, LastWritten, Same, NoNilCaps, Denil;
    FileIsLastWritten(m, es);
    Reloaded(LastWritten(Attempts(m, es)).value);
    ReloadInvisibleIff(LastWritten(Attempts(m, es)).value);
  }

  /** The first later write that succeeds, a rollover's by Used or Check included, reconciles the file with the
      store, whatever failed before it. */
  lemma NextWriteReconciles(m: Machine, today: string, op: Op, w1: WriteOutcome, w2: WriteOutcome)
    requires m.persistent
    requires var a := StepAttempts(m, today, op, w1, w2); a != [] && a[|a| - 1].outcome.Renamed?
    ensures var r := Step(m, today, op, w1, w2).0; r.file == Some(Encode(r.store))
  {
    hide Encode, Decode, Judge, LastWritten;
    var a := StepAttempts(m, today, op, w1, w2);
    StepFile(m, today, op, w1, w2);
    LastWrittenConcat(a[..|a| - 1], [a[|a| - 1]]);
    LastWrittenOne(a[|a| - 1]);
    assert a == a[..|a| - 1] + [a[|a| - 1]];
  }
}
