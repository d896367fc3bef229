/** `MemoryTransferOutStore` as the source has it: fields updated in place under a lock,
    loops over its maps, and a file that is replaced after every change. Every method is
    tied to the value-level specification in TransferOut.dfy. */
module TransferOutStore {
  import opened Prelude
  import opened Decimal
  import T = TransferOut

  method PersistCaps(m: map<string, T.SymbolCap>) returns (r: map<string, T.PersistedCap>)
    ensures r == T.PersistCaps(m)
  {
    r := map[];
    var todo := m.Keys;
    while todo != {}
      invariant todo <= m.Keys
      invariant r == map y | y in m && y !in todo :: T.PersistCap(m[y])
    {
      var y :| y in todo;
      r := r[y := T.PersistCap(m[y])];
      todo := todo - {y};
    }
  }

  method PersistUses(m: map<string, int>) returns (r: map<string, string>)
    ensures r == T.PersistUses(m)
  {
    r := map[];
    var todo := m.Keys;
    while todo != {}
      invariant todo <= m.Keys
      invariant r == map y | y in m && y !in todo :: PrintInt(m[y])
    {
      var y :| y in todo;
      r := r[y := PrintInt(m[y])];
      todo := todo - {y};
    }
  }

  method EncodeCaps(caps: map<string, map<string, T.SymbolCap>>)
    returns (r: map<string, map<string, T.PersistedCap>>)
    ensures r == T.EncodeCaps(caps)
  {
    r := map[];
    var todo := caps.Keys;
    while todo != {}
      invariant todo <= caps.Keys
      invariant r == map o | o in caps && caps[o] != map[] && o !in todo :: T.PersistCaps(caps[o])
    {
      var o :| o in todo;
      todo := todo - {o};
      if caps[o] != map[] {
        var entry := PersistCaps(caps[o]);
        r := r[o := entry];
      }
    }
  }

  method EncodeUses(used: map<string, map<string, int>>) returns (r: map<string, map<string, string>>)
    ensures r == T.EncodeUses(used)
  {
    r := map[];
    var todo := used.Keys;
    while todo != {}
      invariant todo <= used.Keys
      invariant r == map o | o in used && used[o] != map[] && o !in todo :: T.PersistUses(used[o])
    {
      var o :| o in todo;
      todo := todo - {o};
      if used[o] != map[] {
        var entry := PersistUses(used[o]);
        r := r[o := entry];
      }
    }
  }

  /** One owner's caps; `None` at the first `cap_base` that is not a number. */
  method LoadCaps(m: map<string, T.PersistedCap>) returns (r: Option<map<string, T.SymbolCap>>)
    ensures r == if T.NumericCaps(m) then Some(T.LoadCaps(m)) else None
  {
    var out: map<string, T.SymbolCap> := map[];
    var todo := m.Keys;
    while todo != {}
      invariant todo <= m.Keys
      invariant forall y | y in m && y !in todo :: ParseInt(m[y].capBase).Some?
      invariant out == map y | y in m && y !in todo :: T.LoadCap(m[y])
    {
      var y :| y in todo;
      todo := todo - {y};
      if ParseInt(m[y].capBase).None? { return None; }
      out := out[y := T.LoadCap(m[y])];
    }
    assert out == T.LoadCaps(m);
    r := Some(out);
  }

  method LoadUses(m: map<string, string>) returns (r: Option<map<string, int>>)
    ensures r == if T.NumericUses(m) then Some(T.LoadUses(m)) else None
  {
    var out: map<string, int> := map[];
    var todo := m.Keys;
    while todo != {}
      invariant todo <= m.Keys
      invariant forall y | y in m && y !in todo :: ParseInt(m[y]).Some?
      invariant out == map y | y in m && y !in todo :: ParseInt(m[y]).value
    {
      var y :| y in todo;
      todo := todo - {y};
      if ParseInt(m[y]).None? { return None; }
      out := out[y := ParseInt(m[y]).value];
    }
    assert out == T.LoadUses(m);
    r := Some(out);
  }

  method DecodeCaps(m: map<string, map<string, T.PersistedCap>>)
    returns (r: Option<map<string, map<string, T.SymbolCap>>>)
    ensures r.Some? <==> forall o | o in m :: T.NumericCaps(m[o])
    ensures r.Some? ==> r.value == T.DecodeCaps(m)
  {
    hide T.NumericCaps, T.LoadCaps;
    var caps: map<string, map<string, T.SymbolCap>> := map[];
    var todo := m.Keys;
    while todo != {}
      invariant todo <= m.Keys
      invariant forall o | o in m && o !in todo :: T.NumericCaps(m[o])
      invariant caps == map o | o in m && m[o] != map[] && o !in todo :: T.LoadCaps(m[o])
    {
      var o :| o in todo;
      todo := todo - {o};
      var entry := LoadCaps(m[o]);
      if entry.None? { return None; }
      if m[o] != map[] { caps := caps[o := entry.value]; }
    }
    r := Some(caps);
  }

  method DecodeUses(m: map<string, map<string, string>>) returns (r: Option<map<string, map<string, int>>>)
    ensures r.Some? <==> forall o | o in m :: T.NumericUses(m[o])
    ensures r.Some? ==> r.value == T.DecodeUses(m)
  {
    hide T.NumericUses, T.LoadUses;
    var used: map<string, map<string, int>> := map[];
    var todo := m.Keys;
    while todo != {}
      invariant todo <= m.Keys
      invariant forall o | o in m && o !in todo :: T.NumericUses(m[o])
      invariant used == map o | o in m && m[o] != map[] && o !in todo :: T.LoadUses(m[o])
    {
      var o :| o in todo;
      todo := todo - {o};
      var entry := LoadUses(m[o]);
      if entry.None? { return None; }
      if m[o] != map[] { used := used[o := entry.value]; }
    }
    r := Some(used);
  }

  /** The whole file. Owners without entries leave no trace. */
  method DecodeFile(p: T.Snapshot) returns (r: Option<T.Store>)
    ensures r == T.Decode(p)
  {
    hide T.NumericCaps, T.NumericUses, T.DecodeCaps, T.DecodeUses;
    var caps := DecodeCaps(p.caps);
    if caps.None? { return None; }
    var used := DecodeUses(p.used);
    if used.None? { return None; }
    r := Some(T.Store(p.day, caps.value, used.value));
  }

  /** What reading the path and parsing what is there can give. */
  datatype OnDisk = Missing | Unreadable | Unparsable | Parsed(snapshot: T.Snapshot)

  class MemoryTransferOutStore {
    const persistent: bool  // a non-empty path
    var day: string
    var caps: map<string, map<string, T.SymbolCap>>
    var used: map<string, map<string, int>>
    var file: Option<T.Snapshot>  // what is at the path

    ghost function State(): T.Machine
      reads this
    {
      T.Machine(persistent, T.Store(day, caps, used), file)
    }

    /** A store that has not read its file yet. */
    constructor (persistent: bool, file: Option<T.Snapshot>)
      ensures State() == T.Machine(persistent, T.EMPTY, file)
    {
      this.persistent := persistent;
      this.file := file;
      day, caps, used := "", map[], map[];
    }

    /** Startup: fails exactly when a persistent store's file is there and cannot be read, is not a snapshot, or
        holds a non-number. A missing file, or no path, gives the empty store. */
    static method Load(persistent: bool, disk: OnDisk) returns (s: MemoryTransferOutStore?)
      ensures s == null <==>
              persistent && !disk.Missing? && !(disk.Parsed? && T.Decode(disk.snapshot).Some?)
      ensures s != null ==> fresh(s) && s.persistent == persistent
      ensures s != null ==>
              s.State().store == if persistent && disk.Parsed? then T.Decode(disk.snapshot).value else T.EMPTY
      ensures s != null ==> s.file == (if disk.Parsed? then Some(disk.snapshot) else None)
    {
      s := new MemoryTransferOutStore(persistent, if disk.Parsed? then Some(disk.snapshot) else None);
      if !persistent || disk.Missing? { return; }
      if disk.Unreadable? || disk.Unparsable? { return null; }
      var loaded := DecodeFile(disk.snapshot);
      if loaded.None? { return null; }
      s.day, s.caps, s.used := loaded.value.day, loaded.value.caps, loaded.value.used;
    }

    method PersistLocked(w: T.WriteOutcome)
      modifies this`file
      ensures State() == T.Persist(old(State()), w)
    {
      if !persistent { return; }
      var pc := EncodeCaps(caps);
      var pu := EncodeUses(used);
      if w.Renamed? { file := Some(T.Snapshot(day, pc, pu)); }
    }

    method RolloverLocked(today: string, w: T.WriteOutcome)
      modifies this`day, this`used, this`file
      ensures State() == T.RollStep(old(State()), today, w)
    {
      if day == today { return; }
      day := today;
      while used.Keys != {}
        invariant day == today && file == old(file)
        decreases |used|
      {
        var k :| k in used.Keys;
        var rest := used - {k};
        assert rest.Keys == used.Keys - {k};
        assert |rest.Keys| == |used.Keys| - 1;
        used := rest;
      }
      assert used == map[];
      PersistLocked(w);
    }

    method SetCap(owner: string, c: T.SymbolCap, today: string, w: T.WriteOutcome)
      modifies this`caps, this`file
      ensures State() == T.Step(old(State()), today, T.SetCap(owner, c), w, w).0
    {
      var bySym := if owner in caps then caps[owner] else map[];
      caps := caps[owner := bySym[c.symbol := c]];
      PersistLocked(w);
    }

    method SetUnlimited(owner: string, symbol: string, today: string, w: T.WriteOutcome)
      modifies this`caps, this`file
      ensures State() == T.Step(old(State()), today, T.SetUnlimited(owner, symbol), w, w).0
    {
      if owner in caps { caps := caps[owner := caps[owner] - {symbol}]; }
      PersistLocked(w);
    }

    method Cap(owner: string, symbol: string) returns (c: Option<T.SymbolCap>)
      ensures c == T.CapAt(State().store, owner, symbol)
    {
      c := if owner in caps && symbol in caps[owner] then Some(caps[owner][symbol]) else None;
    }

    method Used(owner: string, symbol: string, today: string, w: T.WriteOutcome) returns (amt: int)
      modifies this`day, this`used, this`file
      ensures (State(), T.UsedIs(amt)) == T.Step(old(State()), today, T.Used(owner, symbol), w, w)
    {
      RolloverLocked(today, w);
      amt := if owner in used && symbol in used[owner] then used[owner][symbol] else 0;
    }

    method Record(owner: string, symbol: string, amt: int, today: string, w1: T.WriteOutcome, w2: T.WriteOutcome)
      modifies this`day, this`used, this`file
      ensures State() == T.Step(old(State()), today, T.Record(owner, symbol, amt), w1, w2).0
    {
      if amt <= 0 { return; }
      RolloverLocked(today, w1);
      var bySym := if owner in used then used[owner] else map[];
      var cur := if symbol in bySym then bySym[symbol] else 0;
      used := used[owner := bySym[symbol := cur + amt]];
      PersistLocked(w2);
    }

    method Check(owner: string, symbol: string, amt: int, today: string, w: T.WriteOutcome) returns (v: T.Verdict)
      modifies this`day, this`used, this`file
      ensures (State(), T.Checked(v)) == T.Step(old(State()), today, T.Check(owner, symbol, amt), w, w)
    {
      if amt <= 0 { return T.Pass; }
      RolloverLocked(today, w);
      if owner !in caps || symbol !in caps[owner] || caps[owner][symbol].capBase.None? { return T.Pass; }
      var c := caps[owner][symbol];
      var already := if owner in used && symbol in used[owner] then used[owner][symbol] else 0;
      if already + amt > c.capBase.value {
        var limit := T.Human.RenderBase(c.capBase, c.decimals);
        var requested := T.Human.RenderBase(Some(amt), c.decimals);
        var soFar := T.Human.RenderBase(Some(already), c.decimals);
        return T.Exceeded(c.symbol, limit, requested, soFar);
      }
      v := T.Pass;
    }
  }
}
