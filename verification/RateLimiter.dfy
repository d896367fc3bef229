/** The fixed-window per-IP limiter of `auth/ip_rate_limiter.go`. Times are nanoseconds. */
module RateLimiter {
  import opened Prelude

  datatype Entry = Entry(count: nat, start: int)

  type Entries = map<string, Entry>

  datatype Config = Config(max: int, window: int)

  predicate Elapsed(cfg: Config, e: Entry, now: int) { now - e.start >= cfg.window }

  /** The call opens a window: no entry, or the entry's window is over. */
  predicate Opens(cfg: Config, m: Entries, ip: string, now: int) {
    ip !in m || Elapsed(cfg, m[ip], now)
  }

  function Counted(cfg: Config, m: Entries, ip: string, now: int): Entries {
    if ip == "" then m
    else if Opens(cfg, m, ip, now) then m[ip := Entry(1, now)]
    else m[ip := Entry(m[ip].count + 1, m[ip].start)]
  }

  /** The call that opens a window is let through whatever the maximum; denied calls count too. */
  predicate Allowed(cfg: Config, m: Entries, ip: string, now: int) {
    ip == "" || Opens(cfg, m, ip, now) || m[ip].count + 1 <= cfg.max
  }

  function Swept(cfg: Config, m: Entries, now: int): Entries {
    map ip | ip in m && !Elapsed(cfg, m[ip], now) :: m[ip]
  }

  /** A sweep keeps exactly the entries whose window is still open, as they are. */
  lemma SweepIsExact(cfg: Config, m: Entries, ip: string, now: int)
    ensures ip in Swept(cfg, m, now) <==> ip in m && now < m[ip].start + cfg.window
    ensures ip in Swept(cfg, m, now) ==> Swept(cfg, m, now)[ip] == m[ip]
  {
  }

  class IPRateLimiter {
    const cfg: Config
    var entries: Entries

    constructor (max: int, window: int)
      ensures entries == map[] && cfg == Config(max, window)
    {
      cfg := Config(max, window);
      entries := map[];
    }

    method Allow(ip: string, now: int) returns (ok: bool)
      modifies this
      ensures ok == Allowed(cfg, old(entries), ip, now)
      ensures entries == Counted(cfg, old(entries), ip, now)
    {
      if ip == "" { return true; }
      if ip !in entries || now - entries[ip].start >= cfg.window {
        entries := entries[ip := Entry(1, now)];
        return true;
      }
      var e := entries[ip];
      e := e.(count := e.count + 1);
      entries := entries[ip := e];
      ok := e.count <= cfg.max;
    }

    method Sweep(now: int)
      modifies this
      ensures entries == Swept(cfg, old(entries), now)
    {
      var todo := entries.Keys;
      ghost var before := entries;
      while todo != {}
        invariant todo <= before.Keys
        invariant entries == map ip | ip in before && (ip in todo || !Elapsed(cfg, before[ip], now)) :: before[ip]
      {
        var ip :| ip in todo;
        if now - entries[ip].start >= cfg.window { entries := entries - {ip}; }
        todo := todo - {ip};
      }
    }
  }

  // ---- Runs -----------------------------------------------------------------

  datatype Event = Call(ip: string, now: int) | Sweep(now: int)

  function Apply(cfg: Config, m: Entries, e: Event): Entries {
    if e.Sweep? then Swept(cfg, m, e.now) else Counted(cfg, m, e.ip, e.now)
  }

  function After(cfg: Config, run: seq<Event>): Entries {
    if run == [] then map[] else Apply(cfg, After(cfg, run[..|run| - 1]), run[|run| - 1])
  }

  predicate Monotone(run: seq<Event>) {
    forall i, j :: 0 <= i < j < |run| ==> run[i].now <= run[j].now
  }

  predicate Granted(cfg: Config, run: seq<Event>, i: nat)
    requires i < |run|
  {
    run[i].Call? && Allowed(cfg, After(cfg, run[..i]), run[i].ip, run[i].now)
  }

  /** Swept entries are those whose window was already over, so they behave like absent ones. */
  ghost predicate Agree(cfg: Config, m: Entries, n: Entries, now: int) {
    forall ip, t | t >= now ::
      (Opens(cfg, m, ip, t) <==> Opens(cfg, n, ip, t)) && (!Opens(cfg, m, ip, t) ==> m[ip] == n[ip])
  }

  function WithoutSweeps(run: seq<Event>): seq<Event> {
    if run == [] then []
    else WithoutSweeps(run[..|run| - 1]) + if run[|run| - 1].Sweep? then [] else [run[|run| - 1]]
  }

  /** The state with sweeps and without agree on every later call. */
  lemma {:induction false} SweepsInvisible(cfg: Config, run: seq<Event>, now: int)
    requires cfg.window > 0 && Monotone(run) && (run != [] ==> run[|run| - 1].now <= now)
    ensures Agree(cfg, After(cfg, run), After(cfg, WithoutSweeps(run)), now)
  {
    if run != [] {
      var init, e := run[..|run| - 1], run[|run| - 1];
      SweepsInvisible(cfg, init, e.now);
      var m, n := After(cfg, init), After(cfg, WithoutSweeps(init));
      if e.Sweep? {
        assert WithoutSweeps(run) == WithoutSweeps(init);
        SweepAgrees(cfg, m, n, e.now, now);
      } else {
        assert WithoutSweeps(run)[..|WithoutSweeps(run)| - 1] == WithoutSweeps(init);
        CallAgrees(cfg, m, n, e.ip, e.now, now);
      }
    }
  }

  lemma SweepAgrees(cfg: Config, m: Entries, n: Entries, at: int, now: int)
    requires Agree(cfg, m, n, at) && at <= now
    ensures Agree(cfg, Swept(cfg, m, at), n, now)
  {
    forall ip, t | t >= now
      ensures Opens(cfg, Swept(cfg, m, at), ip, t) <==> Opens(cfg, n, ip, t)
      ensures !Opens(cfg, n, ip, t) ==> ip in Swept(cfg, m, at) && Swept(cfg, m, at)[ip] == n[ip]
    {
      assert Opens(cfg, m, ip, t) <==> Opens(cfg, n, ip, t);
    }
  }

  lemma CallAgrees(cfg: Config, m: Entries, n: Entries, ip: string, at: int, now: int)
    requires Agree(cfg, m, n, at) && at <= now && cfg.window > 0
    ensures Agree(cfg, Counted(cfg, m, ip, at), Counted(cfg, n, ip, at), now)
  {
    var m', n' := Counted(cfg, m, ip, at), Counted(cfg, n, ip, at);
    assert Opens(cfg, m, ip, at) <==> Opens(cfg, n, ip, at);
    forall ip', t | t >= now
      ensures Opens(cfg, m', ip', t) <==> Opens(cfg, n', ip', t)
      ensures !Opens(cfg, m', ip', t) ==> m'[ip'] == n'[ip']
    {
      assert Opens(cfg, m, ip', t) <==> Opens(cfg, n, ip', t);
    }
  }

  /** Sweep transparency: sweeps anywhere in the past change no answer. */
  lemma SweepsChangeNoAnswer(cfg: Config, run: seq<Event>, ip: string, now: int)
    requires cfg.window > 0 && Monotone(run) && (run != [] ==> run[|run| - 1].now <= now)
    ensures Allowed(cfg, After(cfg, run), ip, now) == Allowed(cfg, After(cfg, WithoutSweeps(run)), ip, now)
  {
    SweepsInvisible(cfg, run, now);
    assert Opens(cfg, After(cfg, run), ip, now) <==> Opens(cfg, After(cfg, WithoutSweeps(run)), ip, now);
  }

  // ---- The rate bound ------------------------------------------------------------

  /** Calls of one IP let through in [from, from + window). */
  function GrantedIn(cfg: Config, run: seq<Event>, ip: string, from: int): nat {
    if run == [] then 0
    else
      var n := |run| - 1;
      GrantedIn(cfg, run[..n], ip, from)
      + if Granted(cfg, run, n) && run[n].ip == ip && from <= run[n].now < from + cfg.window then 1 else 0
  }

  function PerWindow(cfg: Config): nat { if cfg.max < 1 then 1 else cfg.max }

  /** The most calls an interval of one window length can hold. A window of one instant cannot overlap another. */
  function Most(cfg: Config): nat { if cfg.window >= 2 then 2 * PerWindow(cfg) - 1 else PerWindow(cfg) }

  /** Where the count stands relative to the interval: the window now open began before it, in it, or after. */
  predicate Tracked(cfg: Config, m: Entries, ip: string, from: int, g: nat, now: int) {
    var k := PerWindow(cfg);
    if ip !in m || now < from then g == 0 && (ip in m ==> m[ip].count >= 1 && m[ip].start <= now)
    else
      && m[ip].count >= 1 && m[ip].start <= now
      && if m[ip].start < from then g <= if cfg.window >= 2 then Min(m[ip].count, k) - 1 else 0
         else if m[ip].start < from + cfg.window then g <= Most(cfg) - k + Min(m[ip].count, k)
         else g <= Most(cfg)
  }

  lemma CallTracked(cfg: Config, m: Entries, ip: string, from: int, g: nat, before: int, now: int)
    requires ip != "" && cfg.window > 0 && before <= now && Tracked(cfg, m, ip, from, g, before)
    ensures Tracked(cfg, Counted(cfg, m, ip, now), ip, from,
                    g + (if Allowed(cfg, m, ip, now) && from <= now < from + cfg.window then 1 else 0), now)
  {
  }

  lemma {:induction false} RunTracked(cfg: Config, run: seq<Event>, ip: string, from: int, now: int)
    requires ip != "" && cfg.window > 0 && Monotone(run) && (run != [] ==> run[|run| - 1].now <= now)
    requires forall i :: 0 <= i < |run| ==> run[i].Call?
    ensures Tracked(cfg, After(cfg, run), ip, from, GrantedIn(cfg, run, ip, from), now)
  {
    if run != [] {
      var n := |run| - 1;
      var init, e := run[..n], run[n];
      RunTracked(cfg, init, ip, from, e.now);
      if e.ip == ip {
        CallTracked(cfg, After(cfg, init), ip, from, GrantedIn(cfg, init, ip, from), e.now, e.now);
      }
    }
  }

  lemma {:induction false} CallsOnly(run: seq<Event>)
    requires Monotone(run)
    ensures Monotone(WithoutSweeps(run)) && forall i :: 0 <= i < |WithoutSweeps(run)| ==> WithoutSweeps(run)[i].Call?
    ensures run != [] ==> forall i :: 0 <= i < |WithoutSweeps(run)| ==> WithoutSweeps(run)[i].now <= run[|run| - 1].now
  {
    if run != [] {
      var n := |run| - 1;
      CallsOnly(run[..n]);
      assert n > 0 ==> run[n - 1].now <= run[n].now;
    }
  }

  lemma GrantedSnoc(cfg: Config, run: seq<Event>, e: Event, ip: string, from: int)
    ensures After(cfg, run + [e]) == Apply(cfg, After(cfg, run), e)
    ensures GrantedIn(cfg, run + [e], ip, from) == GrantedIn(cfg, run, ip, from) +
              if e.Call? && e.ip == ip && Allowed(cfg, After(cfg, run), ip, e.now) && from <= e.now < from + cfg.window
              then 1 else 0
  {
    assert (run + [e])[..|run|] == run;
  }

  lemma {:induction false} GrantedWithoutSweeps(cfg: Config, run: seq<Event>, ip: string, from: int)
    requires cfg.window > 0 && Monotone(run)
    ensures GrantedIn(cfg, run, ip, from) == GrantedIn(cfg, WithoutSweeps(run), ip, from)
  {
    hide GrantedIn, After, Allowed;
    if run != [] {
      var n := |run| - 1;
      var init, e := run[..n], run[n];
      assert run == init + [e];
      GrantedWithoutSweeps(cfg, init, ip, from);
      GrantedSnoc(cfg, init, e, ip, from);
      if e.Call? {
        GrantedSnoc(cfg, WithoutSweeps(init), e, ip, from);
        assert n > 0 ==> init[n - 1].now <= e.now;
        SweepsChangeNoAnswer(cfg, init, ip, e.now);
      } else {
        assert WithoutSweeps(run) == WithoutSweeps(init);
      }
    }
  }

  /** Rate bound: under a clock that does not run back, and with sweeps anywhere, any half-open interval of one
      window length holds at most 2 * max - 1 granted calls of an IP (one when the maximum is below one, max when the
      window is a single instant). */
  lemma RateBound(cfg: Config, run: seq<Event>, ip: string, from: int)
    requires ip != "" && cfg.window > 0 && Monotone(run)
    ensures GrantedIn(cfg, run, ip, from) <= Most(cfg)
  {
    hide GrantedIn, Monotone, WithoutSweeps;
    CallsOnly(run);
    GrantedWithoutSweeps(cfg, run, ip, from);
    var w := WithoutSweeps(run);
    var now := if w == [] then 0 else w[|w| - 1].now;
    RunTracked(cfg, w, ip, from, now);
  }

  // ---- The bound is attained ----------------------------------------------------

  /** k calls of one IP at one time. */
  function Burst(ip: string, now: int, k: nat): seq<Event> {
    if k == 0 then [] else Burst(ip, now, k - 1) + [Call(ip, now)]
  }

  lemma {:induction false} BurstCalls(ip: string, now: int, k: nat)
    ensures |Burst(ip, now, k)| == k && forall i :: 0 <= i < k ==> Burst(ip, now, k)[i] == Call(ip, now)
  {
    if k > 0 { BurstCalls(ip, now, k - 1); }
  }

  /** One call opens a window; max - 1 more come at its last instant, and max at the start of the next. */
  function Tight(cfg: Config, ip: string, k: nat): seq<Event>
    requires cfg.max >= 1
  {
    if k < cfg.max then [Call(ip, 0)] + Burst(ip, cfg.window - 1, k)
    else [Call(ip, 0)] + Burst(ip, cfg.window - 1, cfg.max - 1) + Burst(ip, cfg.window, k - (cfg.max - 1))
  }

  lemma TightStep(cfg: Config, ip: string, k: nat)
    requires cfg.max >= 1 && k > 0
    ensures Tight(cfg, ip, k) == Tight(cfg, ip, k - 1) + [Call(ip, TightTime(cfg, k))]
  {
    assert Burst(ip, cfg.window, 0) == [];
  }

  /** The entry after k of the counted calls. */
  function TightEntry(cfg: Config, k: nat): Entry
    requires cfg.max >= 1
  {
    if k < cfg.max then Entry(k + 1, 0) else Entry(k - (cfg.max - 1), cfg.window)
  }

  function TightTime(cfg: Config, k: nat): int { if k < cfg.max then cfg.window - 1 else cfg.window }

  lemma TightZero(cfg: Config, ip: string)
    requires ip != "" && cfg.window >= 2 && cfg.max >= 1
    ensures GrantedIn(cfg, Tight(cfg, ip, 0), ip, cfg.window - 1) == 0
    ensures ip in After(cfg, Tight(cfg, ip, 0)) && After(cfg, Tight(cfg, ip, 0))[ip] == TightEntry(cfg, 0)
  {
    assert Tight(cfg, ip, 0) == [] + [Call(ip, 0)];
    GrantedSnoc(cfg, [], Call(ip, 0), ip, cfg.window - 1);
  }

  lemma TightCall(cfg: Config, m: Entries, ip: string, k: nat)
    requires ip != "" && cfg.window >= 2 && cfg.max >= 1 && 0 < k <= 2 * cfg.max - 1
    requires ip in m && m[ip] == TightEntry(cfg, k - 1)
    ensures Allowed(cfg, m, ip, TightTime(cfg, k))
    ensures ip in Counted(cfg, m, ip, TightTime(cfg, k))
            && Counted(cfg, m, ip, TightTime(cfg, k))[ip] == TightEntry(cfg, k)
    ensures cfg.window - 1 <= TightTime(cfg, k) < cfg.window - 1 + cfg.window
  {
  }

  lemma {:induction false} TightGrants(cfg: Config, ip: string, k: nat)
    requires ip != "" && cfg.window >= 2 && cfg.max >= 1 && k <= 2 * cfg.max - 1
    ensures GrantedIn(cfg, Tight(cfg, ip, k), ip, cfg.window - 1) == k
    ensures ip in After(cfg, Tight(cfg, ip, k)) && After(cfg, Tight(cfg, ip, k))[ip] == TightEntry(cfg, k)
  {
    hide Tight, GrantedIn, After, Allowed, Counted, TightEntry, TightTime;
    if k == 0 {
      TightZero(cfg, ip);
    } else {
      var before := Tight(cfg, ip, k - 1);
      TightGrants(cfg, ip, k - 1);
      TightStep(cfg, ip, k);
      TightCall(cfg, After(cfg, before), ip, k);
      GrantedSnoc(cfg, before, Call(ip, TightTime(cfg, k)), ip, cfg.window - 1);
    }
  }

  lemma {:induction false} BurstGrants(cfg: Config, ip: string, k: nat)
    requires ip != "" && cfg.window >= 1 && k <= PerWindow(cfg)
    ensures GrantedIn(cfg, Burst(ip, 0, k), ip, 0) == k
    ensures After(cfg, Burst(ip, 0, k)) == if k == 0 then map[] else map[ip := Entry(k, 0)]
  {
    if k > 0 {
      BurstGrants(cfg, ip, k - 1);
      GrantedSnoc(cfg, Burst(ip, 0, k - 1), Call(ip, 0), ip, 0);
    }
  }

  /** So the bound cannot be improved, whatever the maximum and the window. */
  lemma RateBoundAttained(cfg: Config, ip: string) returns (run: seq<Event>, from: int)
    requires ip != "" && cfg.window > 0
    ensures Monotone(run) && GrantedIn(cfg, run, ip, from) == Most(cfg)
  {
    hide GrantedIn, After;
    if cfg.window >= 2 && cfg.max >= 1 {
      run, from := Tight(cfg, ip, 2 * cfg.max - 1), cfg.window - 1;
      TightGrants(cfg, ip, 2 * cfg.max - 1);
      BurstCalls(ip, cfg.window - 1, cfg.max - 1);
      BurstCalls(ip, cfg.window, cfg.max);
    } else {
      run, from := Burst(ip, 0, PerWindow(cfg)), 0;
      BurstGrants(cfg, ip, PerWindow(cfg));
      BurstCalls(ip, 0, PerWindow(cfg));
    }
  }
}
