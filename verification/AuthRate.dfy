/** The limiter inside the authentication machine: the rate bound carried over to issued nonces. */
module AuthRate {
  import opened Prelude
  import opened AuthStores
  import opened Auth
  import R = RateLimiter

  /** What one event means to the limiter. */
  function Seen(e: Event): seq<R.Event> {
    if e.Challenge? then [R.Call(e.ip, e.now)]
    else if e.Sweep? && e.store.LimiterSweep? then [R.Sweep(e.now)]
    else []
  }

  function SeenBy(es: seq<Event>): seq<R.Event> {
    if es == [] then [] else SeenBy(es[..|es| - 1]) + Seen(es[|es| - 1])
  }

  /** A run splits into its last event and the run before it. */
  lemma {:induction false} LastStep(cfg: Config, s: State, es: seq<Event>)
    requires es != [] && Run(cfg, s, es)
    ensures var init, e := es[..|es| - 1], es[|es| - 1];
            Run(cfg, s, init) && Legal(Final(cfg, s, init), e) && Final(cfg, s, es) == Next(cfg, Final(cfg, s, init), e)
    decreases |es|
  {
    hide Next, Legal;
    var n := |es| - 1;
    if n == 0 {
      assert es[..0] == [] && es[1..] == [];
    } else {
      var s1 := Next(cfg, s, es[0]);
      LastStep(cfg, s1, es[1..]);
      assert es[1..][..n - 1] == es[..n][1..] && es[1..][n - 1] == es[n] && es[..n][0] == es[0];
    }
  }

  lemma LimiterStep(cfg: Config, s: State, e: Event)
    requires Legal(s, e)
    ensures Next(cfg, s, e).limiter == if Seen(e) == [] then s.limiter else R.Apply(cfg.limiter, s.limiter, Seen(e)[0])
    ensures s.now <= Next(cfg, s, e).now == e.now
    ensures Seen(e) == [] || (|Seen(e)| == 1 && Seen(e)[0].now == e.now)
  {
    hide R.Counted, R.Allowed, R.Swept, Started, Granted, Attached, SweptNonces, SweptTenants, SweptSessions;
  }

  ghost predicate Times(run: seq<R.Event>, now: int) {
    R.Monotone(run) && forall i :: 0 <= i < |run| ==> run[i].now <= now
  }

  lemma TimesSnoc(run: seq<R.Event>, e: R.Event, now: int)
    requires Times(run, now) && now <= e.now
    ensures Times(run + [e], e.now)
  {
  }

  /** The limiter's state is a function of the calls and sweeps it saw, at their times. */
  lemma {:induction false} LimiterFollows(cfg: Config, start: int, es: seq<Event>)
    requires Run(cfg, Initial(start), es)
    ensures Final(cfg, Initial(start), es).limiter == R.After(cfg.limiter, SeenBy(es))
    ensures Times(SeenBy(es), Final(cfg, Initial(start), es).now)
  {
    if es != [] {
      hide Run, Final, Next, Legal, Times, Seen, R.After, R.Apply, R.GrantedIn;
      var init, e := es[..|es| - 1], es[|es| - 1];
      LastStep(cfg, Initial(start), es);
      LimiterFollows(cfg, start, init);
      var s, before := Final(cfg, Initial(start), init), SeenBy(init);
      LimiterStep(cfg, s, e);
      if Seen(e) == [] {
        assert before + Seen(e) == before;
        Later(before, s.now, e.now);
      } else {
        assert Seen(e) == [Seen(e)[0]];
        R.GrantedSnoc(cfg.limiter, before, Seen(e)[0], "", 0);
        TimesSnoc(before, Seen(e)[0], s.now);
      }
    }
  }

  lemma Later(run: seq<R.Event>, now: int, later: int)
    requires Times(run, now) && now <= later
    ensures Times(run, later)
  {
  }

  /** The last event of the run issued a nonce to this IP inside the interval. */
  ghost predicate IssuesLast(cfg: Config, start: int, es: seq<Event>, ip: string, from: int)
    requires es != [] && Run(cfg, Initial(start), es)
  {
    var e := es[|es| - 1];
    && e.Challenge? && e.ip == ip && from <= e.now < from + cfg.limiter.window
    && e.nonce in Final(cfg, Initial(start), es).issued
  }

  ghost function IssuedIn(cfg: Config, start: int, es: seq<Event>, ip: string, from: int): nat
    requires Run(cfg, Initial(start), es)
  {
    if es == [] then 0
    else
      LastStep(cfg, Initial(start), es);
      IssuedIn(cfg, start, es[..|es| - 1], ip, from) + if IssuesLast(cfg, start, es, ip, from) then 1 else 0
  }

  lemma IssuedMeansAllowed(cfg: Config, s: State, now: int, ip: string, owner: string, nonce: string)
    requires nonce !in s.issued && nonce in Challenged(cfg, s, now, ip, owner, nonce).issued
    ensures R.Allowed(cfg.limiter, s.limiter, ip, now)
  {
  }

  lemma {:induction false} IssuedAtMostGranted(cfg: Config, start: int, es: seq<Event>, ip: string, from: int)
    requires Run(cfg, Initial(start), es)
    ensures IssuedIn(cfg, start, es, ip, from) <= R.GrantedIn(cfg.limiter, SeenBy(es), ip, from)
  {
    hide Run, Challenged, R.GrantedIn, R.After, R.Allowed, R.Counted, R.Swept;
    if es != [] {
      var n := |es| - 1;
      var init, e := es[..n], es[n];
      LastStep(cfg, Initial(start), es);
      IssuedAtMostGranted(cfg, start, init, ip, from);
      LimiterFollows(cfg, start, init);
      if Seen(e) != [] { R.GrantedSnoc(cfg.limiter, SeenBy(init), Seen(e)[0], ip, from); }
      else { assert SeenBy(es) == SeenBy(init); }
      if IssuesLast(cfg, start, es, ip, from) {
        IssuedMeansAllowed(cfg, Final(cfg, Initial(start), init), e.now, e.ip, e.owner, e.nonce);
      }
    }
  }

  /** In any run of the whole machine, one IP is issued at most 2 * max - 1 nonces within any window length. */
  lemma NonceRateBound(cfg: Config, start: int, es: seq<Event>, ip: string, from: int)
    requires Run(cfg, Initial(start), es) && ip != "" && cfg.limiter.window > 0
    ensures IssuedIn(cfg, start, es, ip, from) <= 2 * R.PerWindow(cfg.limiter) - 1
  {
    hide Run, IssuedIn, R.GrantedIn, R.Monotone;
    IssuedAtMostGranted(cfg, start, es, ip, from);
    LimiterFollows(cfg, start, es);
    R.RateBound(cfg.limiter, SeenBy(es), ip, from);
  }
}
