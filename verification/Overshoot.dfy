/** Two limits of the broadcast guards: how often one idempotency key can reach the chain, and that the
    bound of CapSafety is the best possible. */
module Overshoot {
  import opened Prelude
  import opened Sums
  import opened Broadcast
  import T = TransferOut
  import Rails
  import Text
  import I = Idempotency

  // ---- At most one submission per key ------------------------------------------

  predicate SameKey(a: Thread, b: Thread) { a.tenant == b.tenant && a.client == b.client && a.boot == b.boot }

  ghost predicate Remembered(cfg: Config, s: Sys) {
    forall i :: 0 <= i < |s.threads| ==>
      var t := s.threads[i];
      && t.boot <= s.boot
      && (t.boot == s.boot ==>
            I.Key(t.tenant, t.client) in s.seen && t.began + cfg.ttl <= s.seen[I.Key(t.tenant, t.client)])
  }

  ghost predicate Spaced(cfg: Config, s: Sys) {
    forall i, j :: 0 <= i < j < |s.threads| && SameKey(s.threads[i], s.threads[j]) ==>
                     s.threads[i].began + cfg.ttl <= s.threads[j].began
  }

  ghost predicate SentOnce(s: Sys) {
    forall i :: 0 <= i < |s.threads| ==>
      s.threads[i].submissions <= 1 && (s.threads[i].phase.Checking? ==> s.threads[i].submissions == 0)
  }

  /** Every step but Begin keeps who the threads are. */
  lemma SameThreads(cfg: Config, s: Sys, e: Event)
    requires Enabled(s, e) && !e.Begin?
    ensures |Next(cfg, s, e).threads| == |s.threads|
    ensures forall i :: 0 <= i < |s.threads| ==>
              var t, t' := s.threads[i], Next(cfg, s, e).threads[i];
              t'.tenant == t.tenant && t'.client == t.client && t'.boot == t.boot && t'.began == t.began
  {
    hide T.Step, T.Restarted;
  }

  lemma StepSentOnce(cfg: Config, s: Sys, e: Event)
    requires Enabled(s, e) && SentOnce(s)
    ensures SentOnce(Next(cfg, s, e))
  {
    hide T.Step, T.Restarted, Outflow, I.Key;
  }

  lemma StepSpaced(cfg: Config, s: Sys, e: Event)
    requires Enabled(s, e) && Remembered(cfg, s) && Spaced(cfg, s)
    ensures Remembered(cfg, Next(cfg, s, e)) && Spaced(cfg, Next(cfg, s, e))
  {
    hide T.Step, Outflow, T.Restarted, I.Key;
    if !e.Begin? { SameThreads(cfg, s, e); }
  }

  lemma {:induction false} RunSpaced(cfg: Config, s: Sys, es: seq<Event>)
    requires Valid(cfg, s, es) && Remembered(cfg, s) && Spaced(cfg, s) && SentOnce(s)
    ensures Spaced(cfg, Final(cfg, s, es)) && SentOnce(Final(cfg, s, es))
    decreases |es|
  {
    hide Next, Enabled, Remembered, Spaced, SentOnce;
    if es != [] {
      StepSpaced(cfg, s, es[0]);
      StepSentOnce(cfg, s, es[0]);
      RunSpaced(cfg, Next(cfg, s, es[0]), es[1..]);
    }
  }

  /** Over both rails, every broadcast is sent at most once, and two broadcasts that one server life
      accepts for one tenant and client id begin at least one TTL apart. */
  lemma OneSubmissionPerKey(persistent: bool, cfg: Config, es: seq<Event>)
    requires Valid(cfg, Fresh(persistent), es)
    ensures var ts := Final(cfg, Fresh(persistent), es).threads;
            && (forall i :: 0 <= i < |ts| ==> ts[i].submissions <= 1)
            && (forall i, j :: 0 <= i < j < |ts| && SameKey(ts[i], ts[j]) ==> ts[i].began + cfg.ttl <= ts[j].began)
  {
    hide Valid, Final;
    RunSpaced(cfg, Fresh(persistent), es);
  }

  /** The table of keys is not persisted: with a restart in between, the same key is taken and sent
      twice at the same instant. */
  lemma RestartForgetsKeys(persistent: bool, cfg: Config, owner: string) returns (es: seq<Event>)
    requires cfg.ttl > 0
    ensures Valid(cfg, Fresh(persistent), es)
    ensures var ts := Final(cfg, Fresh(persistent), es).threads;
            && |ts| == 2 && ts[0].submissions == 1 && ts[1].submissions == 1
            && ts[0].tenant == ts[1].tenant && ts[0].client == ts[1].client && ts[0].began == ts[1].began
  {
    var tx := Bank(owner, []);
    var begin := Begin("t", "c", owner, tx, 0);
    es := [];
    var none: map<string, int> := map[];
    assert Rails.BankOut([], owner) == none by { assert Rails.OwnCoins([], owner) == []; }
    assert Outflow(cfg, owner, tx) == Some(none);
    var s1 := Next(cfg, Fresh(persistent), begin);
    RunSnoc(cfg, Fresh(persistent), [], Fresh(persistent), begin);
    var s2 := Next(cfg, s1, Submit(0, true, true, ""));
    RunSnoc(cfg, Fresh(persistent), [] + [begin], s1, Submit(0, true, true, ""));
    es := [] + [begin] + [Submit(0, true, true, "")];
    var s3 := Next(cfg, s2, Restart);
    RunSnoc(cfg, Fresh(persistent), es, s2, Restart);
    var s4 := Next(cfg, s3, begin);
    RunSnoc(cfg, Fresh(persistent), es + [Restart], s3, begin);
    RunSnoc(cfg, Fresh(persistent), es + [Restart] + [begin], s4, Submit(1, true, true, ""));
    es := es + [Restart] + [begin] + [Submit(1, true, true, "")];
  }

  lemma {:induction false} RunSnoc(cfg: Config, s: Sys, es: seq<Event>, m: Sys, e: Event)
    requires Valid(cfg, s, es) && Final(cfg, s, es) == m && Enabled(m, e)
    ensures Valid(cfg, s, es + [e]) && Final(cfg, s, es + [e]) == Next(cfg, m, e)
    decreases |es|
  {
    hide Next, Enabled;
    if es == [] {
      assert es + [e] == [e] && [e][1..] == [];
      assert Valid(cfg, Next(cfg, m, e), []) && Final(cfg, Next(cfg, m, e), []) == Next(cfg, m, e);
    } else {
      assert (es + [e])[1..] == es[1..] + [e] && (es + [e])[0] == es[0];
      RunSnoc(cfg, Next(cfg, s, es[0]), es[1..], m, e);
    }
  }

  // ---- The bound is attained ------------------------------------------------------

  ghost predicate Path(cfg: Config, s: Sys, es: seq<Event>, m: Sys, n: nat, o: string) {
    Valid(cfg, s, es) && Final(cfg, s, es) == m && AtMost(n, cfg, s, es, o, "svp")
  }

  lemma {:induction false} PathSnoc(cfg: Config, s: Sys, es: seq<Event>, m: Sys, e: Event, n: nat, o: string)
    requires Path(cfg, s, es, m, n, o) && Enabled(m, e) && Concurrency(Next(cfg, m, e), o, "svp") <= n
    ensures Path(cfg, s, es + [e], Next(cfg, m, e), n, o)
    decreases |es|
  {
    hide Next, Enabled, Concurrency;
    RunSnoc(cfg, s, es, m, e);
    if es == [] {
      assert es + [e] == [e] && [e][1..] == [];
      assert AtMost(n, cfg, Next(cfg, m, e), [], o, "svp");
    } else {
      assert (es + [e])[1..] == es[1..] + [e] && (es + [e])[0] == es[0];
      PathSnoc(cfg, Next(cfg, s, es[0]), es[1..], m, e, n, o);
    }
  }

  lemma FewThreads(m: Sys, n: nat, o: string)
    requires |m.threads| <= n
    ensures Concurrency(m, o, "svp") <= n
  {
    PositiveAtMost(HeldOf(m.threads, o, "svp"));
  }

  function PhaseOf(j: int, c: nat, b: nat, r: nat): Phase {
    if j < r then Recording({})
    else if j < b then Recording({"svp"})
    else if j < c then Checking({})
    else Checking({"svp"})
  }

  /** c broadcasts of k native coins checked, b of them accepted by the chain, r of those recorded. */
  ghost predicate Crowd(m: Sys, o: string, k: nat, day: string, n: nat, c: nat, b: nat, r: nat) {
    && |m.threads| == n && m.meter.store.day == day
    && Capped(m, o, "svp", k) && Used(m, o, "svp") == r * k
    && forall j :: 0 <= j < n ==>
         m.threads[j].owner == o && m.threads[j].amounts == map["svp" := k] && m.threads[j].phase == PhaseOf(j, c, b, r)
  }

  ghost predicate KeysBelow(m: Sys, n: nat) {
    forall key :: key in m.seen ==> |key| <= n + 2
  }

  function Spend(o: string, k: nat): Tx { Bank(o, [Rails.Send(o, [Rails.Coin("asvp", k)])]) }

  lemma SpendTakesOut(cfg: Config, o: string, k: nat)
    ensures Outflow(cfg, o, Spend(o, k)) == Some(map["svp" := k])
  {
    var c := Rails.Coin("asvp", k);
    var msgs := [Rails.Send(o, [c])];
    assert msgs[..0] == [] && Rails.OwnCoins([], o) == [] && [] + [c] == [c];
    assert Rails.OwnCoins(msgs, o) == [c];
    Rails.TableIsConsistent("asvp", 0);
    Rails.EmptyTotals();
    Rails.CoinTotalsSnoc([], c);
    assert [] + [c] == [c];
    assert Rails.CoinTotals([c]) == map["svp" := k];
  }

  lemma BeginStep(cfg: Config, m: Sys, o: string, k: nat, day: string, n: nat) returns (e: Event)
    requires Crowd(m, o, k, day, n, 0, 0, 0) && KeysBelow(m, n)
    ensures Enabled(m, e) && Crowd(Next(cfg, m, e), o, k, day, n + 1, 0, 0, 0) && KeysBelow(Next(cfg, m, e), n + 1)
  {
    hide Outflow, Text.Tag;
    Text.TagLength(n);
    SpendTakesOut(cfg, o, k);
    e := Begin("t", Text.Tag(n), o, Spend(o, k), 0);
    var key := I.Key("t", Text.Tag(n));
    assert |key| == n + 3;
    assert I.Accepts(m.seen, "t", Text.Tag(n), 0);
    assert map["svp" := k].Keys == {"svp"};
  }

  lemma CheckStep(cfg: Config, m: Sys, o: string, k: nat, day: string, n: nat, c: nat) returns (e: Event)
    requires Crowd(m, o, k, day, n, c, 0, 0) && c < n
    ensures Enabled(m, e) && Crowd(Next(cfg, m, e), o, k, day, n, c + 1, 0, 0)
  {
    e := CheckOne(c, "svp", day, T.Renamed);
    assert m.threads[c].phase == PhaseOf(c, c, 0, 0);
    assert T.Judge(m.meter.store, o, "svp", k).Pass?;
    assert {"svp"} - {"svp"} == {};
  }

  lemma SubmitStep(cfg: Config, m: Sys, o: string, k: nat, day: string, n: nat, b: nat) returns (e: Event)
    requires Crowd(m, o, k, day, n, n, b, 0) && b < n
    ensures Enabled(m, e) && Crowd(Next(cfg, m, e), o, k, day, n, n, b + 1, 0)
  {
    e := Submit(b, true, true, day);
    assert m.threads[b].phase == PhaseOf(b, n, b, 0);
    assert map["svp" := k].Keys == {"svp"};
  }

  lemma RecordStep(cfg: Config, m: Sys, o: string, k: nat, day: string, n: nat, r: nat) returns (e: Event)
    requires Crowd(m, o, k, day, n, n, n, r) && r < n && k > 0
    ensures Enabled(m, e) && Crowd(Next(cfg, m, e), o, k, day, n, n, n, r + 1)
  {
    hide T.Encode, T.Decode;
    e := RecordOne(r, "svp", day, T.Renamed, T.Renamed);
    assert m.threads[r].phase == PhaseOf(r, n, n, r);
    assert {"svp"} - {"svp"} == {};
    assert (r + 1) * k == r * k + k;
  }

  /** For every n and k there is a run with at most n broadcasts in flight that ends with n caps used:
      the bound of CapSafety cannot be improved, and two concurrent broadcasts already break the cap. */
  lemma BoundIsAttained(cfg: Config, s: Sys, o: string, k: nat, day: string, n: nat) returns (es: seq<Event>)
    requires k > 0 && s.threads == [] && s.seen == map[] && s.meter.store.day == day
    requires Capped(s, o, "svp", k) && Used(s, o, "svp") == 0
    ensures Valid(cfg, s, es) && AtMost(n, cfg, s, es, o, "svp")
    ensures Used(Final(cfg, s, es), o, "svp") == n * k
  {
    hide Next, Enabled, Crowd, KeysBelow, AtMost, Valid, Final, Concurrency;
    var m := s;
    es := [];
    StartOfCrowd(cfg, s, o, k, day, n);
    var i := 0;
    while i < n
      invariant 0 <= i <= n && Path(cfg, s, es, m, n, o) && Crowd(m, o, k, day, i, 0, 0, 0) && KeysBelow(m, i)
    {
      var e := BeginStep(cfg, m, o, k, day, i);
      CrowdSize(Next(cfg, m, e), o, k, day, i + 1, 0, 0, 0);
      FewThreads(Next(cfg, m, e), n, o);
      PathSnoc(cfg, s, es, m, e, n, o);
      m, es, i := Next(cfg, m, e), es + [e], i + 1;
    }
    i := 0;
    while i < n
      invariant 0 <= i <= n && Path(cfg, s, es, m, n, o) && Crowd(m, o, k, day, n, i, 0, 0)
    {
      var e := CheckStep(cfg, m, o, k, day, n, i);
      CrowdSize(Next(cfg, m, e), o, k, day, n, i + 1, 0, 0);
      FewThreads(Next(cfg, m, e), n, o);
      PathSnoc(cfg, s, es, m, e, n, o);
      m, es, i := Next(cfg, m, e), es + [e], i + 1;
    }
    i := 0;
    while i < n
      invariant 0 <= i <= n && Path(cfg, s, es, m, n, o) && Crowd(m, o, k, day, n, n, i, 0)
    {
      var e := SubmitStep(cfg, m, o, k, day, n, i);
      CrowdSize(Next(cfg, m, e), o, k, day, n, n, i + 1, 0);
      FewThreads(Next(cfg, m, e), n, o);
      PathSnoc(cfg, s, es, m, e, n, o);
      m, es, i := Next(cfg, m, e), es + [e], i + 1;
    }
    i := 0;
    while i < n
      invariant 0 <= i <= n && Path(cfg, s, es, m, n, o) && Crowd(m, o, k, day, n, n, n, i)
    {
      var e := RecordStep(cfg, m, o, k, day, n, i);
      CrowdSize(Next(cfg, m, e), o, k, day, n, n, n, i + 1);
      FewThreads(Next(cfg, m, e), n, o);
      PathSnoc(cfg, s, es, m, e, n, o);
      m, es, i := Next(cfg, m, e), es + [e], i + 1;
    }
    CrowdSize(m, o, k, day, n, n, n, n);
  }

  lemma StartOfCrowd(cfg: Config, s: Sys, o: string, k: nat, day: string, n: nat)
    requires s.threads == [] && s.seen == map[] && s.meter.store.day == day
    requires Capped(s, o, "svp", k) && Used(s, o, "svp") == 0
    ensures Path(cfg, s, [], s, n, o) && Crowd(s, o, k, day, 0, 0, 0, 0) && KeysBelow(s, 0)
  {
    assert HeldOf(s.threads, o, "svp") == [];
  }

  lemma CrowdSize(m: Sys, o: string, k: nat, day: string, n: nat, c: nat, b: nat, r: nat)
    requires Crowd(m, o, k, day, n, c, b, r)
    ensures |m.threads| == n && Used(m, o, "svp") == r * k
  {
  }
}
