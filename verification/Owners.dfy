/** The withdraw cap is per tenant, and one wallet can mint any number of tenants: what that means for the wallet, over
    the authentication machine and the ledger together. */
module Owners {
  import opened Prelude
  import opened Sums
  import A = Auth
  import S = AuthStores
  import L = Ledger
  import Text

  // ---- No more than a cap per tenant ------------------------------------------------

  function UsedOf(s: L.Tally, ts: seq<string>): seq<int> {
    seq(|ts|, i requires 0 <= i < |ts| => L.UsedBy(s, ts[i]))
  }

  /** What the tenants in ts have booked together. */
  function Together(s: L.Tally, ts: seq<string>): int { Sum(UsedOf(s, ts)) }

  predicate Distinct(ts: seq<string>) { forall i, j :: 0 <= i < j < |ts| ==> ts[i] != ts[j] }

  /** Withdrawals made one at a time: the tenants of a wallet together book at most one daily cap each. */
  lemma TogetherWithinCaps(cfg: L.Config, s: L.Tally, bs: seq<L.Broadcast>, ts: seq<string>)
    requires L.DailyCap(cfg) == Some(s.cap) && L.WithinCap(s)
    ensures Together(L.Run(cfg, s, bs), ts) <= |ts| * s.cap
  {
    hide L.Run, Sum, Positive;
    L.SerialWithinCap(cfg, s, bs);
    var ws := UsedOf(L.Run(cfg, s, bs), ts);
    SumBound(ws, s.cap);
    PositiveAtMost(ws);
    Scale(Positive(ws), |ts|, s.cap);
  }

  // ---- Minting m tenants ----------------------------------------------------------------

  function Tags(m: nat): seq<string> { seq(m, i requires 0 <= i < m => Text.Tag(i)) }

  lemma TagsDistinct(m: nat)
    ensures Distinct(Tags(m))
  {
    forall i, j | 0 <= i < j < m ensures Tags(m)[i] != Tags(m)[j] {
      Text.TagLength(i);
      Text.TagLength(j);
    }
  }

  lemma {:induction false} RunSnoc(cfg: A.Config, s: A.State, es: seq<A.Event>, m: A.State, e: A.Event)
    requires A.Run(cfg, s, es) && A.Final(cfg, s, es) == m && A.Legal(m, e)
    ensures A.Run(cfg, s, es + [e]) && A.Final(cfg, s, es + [e]) == A.Next(cfg, m, e)
    decreases |es|
  {
    hide A.Next, A.Legal;
    if es == [] {
      assert es + [e] == [e] && [e][1..] == [];
      assert A.Run(cfg, A.Next(cfg, m, e), []) && A.Final(cfg, A.Next(cfg, m, e), []) == A.Next(cfg, m, e);
    } else {
      assert (es + [e])[1..] == es[1..] + [e] && (es + [e])[0] == es[0];
      RunSnoc(cfg, A.Next(cfg, s, es[0]), es[1..], m, e);
    }
  }

  /** The wallet can sign any text. */
  ghost predicate CanSign(cfg: A.Config, owner: string, sign: string -> string) {
    forall text :: cfg.recover(text, sign(text)) == Some(owner)
  }

  /** The first m names are nonces used up, bearers and tenants of the owner, and nothing else is. */
  ghost predicate Holds(cfg: A.Config, st: A.State, owner: string, now: int, m: nat) {
    && st.now == now && |st.verifies| == m
    && (forall n :: n in st.issued ==> |n| <= m)
    && (forall b :: b in st.grants ==> |b| <= m && |st.grants[b].tenantId| <= m)
    && (forall i :: 0 <= i < m ==> Owned(cfg, st, owner, now, Text.Tag(i)))
  }

  predicate Owned(cfg: A.Config, st: A.State, owner: string, now: int, name: string) {
    && name in st.tenants.byBearer && st.tenants.byBearer[name] == name
    && name in st.tenants.byTenant && st.tenants.byTenant[name] == S.TenantRecord(name, owner, now + cfg.bearerTtl)
  }

  /** One more: challenge, consume, mint. */
  lemma OneMore(cfg: A.Config, st: A.State, owner: string, sign: string -> string, now: int, m: nat)
    returns (es: seq<A.Event>, st': A.State)
    requires Holds(cfg, st, owner, now, m) && owner != "" && CanSign(cfg, owner, sign)
    requires cfg.nonceTtl > 0
    ensures |es| == 3 && A.Legal(st, es[0])
    ensures var a := A.Next(cfg, st, es[0]);
            A.Legal(a, es[1]) && var b := A.Next(cfg, a, es[1]); A.Legal(b, es[2]) && st' == A.Next(cfg, b, es[2])
    ensures Holds(cfg, st', owner, now, m + 1)
  {
    hide A.R.Counted, A.TextFor, A.Next, Holds, CanSign;
    var n := Text.Tag(m);
    var e1 := A.Challenge(now, "", owner, n);
    var e2 := A.Consume(now, n, sign(A.TextFor(cfg, n, now + cfg.nonceTtl)), "");
    var e3 := A.Mint(now, m, n, n);
    es := [e1, e2, e3];
    Proves(cfg, st, owner, sign, now, m, e1, e2);
    var b := A.Next(cfg, A.Next(cfg, st, e1), e2);
    Mints(cfg, st, b, owner, now, m, e3);
    st' := A.Next(cfg, b, e3);
  }

  /** After challenge and consume a verify of the owner is pending and no tenant has changed. */
  ghost predicate Pends(st: A.State, b: A.State, owner: string, now: int, m: nat) {
    && b.now == now && b.tenants == st.tenants && b.grants == st.grants
    && |b.verifies| == m + 1 && b.verifies[m].owner == owner && b.verifies[m].stage.Pending?
    && forall n :: n in b.issued ==> |n| <= m + 1
  }

  lemma Proves(
    cfg: A.Config, st: A.State, owner: string, sign: string -> string, now: int, m: nat, e1: A.Event, e2: A.Event)
    requires Holds(cfg, st, owner, now, m) && owner != "" && CanSign(cfg, owner, sign) && cfg.nonceTtl > 0
    requires e1 == A.Challenge(now, "", owner, Text.Tag(m))
    requires e2 == A.Consume(now, Text.Tag(m), sign(A.TextFor(cfg, Text.Tag(m), now + cfg.nonceTtl)), "")
    ensures A.Legal(st, e1) && A.Legal(A.Next(cfg, st, e1), e2)
    ensures Pends(st, A.Next(cfg, A.Next(cfg, st, e1), e2), owner, now, m)
  {
    hide A.R.Counted, A.TextFor, Owned;
    Text.TagLength(m);
    var a := A.Next(cfg, st, e1);
    assert Text.Tag(m) in a.nonces && a.nonces[Text.Tag(m)] == S.NonceEntry(owner, now + cfg.nonceTtl);
  }

  lemma Mints(cfg: A.Config, st: A.State, b: A.State, owner: string, now: int, m: nat, e: A.Event)
    requires Holds(cfg, st, owner, now, m) && Pends(st, b, owner, now, m)
    requires e == A.Mint(now, m, Text.Tag(m), Text.Tag(m))
    ensures A.Legal(b, e) && Holds(cfg, A.Next(cfg, b, e), owner, now, m + 1)
  {
    Text.TagLength(m);
    var st' := A.Next(cfg, b, e);
    forall i | 0 <= i < m + 1 ensures Owned(cfg, st', owner, now, Text.Tag(i)) {
      Text.TagLength(i);
      if i < m { assert Owned(cfg, st, owner, now, Text.Tag(i)); }
    }
  }

  lemma MintMany(cfg: A.Config, owner: string, sign: string -> string, now: int, m: nat) returns (es: seq<A.Event>)
    requires owner != "" && CanSign(cfg, owner, sign) && cfg.nonceTtl > 0
    ensures A.Run(cfg, A.Initial(now), es) && Holds(cfg, A.Final(cfg, A.Initial(now), es), owner, now, m)
  {
    hide A.Next, A.Legal, Holds, A.Run, A.Final, CanSign;
    es := [];
    var st, i := A.Initial(now), 0;
    StartOfMinting(cfg, owner, now);
    while i < m
      invariant 0 <= i <= m && A.Run(cfg, A.Initial(now), es) && A.Final(cfg, A.Initial(now), es) == st
      invariant Holds(cfg, st, owner, now, i)
    {
      var three, st' := OneMore(cfg, st, owner, sign, now, i);
      var a := A.Next(cfg, st, three[0]);
      var b := A.Next(cfg, a, three[1]);
      RunSnoc(cfg, A.Initial(now), es, st, three[0]);
      RunSnoc(cfg, A.Initial(now), es + [three[0]], a, three[1]);
      RunSnoc(cfg, A.Initial(now), es + [three[0]] + [three[1]], b, three[2]);
      es := es + [three[0]] + [three[1]] + [three[2]];
      st, i := st', i + 1;
    }
  }

  lemma StartOfMinting(cfg: A.Config, owner: string, now: int)
    ensures A.Run(cfg, A.Initial(now), []) && A.Final(cfg, A.Initial(now), []) == A.Initial(now)
    ensures Holds(cfg, A.Initial(now), owner, now, 0)
  {
  }

  lemma OwnedResolves(cfg: A.Config, st: A.State, owner: string, now: int, name: string)
    requires Owned(cfg, st, owner, now, name) && cfg.bearerTtl > 0
    ensures A.Resolve(st, A.BEARER + name, "", now) == Some(A.TenantContext(name, owner))
  {
    assert (A.BEARER + name)[|A.BEARER|..] == name;
  }

  // ---- Booking m caps ----------------------------------------------------------------------

  function One(tenant: string, day: string): L.Broadcast { L.Broadcast(tenant, 1, day, true, day) }

  lemma {:induction false} LedgerSnoc(cfg: L.Config, s: L.Tally, bs: seq<L.Broadcast>, b: L.Broadcast)
    ensures L.Run(cfg, s, bs + [b]) == L.Step(cfg, L.Run(cfg, s, bs), b)
    decreases |bs|
  {
    hide L.Step;
    if bs == [] {
      assert bs + [b] == [b] && [b][1..] == [];
    } else {
      assert (bs + [b])[1..] == bs[1..] + [b] && (bs + [b])[0] == bs[0];
      LedgerSnoc(cfg, L.Step(cfg, s, bs[0]), bs[1..], b);
    }
  }

  /** The first i tenants have booked their cap, the next one q, the others nothing. */
  ghost predicate Filled(s: L.Tally, cap: nat, day: string, m: nat, i: nat, q: nat) {
    && s.cap == cap && (s.day == day || s.used == map[])
    && forall j :: 0 <= j < m ==> L.UsedBy(s, Text.Tag(j)) == if j < i then cap else if j == i then q else 0
  }

  lemma OneQuantumPasses(cfg: L.Config, s: L.Tally, tenant: string, day: string)
    requires L.DailyCap(cfg) == Some(s.cap) && L.UsedBy(L.Rolled(s, day), tenant) < s.cap
    ensures L.Step(cfg, s, One(tenant, day)) == L.Recorded(L.Rolled(s, day), tenant, 1)
  {
    hide L.Human.QuantumsToHuman;
  }

  lemma FillOne(cfg: L.Config, s: L.Tally, cap: nat, day: string, m: nat, i: nat, q: nat)
    requires L.DailyCap(cfg) == Some(cap) && Filled(s, cap, day, m, i, q) && i < m && q < cap
    ensures Filled(L.Step(cfg, s, One(Text.Tag(i), day)), cap, day, m, i, q + 1)
  {
    OneQuantumPasses(cfg, s, Text.Tag(i), day);
    hide L.Step;
    var s' := L.Step(cfg, s, One(Text.Tag(i), day));
    forall j | 0 <= j < m
      ensures L.UsedBy(s', Text.Tag(j)) == if j < i then cap else if j == i then q + 1 else 0
    {
      Text.TagLength(i);
      Text.TagLength(j);
    }
  }

  lemma FillAll(cfg: L.Config, cap: nat, day: string, m: nat) returns (bs: seq<L.Broadcast>)
    requires L.DailyCap(cfg) == Some(cap)
    ensures Filled(L.Run(cfg, L.Tally(cap, "", map[]), bs), cap, day, m, m, 0)
    ensures forall b :: b in bs ==> b.tenant in Tags(m)
  {
    hide L.Run, L.Step, Filled;
    var s0 := L.Tally(cap, "", map[]);
    bs := [];
    StartOfFilling(cfg, cap, day, m);
    var i := 0;
    while i < m
      invariant 0 <= i <= m && Filled(L.Run(cfg, s0, bs), cap, day, m, i, 0)
      invariant forall b :: b in bs ==> b.tenant in Tags(m)
    {
      var q := 0;
      while q < cap
        invariant 0 <= q <= cap && Filled(L.Run(cfg, s0, bs), cap, day, m, i, q)
        invariant forall b :: b in bs ==> b.tenant in Tags(m)
      {
        FillOne(cfg, L.Run(cfg, s0, bs), cap, day, m, i, q);
        LedgerSnoc(cfg, s0, bs, One(Text.Tag(i), day));
        assert Tags(m)[i] == Text.Tag(i);
        bs, q := bs + [One(Text.Tag(i), day)], q + 1;
      }
      NextTenant(L.Run(cfg, s0, bs), cap, day, m, i);
      i := i + 1;
    }
  }

  lemma StartOfFilling(cfg: L.Config, cap: nat, day: string, m: nat)
    requires L.DailyCap(cfg) == Some(cap)
    ensures var s0 := L.Tally(cap, "", map[]); L.Run(cfg, s0, []) == s0 && Filled(s0, cap, day, m, 0, 0)
  {
  }

  lemma NextTenant(s: L.Tally, cap: nat, day: string, m: nat, i: nat)
    requires Filled(s, cap, day, m, i, cap)
    ensures Filled(s, cap, day, m, i + 1, 0)
  {
  }

  lemma {:induction false} SumOfSame(ws: seq<int>, k: nat)
    requires forall i :: 0 <= i < |ws| ==> ws[i] == k
    ensures Sum(ws) == |ws| * k
  {
    if ws != [] {
      var n := |ws| - 1;
      SumOfSame(ws[..n], k);
      assert |ws| * k == n * k + k;
    }
  }

  lemma FilledTogether(s: L.Tally, cap: nat, day: string, m: nat)
    requires Filled(s, cap, day, m, m, 0)
    ensures Together(s, Tags(m)) == m * cap
  {
    SumOfSame(UsedOf(s, Tags(m)), cap);
  }

  /** And that much is reached: for every m, a wallet that can sign mints m live tenants, each of which a request
      resolves to it, and withdrawals made one at a time, all of them by those tenants, book m daily caps. */
  lemma OwnerReachesCaps(
    acfg: A.Config, lcfg: L.Config, owner: string, sign: string -> string, now: int, day: string, m: nat, cap: nat)
    returns (es: seq<A.Event>, bs: seq<L.Broadcast>)
    requires owner != "" && CanSign(acfg, owner, sign) && acfg.nonceTtl > 0 && acfg.bearerTtl > 0
    requires L.DailyCap(lcfg) == Some(cap)
    ensures Distinct(Tags(m)) && A.Run(acfg, A.Initial(now), es)
    ensures forall j :: 0 <= j < m ==>
              A.Resolve(A.Final(acfg, A.Initial(now), es), A.BEARER + Tags(m)[j], "", now)
              == Some(A.TenantContext(Tags(m)[j], owner))
    ensures forall b :: b in bs ==> b.tenant in Tags(m)
    ensures Together(L.Run(lcfg, L.Tally(cap, "", map[]), bs), Tags(m)) == m * cap
  {
    hide A.Run, A.Final, A.Resolve, L.Run, CanSign, Filled, Together;
    TagsDistinct(m);
    es := MintMany(acfg, owner, sign, now, m);
    var st := A.Final(acfg, A.Initial(now), es);
    forall j | 0 <= j < m
      ensures A.Resolve(st, A.BEARER + Tags(m)[j], "", now) == Some(A.TenantContext(Tags(m)[j], owner))
    {
      assert Owned(acfg, st, owner, now, Text.Tag(j));
      OwnedResolves(acfg, st, owner, now, Text.Tag(j));
    }
    bs := FillAll(lcfg, cap, day, m);
    FilledTogether(L.Run(lcfg, L.Tally(cap, "", map[]), bs), cap, day, m);
  }
}
