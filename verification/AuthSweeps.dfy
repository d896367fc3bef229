/** Sweep transparency: the background sweeps of all four authentication stores, anywhere in a run, change
    no successful consumption, no tenant lookup, no session lookup and no rate-limit answer. */
module AuthSweeps {
  import opened Prelude
  import opened AuthStores
  import opened Auth
  import R = RateLimiter

  // ---- What a store still has to say at or after a time ---------------------------

  function LiveNonce(m: Nonces, n: string, at: int): Option<NonceEntry> {
    if n in m && at < m[n].expiresAt then Some(m[n]) else None
  }

  function LiveBearer(s: Tenants, b: string, at: int): Option<TenantRecord> {
    if ByBearer(s, b, at).Found? then Some(ByBearer(s, b, at).record) else None
  }

  function LiveTenant(s: Tenants, t: string, at: int): Option<TenantRecord> {
    if ByTenantId(s, t, at).Found? then Some(ByTenantId(s, t, at).record) else None
  }

  ghost predicate LikeNonces(m: Nonces, n: Nonces, now: int) {
    forall k, at | at >= now :: LiveNonce(m, k, at) == LiveNonce(n, k, at)
  }

  ghost predicate LikeTenants(s: Tenants, t: Tenants, now: int) {
    && (forall b, at | at >= now :: LiveBearer(s, b, at) == LiveBearer(t, b, at))
    && (forall k, at | at >= now :: LiveTenant(s, k, at) == LiveTenant(t, k, at))
  }

  ghost predicate LikeSessions(m: Sessions, n: Sessions, now: int) {
    forall k, at | at >= now :: BoundTo(m, k, at) == BoundTo(n, k, at)
  }

  /** Two states that no later request or event tells apart. */
  ghost predicate Like(cfg: Config, s: State, t: State) {
    && t.now <= s.now && t.verifies == s.verifies && t.issued == s.issued && t.grants == s.grants
    && R.Agree(cfg.limiter, s.limiter, t.limiter, s.now)
    && LikeNonces(s.nonces, t.nonces, s.now)
    && LikeTenants(s.tenants, t.tenants, s.now)
    && LikeSessions(s.sessions, t.sessions, s.now)
  }

  // ---- Sweeps ------------------------------------------------------------------------

  lemma SweptTenantsLike(s: Tenants, t: Tenants, at: int, now: int)
    requires LikeTenants(s, t, at) && at <= now
    ensures LikeTenants(SweptTenants(s, now), t, now)
  {
    var w := SweptTenants(s, now);
    forall b, u | u >= now ensures LiveBearer(w, b, u) == LiveBearer(t, b, u) {
      SweptBearer(s, b, now, u);
      assert LiveBearer(s, b, u) == LiveBearer(t, b, u);
    }
    forall k, u | u >= now ensures LiveTenant(w, k, u) == LiveTenant(t, k, u) {
      SweptTenant(s, k, now, u);
      assert LiveTenant(s, k, u) == LiveTenant(t, k, u);
    }
  }

  lemma SweptTenant(s: Tenants, k: string, now: int, u: int)
    requires now <= u
    ensures LiveTenant(SweptTenants(s, now), k, u) == LiveTenant(s, k, u)
  {
  }

  lemma SweptBearer(s: Tenants, b: string, now: int, u: int)
    requires now <= u
    ensures LiveBearer(SweptTenants(s, now), b, u) == LiveBearer(s, b, u)
  {
    if b in s.byBearer { SweptTenant(s, s.byBearer[b], now, u); }
  }

  lemma SweptNoncesLike(m: Nonces, n: Nonces, at: int, now: int)
    requires LikeNonces(m, n, at) && at <= now
    ensures LikeNonces(SweptNonces(m, now), n, now)
  {
    forall k, u | u >= now ensures LiveNonce(SweptNonces(m, now), k, u) == LiveNonce(n, k, u) {
      assert LiveNonce(m, k, u) == LiveNonce(n, k, u);
    }
  }

  lemma SweptSessionsLike(m: Sessions, n: Sessions, at: int, now: int)
    requires LikeSessions(m, n, at) && at <= now
    ensures LikeSessions(SweptSessions(m, now), n, now)
  {
    forall k, u | u >= now ensures BoundTo(SweptSessions(m, now), k, u) == BoundTo(n, k, u) {
      assert BoundTo(m, k, u) == BoundTo(n, k, u);
    }
  }

  /** Time passing keeps all four relations. */
  lemma Later(cfg: Config, s: State, t: State, now: int)
    requires Like(cfg, s, t) && s.now <= now
    ensures Like(cfg, s.(now := now), t)
  {
  }

  lemma SweepLike(cfg: Config, s: State, t: State, e: Event)
    requires Like(cfg, s, t) && Legal(s, e) && e.Sweep?
    ensures Like(cfg, Next(cfg, s, e), t)
  {
    hide LikeNonces, LikeTenants, LikeSessions, R.Agree, SweptNonces, SweptTenants, SweptSessions, R.Swept;
    LaterParts(cfg, s, t, e.now);
    match e.store
    case NonceSweep => SweptNoncesLike(s.nonces, t.nonces, s.now, e.now);
    case TenantSweep => SweptTenantsLike(s.tenants, t.tenants, s.now, e.now);
    case SessionSweep => SweptSessionsLike(s.sessions, t.sessions, s.now, e.now);
    case LimiterSweep => LimiterSweptAt(cfg, s, t, e.now);
  }

  lemma LaterParts(cfg: Config, s: State, t: State, now: int)
    requires Like(cfg, s, t) && s.now <= now
    ensures R.Agree(cfg.limiter, s.limiter, t.limiter, now) && LikeNonces(s.nonces, t.nonces, now)
    ensures LikeTenants(s.tenants, t.tenants, now) && LikeSessions(s.sessions, t.sessions, now)
  {
    Later(cfg, s, t, now);
  }

  lemma LimiterSweptAt(cfg: Config, s: State, t: State, now: int)
    requires Like(cfg, s, t) && s.now <= now
    ensures R.Agree(cfg.limiter, R.Swept(cfg.limiter, s.limiter, now), t.limiter, now)
  {
    Later(cfg, s, t, now);
    R.SweepAgrees(cfg.limiter, s.limiter, t.limiter, now, now);
  }

  // ---- The other events -----------------------------------------------------------------

  lemma ChallengeLike(cfg: Config, s: State, t: State, now: int, ip: string, owner: string, nonce: string)
    requires cfg.limiter.window > 0 && Like(cfg, s, t) && s.now <= now
    ensures Like(cfg, Challenged(cfg, s, now, ip, owner, nonce), Challenged(cfg, t, now, ip, owner, nonce))
  {
    hide LikeNonces, LikeTenants, LikeSessions, R.Agree, R.Counted, R.Allowed, R.Opens;
    LaterParts(cfg, s, t, now);
    R.CallAgrees(cfg.limiter, s.limiter, t.limiter, ip, now, now);
    SameAnswer(cfg, s, t, ip, now);
    IssuedLike(s.nonces, t.nonces, nonce, NonceEntry(owner, now + cfg.nonceTtl), now);
  }

  lemma IssuedLike(m: Nonces, n: Nonces, nonce: string, e: NonceEntry, now: int)
    requires LikeNonces(m, n, now)
    ensures LikeNonces(m[nonce := e], n[nonce := e], now)
  {
    var m', n' := m[nonce := e], n[nonce := e];
    forall k, u | u >= now ensures LiveNonce(m', k, u) == LiveNonce(n', k, u) {
      assert LiveNonce(m, k, u) == LiveNonce(n, k, u);
    }
  }

  lemma SameAnswer(cfg: Config, s: State, t: State, ip: string, now: int)
    requires R.Agree(cfg.limiter, s.limiter, t.limiter, now)
    ensures R.Allowed(cfg.limiter, s.limiter, ip, now) == R.Allowed(cfg.limiter, t.limiter, ip, now)
  {
    assert R.Opens(cfg.limiter, s.limiter, ip, now) <==> R.Opens(cfg.limiter, t.limiter, ip, now);
  }

  lemma ConsumeLike(cfg: Config, s: State, t: State, now: int, nonce: string, signature: string, session: string)
    requires Like(cfg, s, t) && s.now <= now
    ensures Like(cfg, Started(cfg, s, now, nonce, signature, session), Started(cfg, t, now, nonce, signature, session))
  {
    hide LikeTenants, LikeSessions, R.Agree, TextFor, LikeNonces, ConsumeResult;
    LaterParts(cfg, s, t, now);
    ConsumedLike(s.nonces, t.nonces, nonce, now);
  }

  /** Alike stores hand out a nonce alike, and are alike without it. */
  lemma ConsumedLike(m: Nonces, n: Nonces, nonce: string, now: int)
    requires LikeNonces(m, n, now)
    ensures ConsumeResult(m, nonce, now).Consumed? <==> ConsumeResult(n, nonce, now).Consumed?
    ensures ConsumeResult(m, nonce, now).Consumed? ==> ConsumeResult(m, nonce, now) == ConsumeResult(n, nonce, now)
    ensures LikeNonces(m - {nonce}, n - {nonce}, now)
  {
    assert LiveNonce(m, nonce, now) == LiveNonce(n, nonce, now);
    forall k, u | u >= now ensures LiveNonce(m - {nonce}, k, u) == LiveNonce(n - {nonce}, k, u) {
      assert LiveNonce(m, k, u) == LiveNonce(n, k, u);
    }
  }

  lemma MintedBearer(s: Tenants, bearer: string, tenantId: string, owner: string, expiresAt: int, b: string, u: int)
    requires tenantId !in s.byTenant && OneToOne(s)
    ensures LiveBearer(Minted(s, bearer, tenantId, owner, expiresAt), b, u) ==
            if b == bearer then (if u < expiresAt then Some(TenantRecord(tenantId, owner, expiresAt)) else None)
            else LiveBearer(s, b, u)
  {
  }

  lemma MintedTenant(s: Tenants, bearer: string, tenantId: string, owner: string, expiresAt: int, k: string, u: int)
    ensures LiveTenant(Minted(s, bearer, tenantId, owner, expiresAt), k, u) ==
            if k == tenantId then (if u < expiresAt then Some(TenantRecord(tenantId, owner, expiresAt)) else None)
            else LiveTenant(s, k, u)
  {
  }

  lemma MintLike(cfg: Config, s: State, t: State, now: int, id: nat, bearer: string, tenantId: string)
    requires Like(cfg, s, t) && TenantsOk(cfg, s) && TenantsOk(cfg, t) && FreshIds(s, bearer, tenantId)
    requires id < |s.verifies| && s.now <= now
    ensures Like(cfg, Granted(cfg, s, now, id, bearer, tenantId), Granted(cfg, t, now, id, bearer, tenantId))
  {
    hide LikeTenants, LikeNonces, LikeSessions, R.Agree, Minted, OneToOne;
    FreshTenant(cfg, s, bearer, tenantId);
    FreshTenant(cfg, t, bearer, tenantId);
    MintTenantsLike(s.tenants, t.tenants, s.now, bearer, tenantId, s.verifies[id].owner, now + cfg.bearerTtl, now);
    LaterParts(cfg, s, t, now);
  }

  lemma MintTenantsLike(
    s: Tenants, t: Tenants, at: int, bearer: string, tenantId: string, owner: string, expiresAt: int, now: int)
    requires LikeTenants(s, t, at) && at <= now && OneToOne(s) && OneToOne(t)
    requires tenantId !in s.byTenant && tenantId !in t.byTenant
    ensures LikeTenants(Minted(s, bearer, tenantId, owner, expiresAt),
                        Minted(t, bearer, tenantId, owner, expiresAt), now)
  {
    hide OneToOne, LiveBearer, LiveTenant, Minted;
    var s', t' := Minted(s, bearer, tenantId, owner, expiresAt), Minted(t, bearer, tenantId, owner, expiresAt);
    forall b, u | u >= now ensures LiveBearer(s', b, u) == LiveBearer(t', b, u) {
      MintedBearer(s, bearer, tenantId, owner, expiresAt, b, u);
      MintedBearer(t, bearer, tenantId, owner, expiresAt, b, u);
    }
    forall k, u | u >= now ensures LiveTenant(s', k, u) == LiveTenant(t', k, u) {
      MintedTenant(s, bearer, tenantId, owner, expiresAt, k, u);
      MintedTenant(t, bearer, tenantId, owner, expiresAt, k, u);
    }
  }

  lemma BindLike(cfg: Config, s: State, t: State, now: int, id: nat)
    requires Like(cfg, s, t) && id < |s.verifies| && s.verifies[id].stage.Issued? && s.now <= now
    ensures Like(cfg, Attached(cfg, s, now, id), Attached(cfg, t, now, id))
  {
    hide LikeTenants, LikeNonces, LikeSessions, R.Agree, AuthStores.Bound;
    LaterParts(cfg, s, t, now);
    BoundLike(s.sessions, t.sessions, s.verifies[id].session, s.verifies[id].stage.bearer, now + cfg.sessionTtl, now);
  }

  lemma BoundLike(m: Sessions, n: Sessions, session: string, bearer: string, expiresAt: int, now: int)
    requires LikeSessions(m, n, now)
    ensures LikeSessions(AuthStores.Bound(m, session, bearer, expiresAt),
                         AuthStores.Bound(n, session, bearer, expiresAt), now)
  {
    var m', n' := AuthStores.Bound(m, session, bearer, expiresAt), AuthStores.Bound(n, session, bearer, expiresAt);
    forall k, u | u >= now ensures BoundTo(m', k, u) == BoundTo(n', k, u) {
      assert BoundTo(m, k, u) == BoundTo(n, k, u);
    }
  }

  lemma StepLike(cfg: Config, s: State, t: State, e: Event)
    requires cfg.limiter.window > 0 && Like(cfg, s, t) && Legal(s, e) && !e.Sweep? && TenantsOk(cfg, s)
             && TenantsOk(cfg, t)
    ensures Legal(t, e) && Like(cfg, Next(cfg, s, e), Next(cfg, t, e))
  {
    SameLegal(cfg, s, t, e);
    hide Like, TenantsOk, Challenged, Started, Granted, Attached;
    match e
    case Challenge(now, ip, owner, nonce) => ChallengeLike(cfg, s, t, now, ip, owner, nonce);
    case Consume(now, nonce, signature, session) => ConsumeLike(cfg, s, t, now, nonce, signature, session);
    case Mint(now, id, bearer, tenantId) => MintLike(cfg, s, t, now, id, bearer, tenantId);
    case Bind(now, id) => BindLike(cfg, s, t, now, id);
  }

  lemma SameLegal(cfg: Config, s: State, t: State, e: Event)
    requires Like(cfg, s, t) && Legal(s, e)
    ensures Legal(t, e)
  {
    hide LikeTenants, LikeNonces, LikeSessions, R.Agree;
  }

  // ---- Runs --------------------------------------------------------------------------------

  function WithoutSweeps(es: seq<Event>): seq<Event> {
    if es == [] then [] else if es[0].Sweep? then WithoutSweeps(es[1..]) else [es[0]] + WithoutSweeps(es[1..])
  }

  /** Dropping every sweep from a run leaves a run that ends in a state nothing tells apart. */
  lemma {:induction false} SweepsInvisible(cfg: Config, s: State, t: State, es: seq<Event>)
    requires cfg.limiter.window > 0 && Run(cfg, s, es) && Like(cfg, s, t) && TenantsOk(cfg, s) && TenantsOk(cfg, t)
    ensures Run(cfg, t, WithoutSweeps(es)) && Like(cfg, Final(cfg, s, es), Final(cfg, t, WithoutSweeps(es)))
    decreases |es|
  {
    hide Like, TenantsOk, Legal, Next;
    if es != [] {
      var e := es[0];
      TenantsStep(cfg, s, e);
      if e.Sweep? {
        SweepLike(cfg, s, t, e);
        SweepsInvisible(cfg, Next(cfg, s, e), t, es[1..]);
      } else {
        StepLike(cfg, s, t, e);
        TenantsStep(cfg, t, e);
        SweepsInvisible(cfg, Next(cfg, s, e), Next(cfg, t, e), es[1..]);
        assert WithoutSweeps(es)[0] == e && WithoutSweeps(es)[1..] == WithoutSweeps(es[1..]);
      }
    }
  }

  /** What requests and verifies get to see. */
  lemma LikeAnswers(
    cfg: Config, s: State, t: State, header: string, session: string, nonce: string, tenantId: string, now: int)
    requires Like(cfg, s, t) && s.now <= now
    ensures Resolve(s, header, session, now) == Resolve(t, header, session, now)
    ensures LiveTenant(s.tenants, tenantId, now) == LiveTenant(t.tenants, tenantId, now)
    ensures LiveNonce(s.nonces, nonce, now) == LiveNonce(t.nonces, nonce, now)
  {
    hide ByBearer, R.Agree;
    var b := BoundTo(s.sessions, session, now);
    assert b == BoundTo(t.sessions, session, now);
    assert LiveBearer(s.tenants, b, now) == LiveBearer(t.tenants, b, now);
    if BEARER <= header {
      assert LiveBearer(s.tenants, header[|BEARER|..], now) == LiveBearer(t.tenants, header[|BEARER|..], now);
    }
  }

  /** Sweep transparency for whole runs: with and without the sweeps, every request resolves to the same tenant,
      every tenant id to the same live record, and every nonce is consumable or not alike. */
  lemma SweepTransparency(
    cfg: Config, start: int, es: seq<Event>, header: string, session: string, nonce: string, tenantId: string, now: int)
    requires cfg.limiter.window > 0 && Run(cfg, Initial(start), es) && Final(cfg, Initial(start), es).now <= now
    ensures Run(cfg, Initial(start), WithoutSweeps(es))
    ensures var s, t := Final(cfg, Initial(start), es), Final(cfg, Initial(start), WithoutSweeps(es));
            && Resolve(s, header, session, now) == Resolve(t, header, session, now)
            && LiveTenant(s.tenants, tenantId, now) == LiveTenant(t.tenants, tenantId, now)
            && LiveNonce(s.nonces, nonce, now) == LiveNonce(t.nonces, nonce, now)
            && t.grants == s.grants && t.issued == s.issued && OneToOne(s.tenants) && OneToOne(t.tenants)
  {
    hide Run, Final, Resolve;
    InitialInv(cfg, start);
    assert Like(cfg, Initial(start), Initial(start));
    SweepsInvisible(cfg, Initial(start), Initial(start), es);
    RunKeeps(cfg, Initial(start), es);
    RunKeeps(cfg, Initial(start), WithoutSweeps(es));
    LikeAnswers(cfg, Final(cfg, Initial(start), es), Final(cfg, Initial(start), WithoutSweeps(es)),
                header, session, nonce, tenantId, now);
  }
}
