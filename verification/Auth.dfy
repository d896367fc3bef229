/** Self-service authentication as one state machine: `auth_challenge` and `auth_verify`
    (`tools/auth_tools.go`), the per-request tenant resolution (`cmd/mcp-server/mcp_auth.go`) and the
    background sweeps, interleaved in any order. A verify is three critical sections: it consumes the
    nonce, mints the tenant and binds the session. Signature recovery is a parameter. */
module Auth {
  import opened Prelude
  import opened AuthStores
  import R = RateLimiter
  import C = Challenge

  /** `recover` gives the wallet that signed the text, if the signature decodes at all. */
  datatype Config = Config(
    chainId: string, nonceTtl: int, bearerTtl: int, sessionTtl: int, limiter: R.Config,
    recover: (string, string) -> Option<string>)

  // ---- State -------------------------------------------------------------------

  datatype Stage = Pending | Issued(bearer: string) | Bound(bearer: string)

  /** A verify whose nonce was consumed in time and whose signature fits. */
  datatype Verify = Verify(
    nonce: string, signature: string, session: string, owner: string, consumedAt: int, stage: Stage)

  datatype Issue = Issue(owner: string, at: int, expiresAt: int)

  datatype Grant = Grant(verify: nat, tenantId: string, at: int, expiresAt: int)

  /** The stores, the verifies under way, and the history: every nonce issued, every bearer minted. */
  datatype State = State(
    now: int, limiter: R.Entries, nonces: Nonces, tenants: Tenants, sessions: Sessions,
    verifies: seq<Verify>, issued: map<string, Issue>, grants: map<string, Grant>)

  function Initial(now: int): State {
    State(now, map[], map[], Tenants(map[], map[]), map[], [], map[], map[])
  }

  datatype Store = NonceSweep | TenantSweep | SessionSweep | LimiterSweep

  datatype Event =
    | Challenge(now: int, ip: string, owner: string, nonce: string)
    | Consume(now: int, nonce: string, signature: string, session: string)
    | Mint(now: int, id: nat, bearer: string, tenantId: string)
    | Bind(now: int, id: nat)
    | Sweep(now: int, store: Store)

  /** The clock does not run back and random ids are fresh. */
  predicate Legal(s: State, e: Event) {
    && s.now <= e.now
    && match e
       case Challenge(_, _, _, nonce) => nonce !in s.issued
       case Consume(_, _, _, _) => true
       case Mint(_, id, bearer, tenantId) =>
         && id < |s.verifies| && s.verifies[id].stage.Pending?
         && FreshIds(s, bearer, tenantId)
       case Bind(_, id) => id < |s.verifies| && s.verifies[id].stage.Issued?
       case Sweep(_, _) => true
  }

  const NANOS: int := 1_000_000_000

  /** The canonical text for a nonce, rebuilt from its recorded expiry. */
  function TextFor(cfg: Config, nonce: string, expiresAt: int): string {
    C.Build(cfg.chainId, nonce, expiresAt / NANOS)
  }

  /** What a challenge text must hold: as the signer reads it, this chain, this nonce and the nonce's expiry in whole
      seconds. Chain ids and hex nonces are non-empty and hold no colon. */
  predicate Names(cfg: Config, text: string, nonce: string, expiresAt: int) {
    cfg.chainId != "" && nonce != "" && ':' !in cfg.chainId && ':' !in nonce && C.IsInt64(Seconds(expiresAt)) ==>
      C.Parse(text) == Ok(C.Parsed(cfg.chainId, nonce, Seconds(expiresAt)))
  }

  /** `Time.Unix`: whole seconds, rounded down. */
  function Seconds(nanos: int): (t: int)
    ensures t * 1_000_000_000 <= nanos < (t + 1) * 1_000_000_000
  {
    nanos / NANOS
  }

  lemma TextNames(cfg: Config, nonce: string, expiresAt: int)
    ensures Names(cfg, TextFor(cfg, nonce, expiresAt), nonce, expiresAt)
  {
    if cfg.chainId != "" && nonce != "" && ':' !in cfg.chainId && ':' !in nonce && C.IsInt64(Seconds(expiresAt)) {
      C.ParseBuildIff(cfg.chainId, nonce, Seconds(expiresAt));
    }
  }

  /** The owner signed a text that names this nonce and its expiry. */
  ghost predicate SignedFor(cfg: Config, nonce: string, expiresAt: int, signature: string, owner: string) {
    exists text :: Names(cfg, text, nonce, expiresAt) && cfg.recover(text, signature) == Some(owner)
  }

  lemma RecoveredIsSigned(cfg: Config, nonce: string, expiresAt: int, signature: string, owner: string)
    requires cfg.recover(TextFor(cfg, nonce, expiresAt), signature) == Some(owner)
    ensures SignedFor(cfg, nonce, expiresAt, signature, owner)
  {
    TextNames(cfg, nonce, expiresAt);
  }

  /** Texts of different nonces differ, so no signature serves two nonces. */
  lemma TextsDiffer(cfg: Config, n1: string, t1: int, n2: string, t2: int)
    requires ':' !in n1 && ':' !in n2 && n1 != n2
    ensures TextFor(cfg, n1, t1) != TextFor(cfg, n2, t2)
  {
    if TextFor(cfg, n1, t1) == TextFor(cfg, n2, t2) { C.BuildInjective(cfg.chainId, n1, Seconds(t1), n2, Seconds(t2)); }
  }

  /** `auth_challenge`: the limiter counts first; a refused or ownerless call issues nothing. */
  function Challenged(cfg: Config, s: State, now: int, ip: string, owner: string, nonce: string): (t: State)
    ensures t == s.(now := now, limiter := t.limiter, nonces := t.nonces, issued := t.issued)
  {
    var t := s.(now := now, limiter := R.Counted(cfg.limiter, s.limiter, ip, now));
    if !R.Allowed(cfg.limiter, s.limiter, ip, now) || owner == "" then t
    else t.(nonces := s.nonces[nonce := NonceEntry(owner, now + cfg.nonceTtl)],
            issued := s.issued[nonce := Issue(owner, now, now + cfg.nonceTtl)])
  }

  /** The first section of `auth_verify`: the nonce goes in any case; the verify lives on only if the nonce was
      live and the signature over its rebuilt text recovers to the owner it was issued to. */
  function Started(cfg: Config, s: State, now: int, nonce: string, signature: string, session: string): (t: State)
    ensures t == s.(now := now, nonces := t.nonces, verifies := t.verifies)
    ensures |s.verifies| <= |t.verifies| && t.verifies[..|s.verifies|] == s.verifies
    ensures forall i :: |s.verifies| <= i < |t.verifies| ==> t.verifies[i].stage.Pending?
  {
    var t := s.(now := now, nonces := s.nonces - {nonce});
    var r := ConsumeResult(s.nonces, nonce, now);
    if r.Consumed? && cfg.recover(TextFor(cfg, nonce, r.expiresAt), signature) == Some(r.owner)
    then t.(verifies := s.verifies + [Verify(nonce, signature, session, r.owner, now, Pending)]) else t
  }

  /** The second section: a fresh tenant and bearer for the verified owner. */
  function Granted(cfg: Config, s: State, now: int, id: nat, bearer: string, tenantId: string): (t: State)
    requires id < |s.verifies|
    ensures t == s.(now := now, tenants := t.tenants, verifies := t.verifies, grants := t.grants)
    ensures t.verifies == s.verifies[id := s.verifies[id].(stage := Issued(bearer))]
    ensures t.grants == s.grants[bearer := Grant(id, tenantId, now, now + cfg.bearerTtl)]
  {
    var v := s.verifies[id];
    s.(now := now, tenants := Minted(s.tenants, bearer, tenantId, v.owner, now + cfg.bearerTtl),
       verifies := s.verifies[id := v.(stage := Issued(bearer))],
       grants := s.grants[bearer := Grant(id, tenantId, now, now + cfg.bearerTtl)])
  }

  /** The third section: the session the verify came on now uses the bearer. */
  function Attached(cfg: Config, s: State, now: int, id: nat): (t: State)
    requires id < |s.verifies| && s.verifies[id].stage.Issued?
    ensures t == s.(now := now, sessions := t.sessions, verifies := t.verifies)
    ensures t.verifies == s.verifies[id := s.verifies[id].(stage := Bound(s.verifies[id].stage.bearer))]
  {
    var v := s.verifies[id];
    s.(now := now, sessions := AuthStores.Bound(s.sessions, v.session, v.stage.bearer, now + cfg.sessionTtl),
       verifies := s.verifies[id := v.(stage := Bound(v.stage.bearer))])
  }

  function Swept(cfg: Config, s: State, now: int, store: Store): State {
    match store
    case NonceSweep => s.(now := now, nonces := SweptNonces(s.nonces, now))
    case TenantSweep => s.(now := now, tenants := SweptTenants(s.tenants, now))
    case SessionSweep => s.(now := now, sessions := SweptSessions(s.sessions, now))
    case LimiterSweep => s.(now := now, limiter := R.Swept(cfg.limiter, s.limiter, now))
  }

  function Next(cfg: Config, s: State, e: Event): State
    requires Legal(s, e)
  {
    match e
    case Challenge(now, ip, owner, nonce) => Challenged(cfg, s, now, ip, owner, nonce)
    case Consume(now, nonce, signature, session) => Started(cfg, s, now, nonce, signature, session)
    case Mint(now, id, bearer, tenantId) => Granted(cfg, s, now, id, bearer, tenantId)
    case Bind(now, id) => Attached(cfg, s, now, id)
    case Sweep(now, store) => Swept(cfg, s, now, store)
  }

  predicate Run(cfg: Config, s: State, es: seq<Event>)
    decreases es
  {
    es == [] || (Legal(s, es[0]) && Run(cfg, Next(cfg, s, es[0]), es[1..]))
  }

  function Final(cfg: Config, s: State, es: seq<Event>): State
    requires Run(cfg, s, es)
    decreases es
  {
    if es == [] then s else Final(cfg, Next(cfg, s, es[0]), es[1..])
  }

  // ---- Requests ---------------------------------------------------------------------

  datatype TenantContext = TenantContext(tenantId: string, owner: string)

  const BEARER := "Bearer "

  /** The bearer a request resolves through: an explicit live one, else the live one bound to its session. */
  function Credential(s: State, header: string, session: string, now: int): Option<string> {
    if BEARER <= header && ByBearer(s.tenants, header[|BEARER|..], now).Found? then Some(header[|BEARER|..])
    else
      var b := BoundTo(s.sessions, session, now);
      if b != "" && ByBearer(s.tenants, b, now).Found? then Some(b) else None
  }

  function Resolve(s: State, header: string, session: string, now: int): Option<TenantContext> {
    var b := Credential(s, header, session, now);
    if b.None? then None
    else
      var rec := ByBearer(s.tenants, b.value, now).record;
      Some(TenantContext(rec.tenantId, rec.owner))
  }

  /** The receiving middleware on the live stores: two resolution paths, then the gate. True when the call is
      handed to its handler. */
  method Receive(tenants: DynamicTenantStore, sessions: SessionBearers, header: string, session: string,
                 toolCall: bool, tool: string, now: int)
    returns (tenant: Option<TenantContext>, passed: bool)
    ensures forall s: State | s.tenants == tenants.State() && s.sessions == sessions.entries ::
              tenant == Resolve(s, header, session, now)
    ensures passed <==> tenant.Some? || !toolCall || tool == "auth_challenge" || tool == "auth_verify"
  {
    tenant := None;
    var resolved := false;
    if BEARER <= header {
      var r := tenants.LookupByBearer(header[|BEARER|..], now);
      if r.Found? { tenant, resolved := Some(TenantContext(r.record.tenantId, r.record.owner)), true; }
    }
    if !resolved && session != "" {
      var bearer := sessions.Lookup(session, now);
      if bearer != "" {
        var r := tenants.LookupByBearer(bearer, now);
        if r.Found? { tenant := Some(TenantContext(r.record.tenantId, r.record.owner)); }
      }
    }
    passed := true;
    if toolCall && tool != "auth_challenge" && tool != "auth_verify" && tenant.None? { passed := false; }
  }

  // ---- Invariants ---------------------------------------------------------------------

  /** Live nonces are issued and not yet used. */
  ghost predicate NoncesOk(s: State) {
    && (forall n | n in s.nonces ::
          && n in s.issued && s.nonces[n] == NonceEntry(s.issued[n].owner, s.issued[n].expiresAt)
          && (forall i | 0 <= i < |s.verifies| :: s.verifies[i].nonce != n))
    && (forall n | n in s.issued :: s.issued[n].owner != "" && s.issued[n].at <= s.now)
    && (forall i | 0 <= i < |s.verifies| :: s.verifies[i].nonce in s.issued)
  }

  /** The proof behind a verify: its nonce, issued to the owner, used in time, signed by the owner. */
  predicate Proven(cfg: Config, s: State, v: Verify) {
    && v.nonce in s.issued
    && var i := s.issued[v.nonce];
       && i.owner == v.owner && v.owner != ""
       && i.at <= v.consumedAt < i.expiresAt
       && cfg.recover(TextFor(cfg, v.nonce, i.expiresAt), v.signature) == Some(v.owner)
  }

  ghost predicate VerifiesOk(cfg: Config, s: State) {
    && (forall i | 0 <= i < |s.verifies| :: Proven(cfg, s, s.verifies[i]) && s.verifies[i].consumedAt <= s.now)
    && (forall i, j | 0 <= i < j < |s.verifies| :: s.verifies[i].nonce != s.verifies[j].nonce)
  }

  predicate GrantOk(cfg: Config, s: State, b: string)
    requires b in s.grants
  {
    var g := s.grants[b];
    && g.verify < |s.verifies|
    && var v := s.verifies[g.verify];
       && !v.stage.Pending? && v.stage.bearer == b
       && v.consumedAt <= g.at <= s.now && g.expiresAt == g.at + cfg.bearerTtl
  }

  ghost predicate GrantsOk(cfg: Config, s: State) {
    && (forall b | b in s.grants :: b != "" && GrantOk(cfg, s, b))
    && (forall b, c | b in s.grants && c in s.grants && s.grants[b].tenantId == s.grants[c].tenantId :: b == c)
    && (forall i | 0 <= i < |s.verifies| && !s.verifies[i].stage.Pending? ::
          s.verifies[i].stage.bearer in s.grants && s.grants[s.verifies[i].stage.bearer].verify == i)
  }

  /** The record a grant stands for. */
  function RecordOf(s: State, b: string): TenantRecord
    requires b in s.grants && s.grants[b].verify < |s.verifies|
  {
    TenantRecord(s.grants[b].tenantId, s.verifies[s.grants[b].verify].owner, s.grants[b].expiresAt)
  }

  ghost predicate TenantsOk(cfg: Config, s: State) {
    && OneToOne(s.tenants)
    && (forall b | b in s.tenants.byBearer ::
          && b in s.grants && s.grants[b].verify < |s.verifies|
          && s.tenants.byBearer[b] == s.grants[b].tenantId
          && s.tenants.byTenant[s.grants[b].tenantId] == RecordOf(s, b))
  }

  ghost predicate SessionsOk(cfg: Config, s: State) {
    forall k | k in s.sessions ::
      var b := s.sessions[k].bearer;
      && b in s.grants && s.grants[b].verify < |s.verifies| && s.verifies[s.grants[b].verify].session == k
      && s.grants[b].at + cfg.sessionTtl <= s.sessions[k].expiresAt
  }

  ghost predicate Inv(cfg: Config, s: State) {
    NoncesOk(s) && VerifiesOk(cfg, s) && GrantsOk(cfg, s) && TenantsOk(cfg, s) && SessionsOk(cfg, s)
  }

  // Nonces

  lemma NoncesStep(cfg: Config, s: State, e: Event)
    requires Legal(s, e) && NoncesOk(s)
    ensures NoncesOk(Next(cfg, s, e))
  {
    hide NoncesOk, Challenged, Started, Granted, Attached, R.Swept, SweptTenants, SweptSessions, SweptNonces;
    var s' := Next(cfg, s, e);
    match e
    case Challenge(now, ip, owner, nonce) => ChallengeNonces(cfg, s, now, ip, owner, nonce);
    case Consume(now, nonce, signature, session) => ConsumeNonces(cfg, s, now, nonce, signature, session);
    case Mint(_, _, _, _) => NoncesFrame(s, s');
    case Bind(_, _) => NoncesFrame(s, s');
    case Sweep(now, store) => if store.NonceSweep? { SweepNonces(s, s', now); } else { NoncesFrame(s, s'); }
  }

  lemma NoncesFrame(s: State, t: State)
    requires NoncesOk(s) && t.nonces == s.nonces && t.issued == s.issued && s.now <= t.now
             && |t.verifies| == |s.verifies|
    requires forall i | 0 <= i < |s.verifies| :: t.verifies[i].nonce == s.verifies[i].nonce
    ensures NoncesOk(t)
  {
  }

  lemma SweepNonces(s: State, t: State, now: int)
    requires NoncesOk(s) && s.now <= now && t == s.(now := now, nonces := SweptNonces(s.nonces, now))
    ensures NoncesOk(t)
  {
  }

  /** A freshly issued nonce is in no verify, because verifies only hold issued ones. */
  lemma ChallengeNonces(cfg: Config, s: State, now: int, ip: string, owner: string, nonce: string)
    requires NoncesOk(s) && s.now <= now && nonce !in s.issued
    ensures NoncesOk(Challenged(cfg, s, now, ip, owner, nonce))
  {
    hide R.Counted, R.Allowed;
  }

  lemma ConsumeNonces(cfg: Config, s: State, now: int, nonce: string, signature: string, session: string)
    requires NoncesOk(s) && s.now <= now
    ensures NoncesOk(Started(cfg, s, now, nonce, signature, session))
  {
    hide TextFor;
  }

  // Verifies

  lemma VerifiesStep(cfg: Config, s: State, e: Event)
    requires Legal(s, e) && NoncesOk(s) && VerifiesOk(cfg, s)
    ensures VerifiesOk(cfg, Next(cfg, s, e))
  {
    hide NoncesOk, VerifiesOk, Challenged, Started, Granted, Attached, R.Swept, SweptTenants, SweptSessions;
    hide SweptNonces;
    var s' := Next(cfg, s, e);
    match e
    case Challenge(now, ip, owner, nonce) => ChallengeIssues(cfg, s, now, ip, owner, nonce); VerifiesFrame(cfg, s, s');
    case Consume(now, nonce, signature, session) => ConsumeVerifies(cfg, s, now, nonce, signature, session);
    case Mint(_, _, _, _) => VerifiesFrame(cfg, s, s');
    case Bind(_, _) => VerifiesFrame(cfg, s, s');
    case Sweep(_, _) => VerifiesFrame(cfg, s, s');
  }

  lemma ChallengeIssues(cfg: Config, s: State, now: int, ip: string, owner: string, nonce: string)
    requires nonce !in s.issued
    ensures var t := Challenged(cfg, s, now, ip, owner, nonce);
            forall n | n in s.issued :: n in t.issued && t.issued[n] == s.issued[n]
  {
  }

  lemma VerifiesFrame(cfg: Config, s: State, t: State)
    requires VerifiesOk(cfg, s) && s.now <= t.now && |t.verifies| == |s.verifies|
    requires forall n | n in s.issued :: n in t.issued && t.issued[n] == s.issued[n]
    requires forall i | 0 <= i < |s.verifies| :: t.verifies[i] == s.verifies[i].(stage := t.verifies[i].stage)
    ensures VerifiesOk(cfg, t)
  {
    hide TextFor;
    forall i | 0 <= i < |t.verifies| ensures Proven(cfg, t, t.verifies[i]) { assert Proven(cfg, s, s.verifies[i]); }
  }

  lemma ConsumeVerifies(cfg: Config, s: State, now: int, nonce: string, signature: string, session: string)
    requires NoncesOk(s) && VerifiesOk(cfg, s) && s.now <= now
    ensures VerifiesOk(cfg, Started(cfg, s, now, nonce, signature, session))
  {
    hide TextFor;
  }

  // Grants

  lemma GrantsStep(cfg: Config, s: State, e: Event)
    requires Legal(s, e) && VerifiesOk(cfg, s) && GrantsOk(cfg, s)
    ensures GrantsOk(cfg, Next(cfg, s, e))
  {
    hide GrantsOk, Challenged, Started, Granted, Attached, R.Swept, SweptTenants, SweptSessions, SweptNonces;
    var s' := Next(cfg, s, e);
    match e
    case Challenge(_, _, _, _) => GrantsFrame(cfg, s, s');
    case Consume(_, _, _, _) =>
      assert forall i | 0 <= i < |s.verifies| :: s'.verifies[i] == s'.verifies[..|s.verifies|][i];
      GrantsFrame(cfg, s, s');
    case Mint(now, id, bearer, tenantId) => MintGrants(cfg, s, now, id, bearer, tenantId);
    case Bind(_, _) => GrantsFrame(cfg, s, s');
    case Sweep(_, _) => GrantsFrame(cfg, s, s');
  }

  lemma GrantsFrame(cfg: Config, s: State, t: State)
    requires GrantsOk(cfg, s) && t.grants == s.grants && s.now <= t.now && |s.verifies| <= |t.verifies|
    requires forall i | 0 <= i < |s.verifies| ::
               && t.verifies[i].consumedAt == s.verifies[i].consumedAt
               && (t.verifies[i].stage.Pending? <==> s.verifies[i].stage.Pending?)
               && (!s.verifies[i].stage.Pending? ==> t.verifies[i].stage.bearer == s.verifies[i].stage.bearer)
    requires forall i | |s.verifies| <= i < |t.verifies| :: t.verifies[i].stage.Pending?
    ensures GrantsOk(cfg, t)
  {
    forall b | b in t.grants ensures b != "" && GrantOk(cfg, t, b) { assert GrantOk(cfg, s, b); }
  }

  predicate FreshIds(s: State, bearer: string, tenantId: string) {
    bearer != "" && bearer !in s.grants && forall b | b in s.grants :: s.grants[b].tenantId != tenantId
  }

  lemma MintGrants(cfg: Config, s: State, now: int, id: nat, bearer: string, tenantId: string)
    requires VerifiesOk(cfg, s) && GrantsOk(cfg, s) && s.now <= now && FreshIds(s, bearer, tenantId)
    requires id < |s.verifies| && s.verifies[id].stage.Pending?
    ensures GrantsOk(cfg, Granted(cfg, s, now, id, bearer, tenantId))
  {
    hide Granted, Proven;
    var t := Granted(cfg, s, now, id, bearer, tenantId);
    forall b | b in t.grants ensures b != "" && GrantOk(cfg, t, b) {
      if b != bearer { assert GrantOk(cfg, s, b) && s.grants[b].verify != id; }
    }
    forall b, c | b in t.grants && c in t.grants && t.grants[b].tenantId == t.grants[c].tenantId ensures b == c {
      assert b != bearer ==> s.grants[b].tenantId != tenantId;
      assert c != bearer ==> s.grants[c].tenantId != tenantId;
    }
  }

  // Tenants

  lemma TenantsStep(cfg: Config, s: State, e: Event)
    requires Legal(s, e) && TenantsOk(cfg, s)
    ensures TenantsOk(cfg, Next(cfg, s, e))
  {
    hide TenantsOk, Challenged, Started, Granted, Attached, R.Swept, SweptTenants, SweptSessions, SweptNonces;
    var s' := Next(cfg, s, e);
    match e
    case Challenge(_, _, _, _) => TenantsFrame(cfg, s, s');
    case Consume(_, _, _, _) =>
      assert forall i | 0 <= i < |s.verifies| :: s'.verifies[i] == s'.verifies[..|s.verifies|][i];
      TenantsFrame(cfg, s, s');
    case Mint(now, id, bearer, tenantId) => MintTenants(cfg, s, now, id, bearer, tenantId);
    case Bind(_, _) => TenantsFrame(cfg, s, s');
    case Sweep(now, store) =>
      if store.TenantSweep? { SweepTenants(cfg, s, s', now); } else { TenantsFrame(cfg, s, s'); }
  }

  /** The bearer to grant link survives any change of stage. */
  lemma TenantsFrame(cfg: Config, s: State, t: State)
    requires TenantsOk(cfg, s) && t.tenants == s.tenants && |s.verifies| <= |t.verifies|
    requires forall b | b in s.grants :: b in t.grants && t.grants[b] == s.grants[b]
    requires forall i | 0 <= i < |s.verifies| :: t.verifies[i].owner == s.verifies[i].owner
    ensures TenantsOk(cfg, t)
  {
    hide OneToOne;
  }

  /** A fresh id is in neither tenant map. */
  lemma FreshTenant(cfg: Config, s: State, bearer: string, tenantId: string)
    requires TenantsOk(cfg, s) && FreshIds(s, bearer, tenantId)
    ensures bearer !in s.tenants.byBearer && tenantId !in s.tenants.byTenant
  {
    forall t | t in s.tenants.byTenant ensures t != tenantId {
      var b :| b in s.tenants.byBearer && s.tenants.byBearer[b] == t;
      assert s.grants[b].tenantId == t;
    }
  }

  lemma MintTenants(cfg: Config, s: State, now: int, id: nat, bearer: string, tenantId: string)
    requires TenantsOk(cfg, s) && FreshIds(s, bearer, tenantId) && id < |s.verifies|
    ensures TenantsOk(cfg, Granted(cfg, s, now, id, bearer, tenantId))
  {
    hide OneToOne;
    FreshTenant(cfg, s, bearer, tenantId);
    StaysOneToOne(s.tenants, bearer, tenantId, s.verifies[id].owner, now + cfg.bearerTtl, now);
    var t := Granted(cfg, s, now, id, bearer, tenantId);
    forall b | b in t.tenants.byBearer
      ensures b in t.grants && t.grants[b].verify < |t.verifies|
      ensures t.tenants.byBearer[b] == t.grants[b].tenantId
              && t.tenants.byTenant[t.grants[b].tenantId] == RecordOf(t, b)
    {
      if b != bearer { assert s.grants[b].tenantId != tenantId; }
    }
  }

  lemma SweepTenants(cfg: Config, s: State, t: State, now: int)
    requires TenantsOk(cfg, s) && t == s.(now := now, tenants := SweptTenants(s.tenants, now))
    ensures TenantsOk(cfg, t)
  {
    SweepOneToOne(s.tenants, now);
    hide Dead;
    forall b | b in t.tenants.byBearer
      ensures b in t.grants && t.grants[b].verify < |t.verifies|
      ensures t.tenants.byBearer[b] == t.grants[b].tenantId
              && t.tenants.byTenant[t.grants[b].tenantId] == RecordOf(t, b)
    {
      assert b in s.tenants.byBearer && t.tenants.byBearer[b] in t.tenants.byTenant;
    }
  }

  // Sessions

  lemma SessionsStep(cfg: Config, s: State, e: Event)
    requires Legal(s, e) && GrantsOk(cfg, s) && SessionsOk(cfg, s)
    ensures SessionsOk(cfg, Next(cfg, s, e))
  {
    hide GrantsOk, SessionsOk, Challenged, Started, Granted, Attached, R.Swept, SweptTenants, SweptNonces;
    var s' := Next(cfg, s, e);
    match e
    case Challenge(_, _, _, _) => SessionsFrame(cfg, s, s');
    case Consume(_, _, _, _) =>
      assert forall i | 0 <= i < |s.verifies| :: s'.verifies[i] == s'.verifies[..|s.verifies|][i];
      SessionsFrame(cfg, s, s');
    case Mint(_, _, _, _) => SessionsFrame(cfg, s, s');
    case Bind(now, id) => BindSessions(cfg, s, now, id);
    case Sweep(_, _) => SessionsFrame(cfg, s, s');
  }

  lemma SessionsFrame(cfg: Config, s: State, t: State)
    requires SessionsOk(cfg, s) && |s.verifies| <= |t.verifies|
    requires forall k | k in t.sessions :: k in s.sessions && t.sessions[k] == s.sessions[k]
    requires forall b | b in s.grants :: b in t.grants && t.grants[b] == s.grants[b]
    requires forall i | 0 <= i < |s.verifies| :: t.verifies[i].session == s.verifies[i].session
    ensures SessionsOk(cfg, t)
  {
  }

  lemma BindSessions(cfg: Config, s: State, now: int, id: nat)
    requires GrantsOk(cfg, s) && SessionsOk(cfg, s) && s.now <= now && id < |s.verifies| && s.verifies[id].stage.Issued?
    ensures SessionsOk(cfg, Attached(cfg, s, now, id))
  {
    assert GrantOk(cfg, s, s.verifies[id].stage.bearer);
    hide GrantsOk, GrantOk;
  }

  lemma {:induction false} RunKeeps(cfg: Config, s: State, es: seq<Event>)
    requires Inv(cfg, s) && Run(cfg, s, es)
    ensures Inv(cfg, Final(cfg, s, es))
    decreases |es|
  {
    hide NoncesOk, VerifiesOk, GrantsOk, TenantsOk, SessionsOk, Next, Legal;
    if es != [] {
      var e := es[0];
      NoncesStep(cfg, s, e);
      VerifiesStep(cfg, s, e);
      GrantsStep(cfg, s, e);
      TenantsStep(cfg, s, e);
      SessionsStep(cfg, s, e);
      RunKeeps(cfg, Next(cfg, s, e), es[1..]);
    }
  }

  lemma InitialInv(cfg: Config, now: int)
    ensures Inv(cfg, Initial(now))
  {
  }

  // ---- Safety over whole runs ----------------------------------------------------------

  /** Everything that must have happened for bearer b to speak for this tenant at this time. */
  ghost predicate Authentic(cfg: Config, s: State, b: string, tc: TenantContext, now: int) {
    && b in s.grants && s.grants[b].verify < |s.verifies|
    && var g := s.grants[b]; var v := s.verifies[g.verify];
       // the tenant is the one minted with this bearer, and the bearer has not expired
       && tc == TenantContext(g.tenantId, v.owner) && now < g.expiresAt == g.at + cfg.bearerTtl
       // one nonce, issued to that owner, consumed before its expiry, and a text naming it signed by that owner
       && v.nonce in s.issued && s.issued[v.nonce].owner == v.owner != ""
       && s.issued[v.nonce].at <= v.consumedAt < s.issued[v.nonce].expiresAt && v.consumedAt <= g.at
       && SignedFor(cfg, v.nonce, s.issued[v.nonce].expiresAt, v.signature, v.owner)
       // that nonce and that tenant belong to no other bearer
       && (forall c | c in s.grants && s.grants[c].verify < |s.verifies| ::
             (s.verifies[s.grants[c].verify].nonce == v.nonce || s.grants[c].tenantId == g.tenantId) ==> c == b)
  }

  /** Auth safety: in every run, any request that resolves to a tenant does so through a bearer that traces back
      to exactly one nonce, issued to the tenant's owner, consumed before it expired, with a signature over its
      rebuilt challenge text that recovers to that owner. A session resolves only through a bearer minted by a
      verify made on that session, and only while that bearer lives. */
  lemma ResolvedIsAuthentic(cfg: Config, start: int, es: seq<Event>, header: string, session: string, now: int)
    requires Run(cfg, Initial(start), es) && Final(cfg, Initial(start), es).now <= now
    requires Resolve(Final(cfg, Initial(start), es), header, session, now).Some?
    ensures var s := Final(cfg, Initial(start), es); var b := Credential(s, header, session, now);
            && b.Some? && Authentic(cfg, s, b.value, Resolve(s, header, session, now).value, now)
            && (header == BEARER + b.value || s.verifies[s.grants[b.value].verify].session == session)
  {
    hide Run, Final, NoncesOk, VerifiesOk, GrantsOk, TenantsOk, Authentic, ByBearer;
    InitialInv(cfg, start);
    RunKeeps(cfg, Initial(start), es);
    var s := Final(cfg, Initial(start), es);
    var b := Credential(s, header, session, now).value;
    assert BEARER <= header ==> header == BEARER + header[|BEARER|..];
    LiveIsAuthentic(cfg, s, b, now);
  }

  lemma LiveIsAuthentic(cfg: Config, s: State, b: string, now: int)
    requires Inv(cfg, s) && ByBearer(s.tenants, b, now).Found?
    ensures var r := ByBearer(s.tenants, b, now).record; Authentic(cfg, s, b, TenantContext(r.tenantId, r.owner), now)
  {
    hide C.Build, OneToOne, SignedFor;
    var g := s.grants[b];
    var v := s.verifies[g.verify];
    assert Proven(cfg, s, v);
    RecoveredIsSigned(cfg, v.nonce, s.issued[v.nonce].expiresAt, v.signature, v.owner);
    forall c | c in s.grants && s.grants[c].verify < |s.verifies|
                && (|| s.verifies[s.grants[c].verify].nonce == s.verifies[g.verify].nonce
                    || s.grants[c].tenantId == g.tenantId)
      ensures c == b
    {
      assert GrantOk(cfg, s, b) && GrantOk(cfg, s, c);
    }
  }

  /** Conversely a binding never dies before its bearer: while the bearer lives, its session still finds it. */
  lemma SessionCoversBearer(cfg: Config, start: int, es: seq<Event>, session: string, now: int)
    requires Run(cfg, Initial(start), es) && cfg.bearerTtl <= cfg.sessionTtl && session != ""
    requires var s := Final(cfg, Initial(start), es);
             session in s.sessions && ByBearer(s.tenants, s.sessions[session].bearer, now).Found?
    ensures var s := Final(cfg, Initial(start), es);
            BoundTo(s.sessions, session, now) == s.sessions[session].bearer
  {
    hide Run, Final, C.Build;
    InitialInv(cfg, start);
    RunKeeps(cfg, Initial(start), es);
    var s := Final(cfg, Initial(start), es);
    var b := s.sessions[session].bearer;
    assert GrantOk(cfg, s, b);
  }

  // ---- The handshake succeeds -----------------------------------------------------------

  /** The state after challenge, consume, mint and bind, each at its time. */
  function Shaken(
    cfg: Config, s: State, ip: string, owner: string, nonce: string, signature: string, session: string,
    bearer: string, tenantId: string, at: (int, int, int, int)): State
    requires Legal(s, Challenge(at.0, ip, owner, nonce)) && at.0 <= at.1 <= at.2 <= at.3
    requires R.Allowed(cfg.limiter, s.limiter, ip, at.0) && owner != "" && at.1 < at.0 + cfg.nonceTtl
    requires cfg.recover(TextFor(cfg, nonce, at.0 + cfg.nonceTtl), signature) == Some(owner)
    requires FreshIds(s, bearer, tenantId)
  {
    var a := Next(cfg, s, Challenge(at.0, ip, owner, nonce));
    var b := Next(cfg, a, Consume(at.1, nonce, signature, session));
    var c := Next(cfg, b, Mint(at.2, |s.verifies|, bearer, tenantId));
    Next(cfg, c, Bind(at.3, |s.verifies|))
  }

  /** Completeness: a caller the limiter lets through, who signs the text it is given in time, is then resolved to its
      wallet and tenant, by the bearer from any session and by the session without a header, for exactly as long as
      the bearer and, for the session, the binding live. */
  lemma HandshakeSucceeds(
    cfg: Config, s: State, ip: string, owner: string, nonce: string, signature: string, session: string,
    bearer: string, tenantId: string, at: (int, int, int, int), other: string, now: int)
    requires Legal(s, Challenge(at.0, ip, owner, nonce)) && at.0 <= at.1 <= at.2 <= at.3
    requires R.Allowed(cfg.limiter, s.limiter, ip, at.0) && owner != "" && at.1 < at.0 + cfg.nonceTtl
    requires cfg.recover(TextFor(cfg, nonce, at.0 + cfg.nonceTtl), signature) == Some(owner)
    requires FreshIds(s, bearer, tenantId)
    ensures var t := Shaken(cfg, s, ip, owner, nonce, signature, session, bearer, tenantId, at);
            var who := Some(TenantContext(tenantId, owner));
            && (now < at.2 + cfg.bearerTtl ==> Resolve(t, "Bearer " + bearer, other, now) == who)
            && (session != "" && now < at.2 + cfg.bearerTtl && now < at.3 + cfg.sessionTtl ==>
                  Resolve(t, "", session, now) == who)
            && (now >= at.2 + cfg.bearerTtl ==> Resolve(t, "Bearer " + bearer, "", now) == None)
            && (session != "" && (now >= at.2 + cfg.bearerTtl || now >= at.3 + cfg.sessionTtl) ==>
                  Resolve(t, "", session, now) == None)
  {
    hide R.Counted, R.Allowed, TextFor;
    var t := Shaken(cfg, s, ip, owner, nonce, signature, session, bearer, tenantId, at);
    assert ("Bearer " + bearer)[|BEARER|..] == bearer;
    assert bearer in t.tenants.byBearer && t.tenants.byBearer[bearer] == tenantId;
    assert t.tenants.byTenant[tenantId] == TenantRecord(tenantId, owner, at.2 + cfg.bearerTtl);
  }

  /** And only so: a nonce that is unknown, expired or signed by somebody else is used up and starts no verify. */
  lemma HandshakeFails(cfg: Config, s: State, nonce: string, signature: string, session: string, now: int)
    requires s.now <= now
    requires nonce in s.nonces ==>
               || now >= s.nonces[nonce].expiresAt
               || cfg.recover(TextFor(cfg, nonce, s.nonces[nonce].expiresAt), signature) != Some(s.nonces[nonce].owner)
    ensures var t := Next(cfg, s, Consume(now, nonce, signature, session));
            nonce !in t.nonces && t == s.(now := now, nonces := s.nonces - {nonce})
  {
    hide TextFor;
  }
}
