/** `auth_challenge` and `auth_verify` as the source writes them, over the four stores. Each call is shown to
    be one event, or the events consume, mint and bind in that order, of the machine in Auth.dfy. */
module AuthHandlers {
  import opened Prelude
  import opened AuthStores
  import opened Auth
  import R = RateLimiter

  class AuthServer {
    const cfg: Config
    const limiter: R.IPRateLimiter
    const nonces: NonceStore
    const tenants: DynamicTenantStore
    const sessions: SessionBearers
    ghost var now: int
    ghost var verifies: seq<Verify>
    ghost var issued: map<string, Issue>
    ghost var grants: map<string, Grant>

    ghost predicate Wired() {
      && limiter.cfg == cfg.limiter && nonces.ttl == cfg.nonceTtl && tenants.ttl == cfg.bearerTtl
      && sessions.ttl == cfg.sessionTtl
    }

    ghost function View(): State
      reads this, limiter, nonces, tenants, sessions
    {
      State(now, limiter.entries, nonces.entries, tenants.State(), sessions.entries, verifies, issued, grants)
    }

    constructor (cfg: Config, now: int)
      ensures Wired() && View() == Initial(now)
    {
      this.cfg := cfg;
      limiter := new R.IPRateLimiter(cfg.limiter.max, cfg.limiter.window);
      nonces := new NonceStore(cfg.nonceTtl);
      tenants := new DynamicTenantStore(cfg.bearerTtl);
      sessions := new SessionBearers(cfg.sessionTtl);
      this.now, verifies, issued, grants := now, [], map[], map[];
    }

    /** Returns the text to sign. */
    method AuthChallenge(ip: string, owner: string, nonce: string, at: int) returns (challenge: Option<string>)
      requires Wired() && Legal(View(), Challenge(at, ip, owner, nonce))
      modifies this`now, this`issued, limiter, nonces
      ensures View() == Next(cfg, old(View()), Challenge(at, ip, owner, nonce))
      ensures challenge == if R.Allowed(cfg.limiter, old(limiter.entries), ip, at) && owner != ""
                           then Some(TextFor(cfg, nonce, at + cfg.nonceTtl)) else None
      ensures challenge.Some? ==> Names(cfg, challenge.value, nonce, at + cfg.nonceTtl)
    {
      hide Names, TextFor;
      TextNames(cfg, nonce, at + cfg.nonceTtl);
      now := at;
      var ok := limiter.Allow(ip, at);
      if !ok { return None; }
      if owner == "" { return None; }
      var expiresAt := nonces.Issue(owner, nonce, at);
      issued := issued[nonce := Issue(owner, at, at + cfg.nonceTtl)];
      challenge := Some(TextFor(cfg, nonce, expiresAt.value));
    }

    /** Returns the bearer. The clock is read in each of the three sections; `bearer` and `tenantId` are the ids
        the mint draws. */
    method AuthVerify(nonce: string, signature: string, session: string, bearer: string, tenantId: string,
                      consumeAt: int, mintAt: int, bindAt: int)
      returns (token: Option<string>)
      requires Wired() && now <= consumeAt <= mintAt <= bindAt && NoncesOk(View())
      requires FreshIds(View(), bearer, tenantId)
      modifies this`now, this`verifies, this`grants, nonces, tenants, sessions
      ensures token == (var r := ConsumeResult(old(nonces.entries), nonce, consumeAt);
                        if r.Consumed? && cfg.recover(TextFor(cfg, nonce, r.expiresAt), signature) == Some(r.owner)
                        then Some(bearer) else None)
      ensures token.Some? ==>
                nonce in old(nonces.entries) && var e := old(nonces.entries[nonce]);
                consumeAt < e.expiresAt && SignedFor(cfg, nonce, e.expiresAt, signature, e.owner)
      ensures var consumed := Next(cfg, old(View()), Consume(consumeAt, nonce, signature, session));
              var mint, bind := Mint(mintAt, |old(verifies)|, bearer, tenantId), Bind(bindAt, |old(verifies)|);
              if token.None? then View() == consumed
              else Legal(consumed, mint) && Legal(Next(cfg, consumed, mint), bind)
                   && View() == Next(cfg, Next(cfg, consumed, mint), bind)
    {
      hide Next;
      ghost var start, id := View(), |verifies|;
      var owner := ConsumeSection(nonce, signature, session, consumeAt);
      if owner.None? { return None; }
      MintSection(owner.value, bearer, tenantId, mintAt, id);
      BindSection(session, bearer, bindAt, id);
      ghost var e := old(nonces.entries[nonce]);
      RecoveredIsSigned(cfg, nonce, e.expiresAt, signature, e.owner);
      token := Some(bearer);
    }

    /** Consume the nonce, recover the signer, compare: the owner when everything fits. */
    method ConsumeSection(nonce: string, signature: string, session: string, at: int) returns (owner: Option<string>)
      requires Wired() && now <= at && NoncesOk(View())
      modifies this`now, this`verifies, nonces
      ensures Legal(old(View()), Consume(at, nonce, signature, session))
      ensures View() == Next(cfg, old(View()), Consume(at, nonce, signature, session)) && now == at
      ensures owner == (var r := ConsumeResult(old(nonces.entries), nonce, at);
                        if r.Consumed? && cfg.recover(TextFor(cfg, nonce, r.expiresAt), signature) == Some(r.owner)
                        then Some(r.owner) else None)
      ensures owner.Some? ==> owner.value != "" &&
                              verifies == old(verifies) + [Verify(nonce, signature, session, owner.value, at, Pending)]
    {
      hide TextFor;
      now := at;
      var r := nonces.Consume(nonce, at);
      if !r.Consumed? { return None; }
      var recovered := cfg.recover(TextFor(cfg, nonce, r.expiresAt), signature);
      if recovered != Some(r.owner) { return None; }
      verifies := verifies + [Verify(nonce, signature, session, r.owner, at, Pending)];
      owner := Some(r.owner);
    }

    method MintSection(owner: string, bearer: string, tenantId: string, at: int, ghost id: nat)
      requires Wired() && Legal(View(), Mint(at, id, bearer, tenantId)) && verifies[id].owner == owner != ""
      modifies this`now, this`verifies, this`grants, tenants
      ensures View() == Next(cfg, old(View()), Mint(at, id, bearer, tenantId)) && now == at
      ensures verifies == old(verifies)[id := old(verifies)[id].(stage := Issued(bearer))]
    {
      var expiresAt := tenants.Mint(owner, bearer, tenantId, at);
      now := at;
      grants := grants[bearer := Grant(id, tenantId, at, at + cfg.bearerTtl)];
      verifies := verifies[id := verifies[id].(stage := Issued(bearer))];
    }

    method BindSection(session: string, bearer: string, at: int, ghost id: nat)
      requires Wired() && Legal(View(), Bind(at, id))
      requires verifies[id].session == session && verifies[id].stage == Issued(bearer)
      modifies this`now, this`verifies, sessions
      ensures View() == Next(cfg, old(View()), Bind(at, id))
    {
      sessions.Bind(session, bearer, at);
      now := at;
      verifies := verifies[id := verifies[id].(stage := Bound(bearer))];
    }
  }
}
