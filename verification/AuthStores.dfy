/** The three expiring stores behind self-service authentication: challenge nonces
    (`auth/nonce_store.go`), minted tenants (`auth/dynamic_tenants.go`) and session bindings
    (`auth/session_bearers.go`). Times are nanoseconds; random ids are parameters. */
module AuthStores {
  import opened Prelude

  // ---- Nonces ---------------------------------------------------------------

  datatype NonceEntry = NonceEntry(owner: string, expiresAt: int)

  type Nonces = map<string, NonceEntry>

  datatype Consumption = Consumed(owner: string, expiresAt: int) | NonceNotFound | NonceExpired

  function ConsumeResult(m: Nonces, nonce: string, now: int): Consumption {
    if nonce !in m then NonceNotFound
    else if now < m[nonce].expiresAt then Consumed(m[nonce].owner, m[nonce].expiresAt)
    else NonceExpired
  }

  function SweptNonces(m: Nonces, now: int): Nonces {
    map n | n in m && now < m[n].expiresAt :: m[n]
  }

  class NonceStore {
    const ttl: int
    var entries: Nonces

    constructor (ttl: int)
      ensures entries == map[] && this.ttl == ttl
    {
      this.ttl := ttl;
      entries := map[];
    }

    /** `nonce` is the fresh random id; an empty owner is refused. */
    method Issue(owner: string, nonce: string, now: int) returns (expiresAt: Option<int>)
      modifies this
      ensures expiresAt == if owner == "" then None else Some(now + ttl)
      ensures entries == if owner == "" then old(entries) else old(entries)[nonce := NonceEntry(owner, now + ttl)]
    {
      if owner == "" { return None; }
      entries := entries[nonce := NonceEntry(owner, now + ttl)];
      expiresAt := Some(now + ttl);
    }

    /** Single use: the entry goes even when it has expired. */
    method Consume(nonce: string, now: int) returns (r: Consumption)
      modifies this
      ensures r == ConsumeResult(old(entries), nonce, now) && entries == old(entries) - {nonce}
    {
      if nonce !in entries {
        assert entries - {nonce} == entries;
        return NonceNotFound;
      }
      var e := entries[nonce];
      entries := entries - {nonce};
      if !(now < e.expiresAt) { return NonceExpired; }
      r := Consumed(e.owner, e.expiresAt);
    }

    method Sweep(now: int)
      modifies this
      ensures entries == SweptNonces(old(entries), now)
    {
      ghost var before := entries;
      var todo := entries.Keys;
      while todo != {}
        invariant todo <= before.Keys
        invariant entries == map n | n in before && (n in todo || now < before[n].expiresAt) :: before[n]
      {
        var k :| k in todo;
        if !(now < entries[k].expiresAt) { entries := entries - {k}; }
        todo := todo - {k};
      }
    }
  }

  // ---- Tenants ----------------------------------------------------------------

  datatype TenantRecord = TenantRecord(tenantId: string, owner: string, expiresAt: int)

  datatype Tenants = Tenants(byBearer: map<string, string>, byTenant: map<string, TenantRecord>)

  datatype Lookup = Found(record: TenantRecord) | BearerNotFound | BearerExpired

  function Fresh(record: TenantRecord, now: int): Lookup {
    if now < record.expiresAt then Found(record) else BearerExpired
  }

  function ByTenantId(s: Tenants, tenantId: string, now: int): Lookup {
    if tenantId !in s.byTenant then BearerNotFound else Fresh(s.byTenant[tenantId], now)
  }

  function ByBearer(s: Tenants, bearer: string, now: int): Lookup {
    if bearer !in s.byBearer then BearerNotFound else ByTenantId(s, s.byBearer[bearer], now)
  }

  function Minted(s: Tenants, bearer: string, tenantId: string, owner: string, expiresAt: int): Tenants {
    Tenants(s.byBearer[bearer := tenantId], s.byTenant[tenantId := TenantRecord(tenantId, owner, expiresAt)])
  }

  predicate Dead(s: Tenants, bearer: string, now: int)
    requires bearer in s.byBearer
  {
    !ByBearer(s, bearer, now).Found?
  }

  /** The sweep walks the bearers and drops both halves of every dead pair. */
  function SweptTenants(s: Tenants, now: int): Tenants {
    Tenants(map b | b in s.byBearer && !Dead(s, b, now) :: s.byBearer[b],
            s.byTenant - set b | b in s.byBearer && Dead(s, b, now) :: s.byBearer[b])
  }

  /** Bearers and tenants correspond one to one. */
  ghost predicate OneToOne(s: Tenants) {
    && (forall b | b in s.byBearer :: s.byBearer[b] in s.byTenant)
    && (forall b, c | b in s.byBearer && c in s.byBearer && s.byBearer[b] == s.byBearer[c] :: b == c)
    && (forall t | t in s.byTenant :: exists b :: b in s.byBearer && s.byBearer[b] == t)
  }

  /** Fresh ids keep the correspondence, and so does a sweep. */
  lemma StaysOneToOne(s: Tenants, bearer: string, tenantId: string, owner: string, expiresAt: int, now: int)
    requires OneToOne(s) && bearer !in s.byBearer && tenantId !in s.byTenant
    ensures OneToOne(Minted(s, bearer, tenantId, owner, expiresAt))
    ensures OneToOne(SweptTenants(s, now))
  {
    var m := Minted(s, bearer, tenantId, owner, expiresAt);
    forall t | t in m.byTenant ensures exists b :: b in m.byBearer && m.byBearer[b] == t {
      if t == tenantId { assert m.byBearer[bearer] == t; }
      else { var b :| b in s.byBearer && s.byBearer[b] == t; assert m.byBearer[b] == t; }
    }
    SweepOneToOne(s, now);
  }

  lemma SweepOneToOne(s: Tenants, now: int)
    requires OneToOne(s)
    ensures OneToOne(SweptTenants(s, now))
  {
    var w := SweptTenants(s, now);
    forall t | t in w.byTenant ensures exists b :: b in w.byBearer && w.byBearer[b] == t {
      var b :| b in s.byBearer && s.byBearer[b] == t;
      assert !Dead(s, b, now);
      assert w.byBearer[b] == t;
    }
    forall b | b in w.byBearer ensures w.byBearer[b] in w.byTenant {
      assert forall c | c in s.byBearer && Dead(s, c, now) :: s.byBearer[c] != s.byBearer[b];
    }
  }

  class DynamicTenantStore {
    const ttl: int
    var byBearer: map<string, string>
    var byTenant: map<string, TenantRecord>

    ghost function State(): Tenants
      reads this
    {
      Tenants(byBearer, byTenant)
    }

    constructor (ttl: int)
      ensures State() == Tenants(map[], map[]) && this.ttl == ttl
    {
      this.ttl := ttl;
      byBearer, byTenant := map[], map[];
    }

    /** `bearer` and `tenantId` are the fresh random ids. */
    method Mint(owner: string, bearer: string, tenantId: string, now: int) returns (expiresAt: Option<int>)
      modifies this
      ensures expiresAt == if owner == "" then None else Some(now + ttl)
      ensures State() == if owner == "" then old(State()) else Minted(old(State()), bearer, tenantId, owner, now + ttl)
    {
      if owner == "" { return None; }
      byBearer := byBearer[bearer := tenantId];
      byTenant := byTenant[tenantId := TenantRecord(tenantId, owner, now + ttl)];
      expiresAt := Some(now + ttl);
    }

    method LookupByBearer(bearer: string, now: int) returns (r: Lookup)
      ensures r == ByBearer(State(), bearer, now)
    {
      if bearer !in byBearer { return BearerNotFound; }
      var tenantId := byBearer[bearer];
      if tenantId !in byTenant { return BearerNotFound; }
      var rec := byTenant[tenantId];
      if !(now < rec.expiresAt) { return BearerExpired; }
      r := Found(rec);
    }

    method LookupByTenantID(tenantId: string, now: int) returns (r: Lookup)
      ensures r == ByTenantId(State(), tenantId, now)
    {
      if tenantId !in byTenant { return BearerNotFound; }
      var rec := byTenant[tenantId];
      if !(now < rec.expiresAt) { return BearerExpired; }
      r := Found(rec);
    }

    method Sweep(now: int)
      modifies this
      ensures State() == SweptTenants(old(State()), now)
    {
      ghost var s := State();
      var todo := byBearer.Keys;
      while todo != {}
        invariant todo <= s.byBearer.Keys
        invariant byBearer == map b | b in s.byBearer && (b in todo || !Dead(s, b, now)) :: s.byBearer[b]
        invariant byTenant == s.byTenant - set b | b in s.byBearer && b !in todo && Dead(s, b, now) :: s.byBearer[b]
      {
        var b :| b in todo;
        var tenantId := byBearer[b];
        assert tenantId !in byTenant ==> Dead(s, b, now) by {
          if tenantId !in byTenant && tenantId in s.byTenant {
            var c :| c in s.byBearer && c !in todo && Dead(s, c, now) && s.byBearer[c] == tenantId;
          }
        }
        if tenantId !in byTenant || !(now < byTenant[tenantId].expiresAt) {
          byBearer := byBearer - {b};
          byTenant := byTenant - {tenantId};
        }
        todo := todo - {b};
      }
    }
  }

  // ---- Sessions -----------------------------------------------------------------

  datatype SessionEntry = SessionEntry(bearer: string, expiresAt: int)

  type Sessions = map<string, SessionEntry>

  /** "" when there is no live binding. */
  function BoundTo(m: Sessions, session: string, now: int): string {
    if session == "" || session !in m || now >= m[session].expiresAt then "" else m[session].bearer
  }

  function Bound(m: Sessions, session: string, bearer: string, expiresAt: int): Sessions {
    if session == "" || bearer == "" then m else m[session := SessionEntry(bearer, expiresAt)]
  }

  function SweptSessions(m: Sessions, now: int): Sessions {
    map k | k in m && now < m[k].expiresAt :: m[k]
  }

  class SessionBearers {
    const ttl: int
    var entries: Sessions

    constructor (ttl: int)
      ensures entries == map[] && this.ttl == ttl
    {
      this.ttl := ttl;
      entries := map[];
    }

    method Bind(session: string, bearer: string, now: int)
      modifies this
      ensures entries == Bound(old(entries), session, bearer, now + ttl)
    {
      if session == "" || bearer == "" { return; }
      entries := entries[session := SessionEntry(bearer, now + ttl)];
    }

    method Lookup(session: string, now: int) returns (bearer: string)
      ensures bearer == BoundTo(entries, session, now)
    {
      if session == "" || session !in entries { return ""; }
      if !(now < entries[session].expiresAt) { return ""; }
      bearer := entries[session].bearer;
    }

    method Sweep(now: int)
      modifies this
      ensures entries == SweptSessions(old(entries), now)
    {
      ghost var before := entries;
      var todo := entries.Keys;
      while todo != {}
        invariant todo <= before.Keys
        invariant entries == map k | k in before && (k in todo || now < before[k].expiresAt) :: before[k]
      {
        var k :| k in todo;
        if !(now < entries[k].expiresAt) { entries := entries - {k}; }
        todo := todo - {k};
      }
    }
  }

  /** Sweeps keep exactly what is still live, as it is: nonces, tenants with their bearers, and bindings. */
  lemma SweepsAreExact(n: Nonces, t: Tenants, b: Sessions, nonce: string, bearer: string, session: string, now: int)
    requires OneToOne(t)
    ensures nonce in SweptNonces(n, now) <==> nonce in n && now < n[nonce].expiresAt
    ensures nonce in SweptNonces(n, now) ==> SweptNonces(n, now)[nonce] == n[nonce]
    ensures session in SweptSessions(b, now) <==> session in b && now < b[session].expiresAt
    ensures session in SweptSessions(b, now) ==> SweptSessions(b, now)[session] == b[session]
    ensures var t' := SweptTenants(t, now);
            && (bearer in t'.byBearer <==> bearer in t.byBearer && now < t.byTenant[t.byBearer[bearer]].expiresAt)
            && (bearer in t'.byBearer ==>
                  var id := t.byBearer[bearer];
                  t'.byBearer[bearer] == id && id in t'.byTenant && t'.byTenant[id] == t.byTenant[id])
            && (bearer in t.byBearer && bearer !in t'.byBearer ==> t.byBearer[bearer] !in t'.byTenant)
  {
  }
}
