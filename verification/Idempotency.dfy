/** Broadcast idempotency keys (`policy/idempotency.go`). Times are nanoseconds. */
module Idempotency {
  import opened Prelude
  import Text

  const DEFAULT_TTL: nat := 600_000_000_000

  type Seen = map<string, int>

  function Key(tenant: string, client: string): string { tenant + ['|'] + client }

  /** Distinct pairs have distinct keys as long as tenant ids hold no bar, and not otherwise: a tenant id with a bar
      shares a key with the tenant named by what stands before the bar. */
  lemma KeyInjective(t1: string, c1: string, t2: string, c2: string)
    ensures '|' !in t1 && '|' !in t2 && Key(t1, c1) == Key(t2, c2) ==> t1 == t2 && c1 == c2
    ensures '|' in t1 ==> exists t, c :: t != t1 && '|' !in t && Key(t, c) == Key(t1, c1)
  {
    if '|' !in t1 && '|' !in t2 && Key(t1, c1) == Key(t2, c2) {
      Text.IndexOfAppend(t1, '|', c1);
      Text.IndexOfAppend(t2, '|', c2);
      assert t1 == Key(t1, c1)[..|t1|] && t2 == Key(t2, c2)[..|t2|];
      assert c1 == Key(t1, c1)[|t1| + 1..] && c2 == Key(t2, c2)[|t2| + 1..];
    }
    if '|' in t1 {
      var i := Text.IndexOf(t1, '|');
      var t, c := t1[..i], t1[i + 1..] + ['|'] + c1;
      assert t1 == t + ['|'] + t1[i + 1..];
      assert Key(t, c) == Key(t1, c1);
    }
  }

  /** Minted tenant ids, "auto-" and hex digits, hold no bar. */
  predicate Minted(tenant: string) {
    && |tenant| >= 5 && tenant[..5] == "auto-"
    && forall i :: 5 <= i < |tenant| ==> '0' <= tenant[i] <= '9' || 'a' <= tenant[i] <= 'f'
  }

  lemma MintedHasNoBar(tenant: string)
    requires Minted(tenant)
    ensures '|' !in tenant
  {
    assert forall i :: 0 <= i < 5 ==> tenant[i] == tenant[..5][i];
  }

  predicate Free(seen: Seen, key: string, now: int) { key !in seen || seen[key] <= now }

  predicate Accepts(seen: Seen, tenant: string, client: string, now: int) {
    client != "" && Free(seen, Key(tenant, client), now)
  }

  function Claimed(seen: Seen, ttl: int, tenant: string, client: string, now: int): Seen {
    if Accepts(seen, tenant, client, now) then seen[Key(tenant, client) := now + ttl] else seen
  }

  class Tracker {
    const ttl: int
    var seen: Seen

    constructor (ttl: int)
      ensures seen == map[] && this.ttl == if ttl == 0 then 600_000_000_000 else ttl
    {
      this.ttl := if ttl == 0 then DEFAULT_TTL else ttl;
      seen := map[];
    }

    method Claim(tenant: string, client: string, now: int) returns (ok: bool)
      modifies this
      ensures ok == Accepts(old(seen), tenant, client, now)
      ensures seen == Claimed(old(seen), ttl, tenant, client, now)
    {
      if client == "" { return false; }
      var key := tenant + ['|'] + client;
      if key in seen && now < seen[key] { return false; }
      seen := seen[key := now + ttl];
      ok := true;
    }
  }

  // ---- Runs ----------------------------------------------------------------

  datatype Attempt = Attempt(tenant: string, client: string, now: int)

  function After(ttl: int, run: seq<Attempt>): Seen {
    if run == [] then map[]
    else
      var a := run[|run| - 1];
      Claimed(After(ttl, run[..|run| - 1]), ttl, a.tenant, a.client, a.now)
  }

  /** Whether the i-th attempt of the run was let through. */
  predicate Won(ttl: int, run: seq<Attempt>, i: nat)
    requires i < |run|
  {
    Accepts(After(ttl, run[..i]), run[i].tenant, run[i].client, run[i].now)
  }

  function KeyAt(run: seq<Attempt>, i: nat): string
    requires i < |run|
  {
    Key(run[i].tenant, run[i].client)
  }

  lemma PrefixWon(ttl: int, run: seq<Attempt>, n: nat, i: nat)
    requires i < n <= |run|
    ensures Won(ttl, run[..n], i) == Won(ttl, run, i) && KeyAt(run[..n], i) == KeyAt(run, i)
  {
    assert run[..n][..i] == run[..i];
  }

  /** The table entry of a key is no earlier than any expiry won with it ... */
  lemma {:induction false} TableCovers(ttl: nat, run: seq<Attempt>, i: nat)
    requires i < |run| && Won(ttl, run, i)
    ensures KeyAt(run, i) in After(ttl, run) && run[i].now + ttl <= After(ttl, run)[KeyAt(run, i)]
  {
    hide Key;
    var n := |run| - 1;
    if i < n {
      PrefixWon(ttl, run, n, i);
      TableCovers(ttl, run[..n], i);
    }
  }

  /** ... and is itself one of them. */
  lemma {:induction false} TableWitness(ttl: nat, run: seq<Attempt>, k: string) returns (i: nat)
    requires k in After(ttl, run)
    ensures i < |run| && Won(ttl, run, i) && KeyAt(run, i) == k && run[i].now + ttl == After(ttl, run)[k]
  {
    hide Key;
    var n := |run| - 1;
    if Won(ttl, run, n) && KeyAt(run, n) == k {
      i := n;
    } else {
      i := TableWitness(ttl, run[..n], k);
      PrefixWon(ttl, run, n, i);
    }
  }

  /** Two claims won with one key are at least one TTL apart, whatever the clock does in between. */
  lemma ClaimsAreSpaced(ttl: nat, run: seq<Attempt>, i: nat, j: nat)
    requires i < j < |run| && Won(ttl, run, i) && Won(ttl, run, j)
    requires run[i].tenant == run[j].tenant && run[i].client == run[j].client
    ensures run[i].now + ttl <= run[j].now
  {
    PrefixWon(ttl, run, j, i);
    TableCovers(ttl, run[..j], i);
  }

  /** With bar-free tenant ids, as all minted ones are, an attempt with a client id is refused exactly when the same
      tenant won the same client id less than one TTL before. */
  lemma RefusedIff(ttl: nat, run: seq<Attempt>, j: nat)
    requires j < |run| && run[j].client != ""
    requires forall i :: 0 <= i <= j ==> '|' !in run[i].tenant
    ensures !Won(ttl, run, j) <==>
            exists i :: 0 <= i < j && Won(ttl, run, i) && run[i].tenant == run[j].tenant
                        && run[i].client == run[j].client && run[j].now < run[i].now + ttl
  {
    hide Key;
    if !Won(ttl, run, j) {
      var i := TableWitness(ttl, run[..j], KeyAt(run, j));
      PrefixWon(ttl, run, j, i);
      KeyInjective(run[i].tenant, run[i].client, run[j].tenant, run[j].client);
    }
    if i :| 0 <= i < j && Won(ttl, run, i) && run[i].tenant == run[j].tenant
            && run[i].client == run[j].client && run[j].now < run[i].now + ttl
    {
      PrefixWon(ttl, run, j, i);
      TableCovers(ttl, run[..j], i);
    }
  }
}
