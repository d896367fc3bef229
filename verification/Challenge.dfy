/** The text an agent signs to authenticate (`auth/challenge.go`). */
module Challenge {
  import opened Prelude
  import opened Decimal
  import Text

  const PREFIX := "svpchain-mcp-auth-v1"  // without its colon

  const MAX_INT64: int := 0x7FFF_FFFF_FFFF_FFFF

  predicate IsInt64(t: int) { -MAX_INT64 - 1 <= t <= MAX_INT64 }

  function Build(chainId: string, nonce: string, expires: int): string {
    PREFIX + [':'] + (chainId + [':'] + (nonce + [':'] + PrintInt(expires)))
  }

  datatype Parsed = Parsed(chainId: string, nonce: string, expires: int)

  datatype ParseError = BadPrefix | Malformed | BadExpiry | EmptyChain | EmptyNonce

  /** The text before and after the first colon: one cut of `strings.SplitN`. */
  function Before(s: string): string { s[..Text.IndexOf(s, ':')] }

  function Behind(s: string): string
    requires ':' in s
  {
    s[Text.IndexOf(s, ':') + 1..]
  }

  /** `strconv.ParseInt(s, 10, 64)`. */
  function ParseInt64(s: string): Option<int> {
    var v := ParseInt(s);
    if v.Some? && IsInt64(v.value) then v else None
  }

  /** The parser behind the prefix. */
  function ParseRest(rest: string): Result<Parsed, ParseError> {
    if ':' !in rest || ':' !in Behind(rest) then Err(Malformed)
    else
      var chain, nonce := Before(rest), Before(Behind(rest));
      var expires := ParseInt64(Behind(Behind(rest)));
      if expires.None? then Err(BadExpiry)
      else if chain == "" then Err(EmptyChain)
      else if nonce == "" then Err(EmptyNonce)
      else Ok(Parsed(chain, nonce, expires.value))
  }

  function Parse(text: string): Result<Parsed, ParseError> {
    if !(PREFIX + [':'] <= text) then Err(BadPrefix) else ParseRest(text[|PREFIX| + 1..])
  }

  lemma CutAt(a: string, b: string)
    requires ':' !in a
    ensures Before(a + [':'] + b) == a && (a + [':'] + b)[|a|] == ':' && Behind(a + [':'] + b) == b
  {
    Text.IndexOfAppend(a, ':', b);
  }

  lemma BuiltRest(chainId: string, nonce: string, expires: int)
    ensures PREFIX + [':'] <= Build(chainId, nonce, expires)
    ensures Build(chainId, nonce, expires)[|PREFIX| + 1..] == chainId + [':'] + (nonce + [':'] + PrintInt(expires))
  {
  }

  /** Parsing undoes building for exactly the non-empty, colon-free fields (and int64 times). */
  lemma ParseBuildIff(chainId: string, nonce: string, expires: int)
    requires IsInt64(expires)
    ensures Parse(Build(chainId, nonce, expires)) == Ok(Parsed(chainId, nonce, expires)) <==>
            chainId != "" && nonce != "" && ':' !in chainId && ':' !in nonce
  {
    hide Build, PrintInt, ParseInt;
    BuiltRest(chainId, nonce, expires);
    var tail := nonce + [':'] + PrintInt(expires);
    var rest := chainId + [':'] + tail;
    if ':' !in chainId {
      CutAt(chainId, tail);
      if ':' !in nonce {
        CutAt(nonce, PrintInt(expires));
        ParsePrint(expires);
      } else {
        NoColonBefore(tail);
      }
    } else {
      NoColonBefore(rest);
    }
  }

  lemma NoColonBefore(s: string)
    ensures ':' !in Before(s)
  {
  }

  /** Challenges of one chain differ whenever their nonces do, so a signature fits only one of them. */
  lemma BuildInjective(chainId: string, n1: string, t1: int, n2: string, t2: int)
    requires ':' !in n1 && ':' !in n2 && Build(chainId, n1, t1) == Build(chainId, n2, t2)
    ensures n1 == n2 && t1 == t2
  {
    hide Build, PrintInt, ParseInt;
    BuiltRest(chainId, n1, t1);
    BuiltRest(chainId, n2, t2);
    var a, b := n1 + [':'] + PrintInt(t1), n2 + [':'] + PrintInt(t2);
    assert a == (chainId + [':'] + a)[|chainId| + 1..];
    assert b == (chainId + [':'] + b)[|chainId| + 1..];
    CutAt(n1, PrintInt(t1));
    CutAt(n2, PrintInt(t2));
    ParsePrint(t1);
    ParsePrint(t2);
  }

  /** The format, as the signer expects it. */
  lemma Format(chainId: string, nonce: string, expires: nat)
    ensures Build(chainId, nonce, expires) == "svpchain-mcp-auth-v1:" + chainId + ":" + nonce + ":" + Print(expires)
  {
    hide Print;
    var p := "svpchain-mcp-auth-v1:";
    assert p == PREFIX + [':'];
    assert p + chainId + ":" + nonce + ":" + Print(expires) == p + (chainId + ":" + (nonce + ":" + Print(expires)));
  }

  /** What the parser refuses, and as what: another prefix, a field too few, an expiry that is no int64, an empty chain
      id, an empty nonce. */
  lemma ParseRefuses(text: string, chainId: string, nonce: string, last: string)
    requires ':' !in chainId && ':' !in nonce
    ensures !("svpchain-mcp-auth-v1:" <= text) ==> Parse(text) == Err(BadPrefix)
    ensures Parse("svpchain-mcp-auth-v1:" + chainId) == Err(Malformed)
    ensures Parse("svpchain-mcp-auth-v1:" + (chainId + [':'] + nonce)) == Err(Malformed)
    ensures var r := Parse("svpchain-mcp-auth-v1:" + (chainId + [':'] + (nonce + [':'] + last)));
            if ParseInt64(last).None? then r == Err(BadExpiry)
            else if chainId == "" then r == Err(EmptyChain)
            else if nonce == "" then r == Err(EmptyNonce)
            else r == Ok(Parsed(chainId, nonce, ParseInt64(last).value))
  {
    hide Parse, ParseRest;
    AfterPrefix(chainId);
    AfterPrefix(chainId + [':'] + nonce);
    AfterPrefix(chainId + [':'] + (nonce + [':'] + last));
    if !("svpchain-mcp-auth-v1:" <= text) { OtherPrefix(text); }
    RestRefused(chainId, nonce, last);
  }

  lemma AfterPrefix(rest: string)
    ensures Parse("svpchain-mcp-auth-v1:" + rest) == ParseRest(rest)
  {
    hide ParseInt64, Before, Behind;
    var p := "svpchain-mcp-auth-v1:";
    assert p == PREFIX + [':'] && |p| == |PREFIX| + 1;
    assert (p + rest)[|p|..] == rest && p <= p + rest;
  }

  lemma OtherPrefix(text: string)
    requires !("svpchain-mcp-auth-v1:" <= text)
    ensures Parse(text) == Err(BadPrefix)
  {
    assert "svpchain-mcp-auth-v1:" == PREFIX + [':'];
  }

  lemma RestRefused(chainId: string, nonce: string, last: string)
    requires ':' !in chainId && ':' !in nonce
    ensures ParseRest(chainId) == Err(Malformed) && ParseRest(chainId + [':'] + nonce) == Err(Malformed)
    ensures ParseRest(chainId + [':'] + (nonce + [':'] + last)) ==
            if ParseInt64(last).None? then Err(BadExpiry)
            else if chainId == "" then Err(EmptyChain)
            else if nonce == "" then Err(EmptyNonce)
            else Ok(Parsed(chainId, nonce, ParseInt64(last).value))
  {
    hide ParseInt64, Before, Behind;
    CutAt(chainId, nonce);
    CutAt(chainId, nonce + [':'] + last);
    CutAt(nonce, last);
    assert ':' in chainId + [':'] + nonce && ':' in chainId + [':'] + (nonce + [':'] + last);
    assert ':' in nonce + [':'] + last;
  }
}
