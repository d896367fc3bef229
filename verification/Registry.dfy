/** The bridge route registry (`bridge/registry.go`): routes are rejected when a lookup could be ambiguous, by
    comparing string keys. Symbols and names are ASCII; addresses are numbers. */
module Registry {
  import opened Prelude
  import opened Decimal
  import Text

  // ---- Addresses as text ------------------------------------------------------------

  predicate IsHexDigit(c: char) { '0' <= c <= '9' || 'a' <= c <= 'f' || 'A' <= c <= 'F' }

  function HexDigitValue(c: char): nat
    requires IsHexDigit(c)
  {
    if c <= '9' then (c - '0') as nat else if c <= 'F' then (c - 'A') as nat + 10 else (c - 'a') as nat + 10
  }

  function Strip0x(s: string): string {
    if |s| >= 2 && s[0] == '0' && (s[1] == 'x' || s[1] == 'X') then s[2..] else s
  }

  predicate AllHex(s: string) { forall i :: 0 <= i < |s| ==> IsHexDigit(s[i]) }

  /** `common.IsHexAddress`. */
  predicate IsHexAddress(s: string) { |Strip0x(s)| == 40 && AllHex(Strip0x(s)) }

  function HexValue(s: string): nat
    requires AllHex(s)
  {
    if s == [] then 0 else 16 * HexValue(s[..|s| - 1]) + HexDigitValue(s[|s| - 1])
  }

  function HexToAddress(s: string): nat
    requires IsHexAddress(s)
  {
    HexValue(Strip0x(s))
  }

  function Pow16(k: nat): nat { if k == 0 then 1 else 16 * Pow16(k - 1) }

  function HexDigit(d: nat): char
    requires d < 16
  {
    if d < 10 then '0' + d as char else 'a' + (d - 10) as char
  }

  /** k lower-case hex digits of n. */
  function HexDigits(n: nat, k: nat): (s: string)
    ensures |s| == k && AllHex(s)
  {
    if k == 0 then [] else HexDigits(n / 16, k - 1) + [HexDigit(n % 16)]
  }

  lemma {:induction false} HexRoundTrip(n: nat, k: nat)
    requires n < Pow16(k)
    ensures HexValue(HexDigits(n, k)) == n
  {
    if k > 0 {
      HexRoundTrip(n / 16, k - 1);
      assert HexDigits(n, k)[..k - 1] == HexDigits(n / 16, k - 1);
    }
  }

  lemma {:induction false} HexBound(s: string)
    requires AllHex(s)
    ensures HexValue(s) < Pow16(|s|)
  {
    if s != [] { HexBound(s[..|s| - 1]); }
  }

  /** `Address.Hex()` up to the case of its letters, which every use here folds away. */
  function AddressText(a: nat): string { "0x" + HexDigits(a, 40) }

  lemma AddressTextInjective(a: nat, b: nat)
    requires a < Pow16(40) && b < Pow16(40) && Text.ToLower(AddressText(a)) == Text.ToLower(AddressText(b))
    ensures a == b
  {
    hide Pow16, HexValue;
    LowerHexText(a);
    LowerHexText(b);
    assert HexDigits(a, 40) == AddressText(a)[2..] && HexDigits(b, 40) == AddressText(b)[2..];
    HexRoundTrip(a, 40);
    HexRoundTrip(b, 40);
  }

  lemma LowerHexText(a: nat)
    ensures Text.ToLower(AddressText(a)) == AddressText(a)
  {
    LowerHexDigits(a, 40);
    var s := AddressText(a);
    assert forall i :: 0 <= i < |s| ==> !('A' <= s[i] <= 'Z');
  }

  lemma {:induction false} LowerHexDigits(n: nat, k: nat)
    ensures forall i :: 0 <= i < k ==> !('A' <= HexDigits(n, k)[i] <= 'Z')
  {
    if k > 0 { LowerHexDigits(n / 16, k - 1); }
  }

  // ---- Keys ------------------------------------------------------------------------------

  function RouteKey(src: nat, target: nat, last: string): string {
    Print(src) + ['|'] + (Print(target) + ['|'] + Text.ToLower(last))
  }

  lemma CutBar(a: string, b: string, c: string, d: string)
    requires '|' !in a && '|' !in c && a + ['|'] + b == c + ['|'] + d
    ensures a == c && b == d
  {
    Text.IndexOfAppend(a, '|', b);
    Text.IndexOfAppend(c, '|', d);
    assert a == (a + ['|'] + b)[..|a|] && c == (c + ['|'] + d)[..|c|];
    assert b == (a + ['|'] + b)[|a| + 1..] && d == (c + ['|'] + d)[|c| + 1..];
  }

  lemma PrintHasNoBar(n: nat)
    ensures '|' !in Print(n)
  {
    assert AllDigits(Print(n));
  }

  /** Keys are injective up to case. */
  lemma RouteKeyInjective(s1: nat, t1: nat, l1: string, s2: nat, t2: nat, l2: string)
    ensures RouteKey(s1, t1, l1) == RouteKey(s2, t2, l2) <==>
            s1 == s2 && t1 == t2 && Text.ToLower(l1) == Text.ToLower(l2)
  {
    hide Print;
    if RouteKey(s1, t1, l1) == RouteKey(s2, t2, l2) {
      PrintHasNoBar(s1);
      PrintHasNoBar(s2);
      PrintHasNoBar(t1);
      PrintHasNoBar(t2);
      CutBar(Print(s1), Print(t1) + ['|'] + Text.ToLower(l1), Print(s2), Print(t2) + ['|'] + Text.ToLower(l2));
      CutBar(Print(t1), Text.ToLower(l1), Print(t2), Text.ToLower(l2));
      PrintInjective(s1, s2);
      PrintInjective(t1, t2);
    }
  }

  // ---- Building the registry -----------------------------------------------------------------

  datatype RawRoute = RawRoute(
    srcChain: string, srcId: nat, targetChain: string, targetId: nat,
    srcToken: string, targetToken: string, symbol: string, decimals: int)

  datatype Route = Route(
    srcId: nat, targetId: nat, targetChain: string, srcToken: nat, targetToken: nat, symbol: string, decimals: int)

  predicate WellFormed(r: RawRoute) {
    && r.srcId != 0 && r.targetId != 0
    && IsHexAddress(r.srcToken) && IsHexAddress(r.targetToken)
    && Text.TrimSpace(r.symbol) != "" && 0 <= r.decimals <= 77
  }

  function RouteOf(r: RawRoute): Route
    requires WellFormed(r)
  {
    Route(r.srcId, r.targetId, r.targetChain,
          HexToAddress(r.srcToken), HexToAddress(r.targetToken), r.symbol, r.decimals)
  }

  /** Two routes of one leg that one query could both mean. */
  predicate Clash(a: Route, b: Route) {
    && a.srcId == b.srcId && a.targetId == b.targetId
    && (a.srcToken == b.srcToken || Text.ToLower(a.symbol) == Text.ToLower(b.symbol))
  }

  /** The files that load: every route well formed, no two clashing. */
  predicate Acceptable(raws: seq<RawRoute>) {
    && (forall i :: 0 <= i < |raws| ==> WellFormed(raws[i]))
    && (forall i, j :: 0 <= i < j < |raws| ==> !Clash(RouteOf(raws[i]), RouteOf(raws[j])))
  }

  function RoutesOf(raws: seq<RawRoute>): seq<Route>
    requires forall i :: 0 <= i < |raws| ==> WellFormed(raws[i])
  {
    seq(|raws|, i requires 0 <= i < |raws| => RouteOf(raws[i]))
  }

  datatype Names = Names(idToName: map<nat, string>, nameToId: map<string, nat>)

  function Learn(n: Names, name: string, id: nat): Names {
    if name == "" then n
    else Names(if id in n.idToName then n.idToName else n.idToName[id := name], n.nameToId[Text.ToLower(name) := id])
  }

  function NamesOf(raws: seq<RawRoute>): Names {
    if raws == [] then Names(map[], map[])
    else
      var r := raws[|raws| - 1];
      Learn(Learn(NamesOf(raws[..|raws| - 1]), r.srcChain, r.srcId), r.targetChain, r.targetId)
  }

  datatype Registry = Registry(routes: seq<Route>, names: Names)

  function TokenKey(r: Route): string { RouteKey(r.srcId, r.targetId, AddressText(r.srcToken)) }

  function SymbolKey(r: Route): string { RouteKey(r.srcId, r.targetId, Text.ToLower(r.symbol)) }

  lemma RawAddressBound(s: string)
    requires IsHexAddress(s)
    ensures HexToAddress(s) < Pow16(40)
  {
    HexBound(Strip0x(s));
  }

  /** Equal keys are exactly clashes. */
  lemma KeysFindClashes(a: RawRoute, b: RawRoute)
    requires WellFormed(a) && WellFormed(b)
    ensures Clash(RouteOf(a), RouteOf(b)) <==>
            TokenKey(RouteOf(a)) == TokenKey(RouteOf(b)) || SymbolKey(RouteOf(a)) == SymbolKey(RouteOf(b))
  {
    hide RouteKey, Pow16, HexToAddress, IsHexAddress, AddressText;
    var x, y := RouteOf(a), RouteOf(b);
    RawAddressBound(a.srcToken);
    RawAddressBound(b.srcToken);
    RouteKeyInjective(x.srcId, x.targetId, AddressText(x.srcToken), y.srcId, y.targetId, AddressText(y.srcToken));
    RouteKeyInjective(x.srcId, x.targetId, Text.ToLower(x.symbol), y.srcId, y.targetId, Text.ToLower(y.symbol));
    Text.ToLowerIdempotent(x.symbol);
    Text.ToLowerIdempotent(y.symbol);
    if Text.ToLower(AddressText(x.srcToken)) == Text.ToLower(AddressText(y.srcToken)) {
      AddressTextInjective(x.srcToken, y.srcToken);
    }
  }

  ghost predicate KeysSeen(raws: seq<RawRoute>, tokens: set<string>, symbols: set<string>)
    requires forall i :: 0 <= i < |raws| ==> WellFormed(raws[i])
  {
    && (forall k :: k in tokens <==> exists i :: 0 <= i < |raws| && TokenKey(RouteOf(raws[i])) == k)
    && (forall k :: k in symbols <==> exists i :: 0 <= i < |raws| && SymbolKey(RouteOf(raws[i])) == k)
  }

  /** `newRegistry`: fails at the first route that is malformed or clashes with an earlier one. */
  method NewRegistry(raws: seq<RawRoute>) returns (r: Result<Registry, nat>)
    ensures r.Ok? <==> Acceptable(raws)
    ensures r.Ok? ==> r.value == Registry(RoutesOf(raws), NamesOf(raws))
    ensures r.Err? ==> r.error < |raws| && Acceptable(raws[..r.error]) && !Acceptable(raws[..r.error + 1])
  {
    hide TokenKey, SymbolKey, WellFormed, RouteOf, Learn;
    var routes: seq<Route>, names := [], Names(map[], map[]);
    var seenToken: set<string>, seenSymbol: set<string> := {}, {};
    for i := 0 to |raws|
      invariant Acceptable(raws[..i]) && routes == RoutesOf(raws[..i]) && names == NamesOf(raws[..i])
      invariant KeysSeen(raws[..i], seenToken, seenSymbol)
    {
      var raw := raws[i];
      var done, more := raws[..i], raws[..i + 1];
      assert more == done + [raw] && more[..i] == done;
      if !WellFormed(raw) {
        assert more[i] == raw;
        NotAcceptable(raws, i + 1);
        return Err(i);
      }
      var route := RouteOf(raw);
      var tokenKey, symbolKey := TokenKey(route), SymbolKey(route);
      ClashCheck(done, raw, seenToken, seenSymbol);
      if tokenKey in seenToken || symbolKey in seenSymbol {
        NotAcceptable(raws, i + 1);
        return Err(i);
      }
      seenToken, seenSymbol := seenToken + {tokenKey}, seenSymbol + {symbolKey};
      routes := routes + [route];
      names := Learn(Learn(names, raw.srcChain, raw.srcId), raw.targetChain, raw.targetId);
    }
    assert raws[..|raws|] == raws;
    r := Ok(Registry(routes, names));
  }

  lemma NotAcceptable(raws: seq<RawRoute>, n: nat)
    requires n <= |raws| && !Acceptable(raws[..n])
    ensures !Acceptable(raws)
  {
    hide WellFormed, Clash, RouteOf;
    assert forall i :: 0 <= i < n ==> raws[..n][i] == raws[i];
  }

  /** A new route keeps the file acceptable exactly when neither of its keys has been seen. */
  lemma ClashCheck(done: seq<RawRoute>, raw: RawRoute, tokens: set<string>, symbols: set<string>)
    requires Acceptable(done) && WellFormed(raw) && KeysSeen(done, tokens, symbols)
    ensures Acceptable(done + [raw]) <==> TokenKey(RouteOf(raw)) !in tokens && SymbolKey(RouteOf(raw)) !in symbols
    ensures KeysSeen(done + [raw], tokens + {TokenKey(RouteOf(raw))}, symbols + {SymbolKey(RouteOf(raw))})
  {
    hide TokenKey, SymbolKey, WellFormed, RouteOf, Clash;
    var all := done + [raw];
    forall i | 0 <= i < |done|
      ensures Clash(RouteOf(done[i]), RouteOf(raw)) <==>
              || TokenKey(RouteOf(done[i])) == TokenKey(RouteOf(raw))
              || SymbolKey(RouteOf(done[i])) == SymbolKey(RouteOf(raw))
    {
      KeysFindClashes(done[i], raw);
    }
    AcceptableSnoc(done, raw);
    KeysSeenSnoc(done, raw, tokens, symbols);
  }

  lemma AcceptableSnoc(done: seq<RawRoute>, raw: RawRoute)
    requires Acceptable(done) && WellFormed(raw)
    ensures Acceptable(done + [raw]) <==> forall i :: 0 <= i < |done| ==> !Clash(RouteOf(done[i]), RouteOf(raw))
  {
    hide WellFormed, RouteOf, Clash;
    var all := done + [raw];
    assert forall i :: 0 <= i < |done| ==> all[i] == done[i];
    assert all[|done|] == raw;
  }

  lemma KeysSeenSnoc(done: seq<RawRoute>, raw: RawRoute, tokens: set<string>, symbols: set<string>)
    requires (forall i :: 0 <= i < |done| ==> WellFormed(done[i])) && WellFormed(raw) && KeysSeen(done, tokens, symbols)
    ensures KeysSeen(done + [raw], tokens + {TokenKey(RouteOf(raw))}, symbols + {SymbolKey(RouteOf(raw))})
  {
    hide TokenKey, SymbolKey, WellFormed, RouteOf;
    var all := done + [raw];
    assert forall i :: 0 <= i < |done| ==> all[i] == done[i];
    assert all[|done|] == raw;
  }

  // ---- Lookup ----------------------------------------------------------------------------------

  predicate InLeg(r: Route, src: nat, target: nat) { r.srcId == src && r.targetId == target }

  datatype Query = Native | ByAddress(address: nat) | BySymbol(lower: string)

  /** How a token argument is read: empty or "native", then an address, then a symbol. */
  function ReadQuery(text: string): Query {
    var q := Text.TrimSpace(text);
    if Text.ToLower(q) == "" || Text.ToLower(q) == "native" then Native
    else if IsHexAddress(q) then ByAddress(HexToAddress(q))
    else BySymbol(Text.ToLower(q))
  }

  predicate Matches(r: Route, q: Query) {
    match q
    case Native => r.srcToken == 0
    case ByAddress(a) => r.srcToken == a
    case BySymbol(s) => Text.ToLower(r.symbol) == s
  }

  datatype LookupError = NoRoutes | NotBridgeable(query: Query)

  function FirstMatch(routes: seq<Route>, q: Query): Option<Route> {
    if routes == [] then None else if Matches(routes[0], q) then Some(routes[0]) else FirstMatch(routes[1..], q)
  }

  function Leg(routes: seq<Route>, src: nat, target: nat): seq<Route> {
    if routes == [] then []
    else
      var last := routes[|routes| - 1];
      Leg(routes[..|routes| - 1], src, target) + if InLeg(last, src, target) then [last] else []
  }

  method RoutesFor(routes: seq<Route>, src: nat, target: nat) returns (out: seq<Route>)
    ensures out == Leg(routes, src, target)
  {
    out := [];
    for i := 0 to |routes|
      invariant out == Leg(routes[..i], src, target)
    {
      assert routes[..i + 1][..i] == routes[..i];
      if routes[i].srcId == src && routes[i].targetId == target { out := out + [routes[i]]; }
    }
    assert routes[..|routes|] == routes;
  }

  function Lookup(routes: seq<Route>, src: nat, target: nat, text: string): Result<Route, LookupError> {
    var leg, q := Leg(routes, src, target), ReadQuery(text);
    if leg == [] then Err(NoRoutes)
    else if FirstMatch(leg, q).Some? then Ok(FirstMatch(leg, q).value)
    else Err(NotBridgeable(q))
  }

  lemma {:induction false} LegMembers(routes: seq<Route>, src: nat, target: nat)
    ensures forall r :: r in Leg(routes, src, target) <==> r in routes && InLeg(r, src, target)
  {
    hide InLeg;
    if routes != [] {
      var n := |routes| - 1;
      assert routes == routes[..n] + [routes[n]];
      LegMembers(routes[..n], src, target);
    }
  }

  lemma {:induction false} FirstMatchIn(routes: seq<Route>, q: Query)
    ensures FirstMatch(routes, q).Some? ==>
            FirstMatch(routes, q).value in routes && Matches(FirstMatch(routes, q).value, q)
    ensures FirstMatch(routes, q).None? ==> forall r :: r in routes ==> !Matches(r, q)
  {
    hide Matches;
    if routes != [] {
      FirstMatchIn(routes[1..], q);
      assert routes == [routes[0]] + routes[1..];
    }
  }

  /** Unambiguous: in an accepted file no two routes of one leg answer the same query. */
  lemma OneMatchPerQuery(raws: seq<RawRoute>, a: Route, b: Route, src: nat, target: nat, q: Query)
    requires Acceptable(raws) && a in RoutesOf(raws) && b in RoutesOf(raws)
    requires InLeg(a, src, target) && InLeg(b, src, target) && Matches(a, q) && Matches(b, q)
    ensures a == b
  {
    hide WellFormed, RouteOf;
    var i :| 0 <= i < |raws| && RoutesOf(raws)[i] == a;
    var j :| 0 <= j < |raws| && RoutesOf(raws)[j] == b;
    ClashingIsSame(raws, i, j);
  }

  lemma ClashingIsSame(raws: seq<RawRoute>, i: nat, j: nat)
    requires Acceptable(raws) && i < |raws| && j < |raws| && Clash(RouteOf(raws[i]), RouteOf(raws[j]))
    ensures i == j
  {
    hide WellFormed, RouteOf;
    assert Clash(RouteOf(raws[j]), RouteOf(raws[i]));
  }

  /** So a lookup does not depend on which match comes first: it finds exactly the route that matches. */
  lemma LookupFindsTheMatch(raws: seq<RawRoute>, src: nat, target: nat, text: string, r: Route)
    requires Acceptable(raws)
    ensures Lookup(RoutesOf(raws), src, target, text) == Ok(r) <==>
            r in RoutesOf(raws) && InLeg(r, src, target) && Matches(r, ReadQuery(text))
    ensures Lookup(RoutesOf(raws), src, target, text) == Err(NoRoutes) <==>
            forall x :: x in RoutesOf(raws) ==> !InLeg(x, src, target)
  {
    hide ReadQuery, Matches, InLeg, Acceptable, Leg, RoutesOf;
    AcceptableRoutes(raws);
    var routes, q := RoutesOf(raws), ReadQuery(text);
    var leg := Leg(routes, src, target);
    LegMembers(routes, src, target);
    FirstMatchIn(leg, q);
    assert leg != [] ==> leg[0] in leg;
    if r in routes && InLeg(r, src, target) && Matches(r, q) {
      OneMatchPerQuery(raws, r, FirstMatch(leg, q).value, src, target, q);
    }
  }

  lemma AcceptableRoutes(raws: seq<RawRoute>)
    requires Acceptable(raws)
    ensures forall i :: 0 <= i < |raws| ==> WellFormed(raws[i])
  {
  }

  // ---- Reach ------------------------------------------------------------------------------------

  predicate Alike(c: char, d: char) {
    && (Text.IsSpace(c) <==> Text.IsSpace(d)) && (IsHexDigit(c) <==> IsHexDigit(d)) && (c == '0' <==> d == '0')
    && (c == 'x' || c == 'X' <==> d == 'x' || d == 'X')
  }

  lemma FoldChar(c: char, d: char)
    requires Text.LowerChar(c) == Text.LowerChar(d)
    ensures Alike(c, d)
  {
  }

  lemma FoldAlike(a: string, b: string)
    requires Text.ToLower(a) == Text.ToLower(b)
    ensures |a| == |b| && forall i :: 0 <= i < |a| ==> Alike(a[i], b[i])
  {
    hide Alike, Text.LowerChar;
    assert |a| == |Text.ToLower(a)| == |b|;
    forall i | 0 <= i < |a| ensures Alike(a[i], b[i]) {
      assert Text.ToLower(a)[i] == Text.LowerChar(a[i]) && Text.ToLower(b)[i] == Text.LowerChar(b[i]);
      FoldChar(a[i], b[i]);
    }
  }

  lemma FoldKeepsAddress(a: string, b: string)
    requires Text.ToLower(a) == Text.ToLower(b)
    ensures IsHexAddress(a) <==> IsHexAddress(b)
  {
    hide Text.IsSpace, IsHexDigit, Text.ToLower;
    FoldAlike(a, b);
    var p, q := Strip0x(a), Strip0x(b);
    var d := |a| - |p|;
    assert |q| == |p| && p == a[d..] && q == b[d..];
    assert forall i :: 0 <= i < |p| ==> Alike(a[i + d], b[i + d]) && p[i] == a[i + d] && q[i] == b[i + d];
  }

  lemma FoldKeepsTrimmed(a: string, b: string)
    requires Text.ToLower(a) == Text.ToLower(b) && Text.TrimSpace(a) == a
    ensures Text.TrimSpace(b) == b
  {
    hide Text.IsSpace, IsHexDigit, Text.ToLower, Text.TrimSpace;
    FoldAlike(a, b);
    Text.TrimmedIff(a);
    Text.TrimmedIff(b);
  }

  /** The symbol means itself when it is typed in. */
  predicate Typeable(symbol: string) {
    Text.TrimSpace(symbol) == symbol && Text.ToLower(symbol) != "native" && !IsHexAddress(symbol)
  }

  ghost predicate FoundBySymbol(raws: seq<RawRoute>, r: Route, text: string)
    requires Acceptable(raws)
  {
    ReadQuery(text).BySymbol? && Lookup(RoutesOf(raws), r.srcId, r.targetId, text) == Ok(r)
  }

  /** An accepted route can be reached by a symbol if and only if its own is trimmed, is not "native" and does not
      read as an address: symbols are stored as they stand in the file while queries are trimmed. */
  lemma ReachedBySymbolIff(raws: seq<RawRoute>, r: Route)
    requires Acceptable(raws) && r in RoutesOf(raws)
    ensures (exists text :: FoundBySymbol(raws, r, text)) <==> Typeable(r.symbol)
  {
    hide Acceptable, Lookup, IsHexAddress, RoutesOf;
    SymbolNotEmpty(raws, r);
    if text :| FoundBySymbol(raws, r, text) {
      LookupFindsTheMatch(raws, r.srcId, r.targetId, text, r);
      var q := Text.TrimSpace(text);
      Text.TrimSpaceTrims(text);
      FoldKeepsAddress(q, r.symbol);
      FoldKeepsTrimmed(q, r.symbol);
    }
    if Typeable(r.symbol) {
      LookupFindsTheMatch(raws, r.srcId, r.targetId, r.symbol, r);
      assert FoundBySymbol(raws, r, r.symbol);
    }
  }

  lemma SymbolNotEmpty(raws: seq<RawRoute>, r: Route)
    requires Acceptable(raws) && r in RoutesOf(raws)
    ensures r.symbol != ""
  {
    hide IsHexAddress, HexToAddress, Clash;
    var i :| 0 <= i < |raws| && RoutesOf(raws)[i] == r;
    assert WellFormed(raws[i]);
  }

  /** Such files load: a route whose symbol begins with a space is accepted, and no symbol finds it. */
  lemma UnreachableRoute(id: nat, target: nat) returns (raw: RawRoute)
    requires id != 0 && target != 0
    ensures Acceptable([raw]) && WellFormed(raw) && !exists text :: FoundBySymbol([raw], RouteOf(raw), text)
  {
    raw := RawRoute("", id, "", target, AddressText(0), AddressText(0), " usdc", 6);
    AddressTextIsAddress(0);
    hide IsHexAddress, HexToAddress, AddressText, Lookup, ReadQuery;
    assert Text.TrimSpace(" usdc") == "usdc" by { SpacedSymbol(); }
    assert Acceptable([raw]) && RoutesOf([raw])[0] == RouteOf(raw);
    ReachedBySymbolIff([raw], RouteOf(raw));
  }

  lemma SpacedSymbol()
    ensures Text.TrimSpace(" usdc") == "usdc"
  {
    assert " usdc"[1..] == "usdc";
    Text.TrimSpaceKeeps("usdc");
  }

  // ---- From the file's own text -------------------------------------------------------------------

  /** An address is forty hex digits, with or without 0x. */
  lemma HexAddressIff(s: string)
    ensures IsHexAddress(s) <==>
            var h := if |s| >= 2 && (s[..2] == "0x" || s[..2] == "0X") then s[2..] else s;
            |h| == 40 && forall i :: 0 <= i < 40 ==> h[i] in "0123456789abcdefABCDEF"
  {
    assert |s| >= 2 ==> (s[..2] == "0x" <==> s[0] == '0' && s[1] == 'x');
    assert |s| >= 2 ==> (s[..2] == "0X" <==> s[0] == '0' && s[1] == 'X');
    forall c: char ensures c in "0123456789abcdefABCDEF" <==> IsHexDigit(c) { HexDigitIff(c); }
  }

  lemma HexDigitIff(c: char)
    ensures c in "0123456789abcdefABCDEF" <==> IsHexDigit(c)
  {
    var t := "0123456789abcdefABCDEF";
    assert forall i :: 0 <= i < |t| ==> IsHexDigit(t[i]);
    if '0' <= c <= '9' { assert t[c as int - '0' as int] == c; }
    if 'a' <= c <= 'f' { assert t[10 + (c as int - 'a' as int)] == c; }
    if 'A' <= c <= 'F' { assert t[16 + (c as int - 'A' as int)] == c; }
  }

  /** The number an address text stands for: the case of its letters does not matter, and the text of a number stands
      for that number. */
  lemma HexToAddressReads(a: string, b: string, n: nat)
    requires IsHexAddress(a) && Text.ToLower(a) == Text.ToLower(b) && n < Pow16(40)
    ensures IsHexAddress(b) && HexToAddress(a) == HexToAddress(b)
    ensures IsHexAddress(AddressText(n)) && HexToAddress(AddressText(n)) == n
  {
    hide Pow16, HexValue, IsHexDigit;
    FoldKeepsAddress(a, b);
    FoldAlike(a, b);
    assert Strip0x(AddressText(n)) == HexDigits(n, 40);
    HexRoundTrip(n, 40);
    FoldKeepsValue(a, b);
  }

  lemma FoldKeepsValue(a: string, b: string)
    requires IsHexAddress(a) && IsHexAddress(b) && Text.ToLower(a) == Text.ToLower(b)
    ensures HexToAddress(a) == HexToAddress(b)
  {
    hide IsHexDigit, HexValue, HexDigitValue;
    FoldAlike(a, b);
    var p, q := Strip0x(a), Strip0x(b);
    var d := |a| - |p|;
    assert p == a[d..] && q == b[d..];
    forall i | 0 <= i < 40 ensures HexDigitValue(p[i]) == HexDigitValue(q[i]) {
      assert Text.ToLower(a)[i + d] == Text.LowerChar(a[i + d]) && Text.ToLower(b)[i + d] == Text.LowerChar(b[i + d]);
      SameDigit(p[i], q[i]);
    }
    SameDigits(p, q);
  }

  lemma SameDigit(c: char, d: char)
    requires IsHexDigit(c) && IsHexDigit(d) && Text.LowerChar(c) == Text.LowerChar(d)
    ensures HexDigitValue(c) == HexDigitValue(d)
  {
  }

  lemma {:induction false} SameDigits(p: string, q: string)
    requires AllHex(p) && AllHex(q) && |p| == |q|
    requires forall i :: 0 <= i < |p| ==> HexDigitValue(p[i]) == HexDigitValue(q[i])
    ensures HexValue(p) == HexValue(q)
  {
    hide HexDigitValue, IsHexDigit;
    if p != [] { SameDigits(p[..|p| - 1], q[..|q| - 1]); }
  }

  /** Which single routes load. */
  lemma SingleRouteLoadsIff(r: RawRoute)
    ensures Acceptable([r]) <==>
            && r.srcId != 0 && r.targetId != 0 && IsHexAddress(r.srcToken) && IsHexAddress(r.targetToken)
            && !(forall i :: 0 <= i < |r.symbol| ==> Text.IsSpace(r.symbol[i]))
            && 0 <= r.decimals <= 77
  {
    hide IsHexAddress, HexToAddress, Text.TrimSpace;
    BlankIff(r.symbol);
    assert [r][0] == r && forall i :: 0 <= i < |[r]| ==> [r][i] == r;
    assert Acceptable([r]) ==> WellFormed([r][0]);
  }

  lemma {:induction false} BlankIff(s: string)
    ensures Text.TrimSpace(s) == "" <==> forall i :: 0 <= i < |s| ==> Text.IsSpace(s[i])
    decreases |s|
  {
    hide Text.IsSpace;
    if s != [] {
      if Text.IsSpace(s[0]) {
        BlankIff(s[1..]);
        assert forall i :: 0 < i < |s| ==> s[i] == s[1..][i - 1];
      } else if Text.IsSpace(s[|s| - 1]) {
        BlankIff(s[..|s| - 1]);
        assert s[0] == s[..|s| - 1][0];
      }
    }
  }

  /** Every route of a file that loads is found by the source token as the file writes it, and carries the file's
      target token, symbol, decimals and target chain. */
  lemma FoundByItsToken(raws: seq<RawRoute>, i: nat)
    requires Acceptable(raws) && i < |raws|
    ensures var raw := raws[i];
            && WellFormed(raw)
            && Lookup(RoutesOf(raws), raw.srcId, raw.targetId, raw.srcToken) == Ok(Route(
                 raw.srcId, raw.targetId, raw.targetChain,
                 HexToAddress(raw.srcToken), HexToAddress(raw.targetToken), raw.symbol, raw.decimals))
  {
    hide HexToAddress, IsHexAddress, Lookup;
    var raw := raws[i];
    assert RoutesOf(raws)[i] == RouteOf(raw);
    AddressQuery(raw.srcToken);
    LookupFindsTheMatch(raws, raw.srcId, raw.targetId, raw.srcToken, RouteOf(raw));
  }

  lemma AddressQuery(s: string)
    requires IsHexAddress(s)
    ensures ReadQuery(s) == ByAddress(HexToAddress(s))
  {
    hide HexToAddress;
    assert !Text.IsSpace(s[0]) && !Text.IsSpace(s[|s| - 1]) by {
      var h := Strip0x(s);
      assert IsHexDigit(h[39]) && s[|s| - 1] == h[39] && (s[0] == '0' || IsHexDigit(s[0]));
    }
    Text.TrimSpaceKeeps(s);
    assert |Text.ToLower(s)| == |s| >= 40;
  }

  /** The native coin is asked for by nothing or by its name, and found exactly where the source token is zero. */
  lemma NativeIsFound(raws: seq<RawRoute>, src: nat, target: nat, text: string, r: Route)
    requires Acceptable(raws) && (text == "" || Text.ToLower(text) == "native")
    ensures Lookup(RoutesOf(raws), src, target, text) == Ok(r) <==>
            r in RoutesOf(raws) && r.srcId == src && r.targetId == target && r.srcToken == 0
  {
    hide Lookup, RoutesOf, Acceptable;
    NativeQuery(text);
    LookupFindsTheMatch(raws, src, target, text, r);
  }

  lemma NativeQuery(text: string)
    requires text == "" || Text.ToLower(text) == "native"
    ensures ReadQuery(text) == Native
  {
    if text != "" {
      assert Text.ToLower(text)[0] == 'n' && Text.ToLower(text)[5] == 'e';
      assert Text.LowerChar(text[0]) == 'n' && Text.LowerChar(text[5]) == 'e';
      Text.TrimSpaceKeeps(text);
    }
  }

  // ---- Order ------------------------------------------------------------------------------------

  predicate Permutation(a: seq<RawRoute>, b: seq<RawRoute>) { multiset(a) == multiset(b) }

  lemma SameMembers(a: seq<RawRoute>, b: seq<RawRoute>)
    requires Permutation(a, b)
    ensures forall x :: x in a <==> x in b
  {
    assert forall x :: x in a <==> x in multiset(a);
  }

  lemma CountsTwice(s: seq<RawRoute>, i: nat, j: nat)
    requires i < j < |s| && s[i] == s[j]
    ensures multiset(s)[s[i]] >= 2
  {
    assert s == s[..j] + [s[j]] + s[j + 1..];
    assert s[..j][i] == s[i] && s[i] in multiset(s[..j]);
  }

  lemma {:induction false} DistinctCounts(s: seq<RawRoute>)
    requires forall i, j :: 0 <= i < j < |s| ==> s[i] != s[j]
    ensures forall x :: x in s ==> multiset(s)[x] == 1
  {
    if s != [] {
      var n := |s| - 1;
      DistinctCounts(s[..n]);
      assert s == s[..n] + [s[n]];
      assert s[n] !in s[..n];
    }
  }

  /** Acceptance in terms that do not mention order. */
  ghost predicate AcceptableAsSet(raws: seq<RawRoute>) {
    && (forall r :: r in raws ==> WellFormed(r) && multiset(raws)[r] == 1)
    && (forall r, t :: r in raws && t in raws && r != t ==> !Clash(RouteOf(r), RouteOf(t)))
  }

  lemma AcceptanceIgnoresOrder(raws: seq<RawRoute>)
    ensures Acceptable(raws) <==> AcceptableAsSet(raws)
  {
    hide WellFormed, RouteOf;
    if Acceptable(raws) {
      forall i, j | 0 <= i < j < |raws| ensures raws[i] != raws[j] {
        assert !Clash(RouteOf(raws[i]), RouteOf(raws[j]));
      }
      DistinctCounts(raws);
      forall r, t | r in raws && t in raws && r != t ensures !Clash(RouteOf(r), RouteOf(t)) {
        var i :| 0 <= i < |raws| && raws[i] == r;
        var j :| 0 <= j < |raws| && raws[j] == t;
        assert if i < j then !Clash(RouteOf(raws[i]), RouteOf(raws[j])) else !Clash(RouteOf(raws[j]), RouteOf(raws[i]));
      }
    }
    if AcceptableAsSet(raws) {
      forall i, j | 0 <= i < j < |raws| ensures !Clash(RouteOf(raws[i]), RouteOf(raws[j])) {
        if raws[i] == raws[j] { CountsTwice(raws, i, j); }
      }
    }
  }

  lemma RouteMembers(raws: seq<RawRoute>, x: Route)
    requires Acceptable(raws)
    ensures x in RoutesOf(raws) <==> exists r :: r in raws && WellFormed(r) && RouteOf(r) == x
  {
    hide WellFormed, RouteOf, Clash;
    if x in RoutesOf(raws) {
      var i :| 0 <= i < |raws| && RoutesOf(raws)[i] == x;
      assert raws[i] in raws && WellFormed(raws[i]) && RouteOf(raws[i]) == x;
    }
    if r :| r in raws && WellFormed(r) && RouteOf(r) == x {
      var i :| 0 <= i < |raws| && raws[i] == r;
      assert RoutesOf(raws)[i] == x;
    }
  }

  /** Order-free routing: permuting the file changes neither whether it loads nor the answer to any lookup. */
  lemma OrderDoesNotMatter(a: seq<RawRoute>, b: seq<RawRoute>, src: nat, target: nat, text: string)
    requires Permutation(a, b)
    ensures Acceptable(a) <==> Acceptable(b)
    ensures Acceptable(a) ==> Lookup(RoutesOf(a), src, target, text) == Lookup(RoutesOf(b), src, target, text)
  {
    hide WellFormed, RouteOf, Clash, RoutesOf, Lookup, Acceptable, Matches, InLeg, ReadQuery;
    AcceptanceIgnoresOrder(a);
    AcceptanceIgnoresOrder(b);
    SameMembers(a, b);
    if Acceptable(a) {
      AcceptableRoutes(a);
      AcceptableRoutes(b);
      forall x ensures x in RoutesOf(a) <==> x in RoutesOf(b) {
        RouteMembers(a, x);
        RouteMembers(b, x);
      }
      SameRoutesSameLookup(a, b, src, target, text);
    }
  }

  lemma SameRoutesSameLookup(a: seq<RawRoute>, b: seq<RawRoute>, src: nat, target: nat, text: string)
    requires Acceptable(a) && Acceptable(b)
    requires forall x :: x in RoutesOf(a) <==> x in RoutesOf(b)
    ensures Lookup(RoutesOf(a), src, target, text) == Lookup(RoutesOf(b), src, target, text)
  {
    var x, y := Lookup(RoutesOf(a), src, target, text), Lookup(RoutesOf(b), src, target, text);
    LookupShape(RoutesOf(a), src, target, text);
    LookupShape(RoutesOf(b), src, target, text);
    hide WellFormed, RouteOf, Clash, RoutesOf, Lookup, Acceptable, Matches, InLeg, ReadQuery;
    forall r ensures x == Ok(r) <==> y == Ok(r) {
      LookupFindsTheMatch(a, src, target, text, r);
      LookupFindsTheMatch(b, src, target, text, r);
    }
    var any: Route := Route(0, 0, "", 0, 0, "", 0);
    LookupFindsTheMatch(a, src, target, text, any);
    LookupFindsTheMatch(b, src, target, text, any);
    if x.Ok? { assert x == Ok(x.value); }
    if y.Ok? { assert y == Ok(y.value); }
  }

  lemma LookupShape(routes: seq<Route>, src: nat, target: nat, text: string)
    ensures var x := Lookup(routes, src, target, text);
            x.Ok? || x == Err(NoRoutes) || x == Err(NotBridgeable(ReadQuery(text)))
  {
  }

  // ---- Resolving chains ----------------------------------------------------------------------------

  /** `strconv.ParseUint(q, 10, 64)`. */
  function ParseUint(q: string): Option<nat> {
    if q != "" && AllDigits(q) && Value(q) <= MAX_UINT64 then Some(Value(q)) else None
  }

  datatype ChainError = Required | UnknownChain | SameChain | NoBridgeRoute

  function ChainId(names: Names, q: string): Option<nat> {
    if ParseUint(q).Some? then ParseUint(q)
    else if Text.ToLower(q) in names.nameToId then Some(names.nameToId[Text.ToLower(q)]) else None
  }

  /** `resolveChain`: `inbound` looks for a source into `fixed`, otherwise for a destination out of it. */
  function ResolveChain(reg: Registry, query: string, fixed: nat, inbound: bool): Result<nat, ChainError> {
    var q := Text.TrimSpace(query);
    if q == "" then Err(Required)
    else if ChainId(reg.names, q).None? then Err(UnknownChain)
    else
      var id := ChainId(reg.names, q).value;
      if id == fixed then Err(SameChain)
      else if (if inbound then Leg(reg.routes, id, fixed) else Leg(reg.routes, fixed, id)) == [] then Err(NoBridgeRoute)
      else Ok(id)
  }

  datatype ChainRef = ChainRef(name: string, id: nat)

  /** The far end of a route, if it touches `fixed` on the near side. */
  function FarEnd(r: Route, fixed: nat, inbound: bool): Option<nat> {
    if inbound then (if r.targetId == fixed then Some(r.srcId) else None)
    else if r.srcId == fixed then Some(r.targetId) else None
  }

  function Insert(c: ChainRef, s: seq<ChainRef>): seq<ChainRef> {
    if s == [] || c.id < s[0].id then [c] + s else [s[0]] + Insert(c, s[1..])
  }

  /** `sort.Slice` by id. */
  function SortById(s: seq<ChainRef>): seq<ChainRef> {
    if s == [] then [] else Insert(s[|s| - 1], SortById(s[..|s| - 1]))
  }

  predicate StrictlySorted(s: seq<ChainRef>) { forall i, j :: 0 <= i < j < |s| ==> s[i].id < s[j].id }

  predicate HasId(s: seq<ChainRef>, id: nat) { exists i :: 0 <= i < |s| && s[i].id == id }

  lemma {:induction false} InsertMembers(c: ChainRef, s: seq<ChainRef>)
    ensures multiset(Insert(c, s)) == multiset(s) + multiset{c}
  {
    if s != [] && c.id >= s[0].id {
      var rest := s[1..];
      InsertMembers(c, rest);
      assert s == [s[0]] + rest;
      assert multiset(Insert(c, s)) == multiset{s[0]} + (multiset(rest) + multiset{c});
    }
  }

  predicate AllAbove(s: seq<ChainRef>, id: nat) { forall i :: 0 <= i < |s| ==> id < s[i].id }

  lemma {:induction false} InsertAbove(c: ChainRef, s: seq<ChainRef>, id: nat)
    requires AllAbove(s, id) && id < c.id
    ensures AllAbove(Insert(c, s), id)
  {
    if s != [] && c.id >= s[0].id { InsertAbove(c, s[1..], id); }
  }

  lemma {:induction false} InsertSorted(c: ChainRef, s: seq<ChainRef>)
    requires StrictlySorted(s) && forall i :: 0 <= i < |s| ==> s[i].id != c.id
    ensures StrictlySorted(Insert(c, s))
  {
    if s != [] && c.id >= s[0].id {
      InsertSorted(c, s[1..]);
      InsertAbove(c, s[1..], s[0].id);
    }
  }

  predicate DistinctIds(s: seq<ChainRef>) { forall i, j :: 0 <= i < j < |s| ==> s[i].id != s[j].id }

  lemma {:induction false} SortSorts(s: seq<ChainRef>)
    requires DistinctIds(s)
    ensures StrictlySorted(SortById(s)) && multiset(SortById(s)) == multiset(s)
  {
    if s != [] {
      var n := |s| - 1;
      var init := s[..n];
      SortSorts(init);
      assert s == init + [s[n]];
      var sorted := SortById(init);
      forall i | 0 <= i < |sorted| ensures sorted[i].id != s[n].id {
        assert sorted[i] in multiset(sorted);
        assert sorted[i] in init;
      }
      InsertSorted(s[n], sorted);
      InsertMembers(s[n], sorted);
    }
  }

  /** What the availability list must be: strictly sorted, one entry per reachable chain, nothing else. */
  ghost predicate Lists(out: seq<ChainRef>, reg: Registry, fixed: nat, inbound: bool) {
    && StrictlySorted(out)
    && (forall id: nat :: HasId(out, id) <==> exists r :: r in reg.routes && FarEnd(r, fixed, inbound) == Some(id))
    && (forall i :: 0 <= i < |out| ==> out[i].name == GetOr(reg.names.idToName, out[i].id, ""))
  }

  /** `AvailableTargets` (outbound) and `AvailableSources` (inbound). */
  method Available(reg: Registry, fixed: nat, inbound: bool) returns (out: seq<ChainRef>)
    ensures Lists(out, reg, fixed, inbound)
  {
    hide FarEnd, SortById;
    var seen: set<nat> := {};
    var found: seq<ChainRef> := [];
    for i := 0 to |reg.routes|
      invariant Collected(found, seen, reg, reg.routes[..i], fixed, inbound)
    {
      var far := FarEnd(reg.routes[i], fixed, inbound);
      assert reg.routes[..i + 1] == reg.routes[..i] + [reg.routes[i]];
      CollectNext(found, seen, reg, reg.routes[..i], reg.routes[i], fixed, inbound);
      if far.Some? && far.value !in seen {
        seen := seen + {far.value};
        var name := if far.value in reg.names.idToName then reg.names.idToName[far.value] else "";
        found := found + [ChainRef(name, far.value)];
      }
    }
    assert reg.routes[..|reg.routes|] == reg.routes;
    SortSorts(found);
    out := SortById(found);
    SortedLists(found, out, seen, reg, fixed, inbound);
  }

  /** The unsorted list after looking at `done`. */
  ghost predicate Collected(
    found: seq<ChainRef>, seen: set<nat>, reg: Registry, done: seq<Route>, fixed: nat, inbound: bool) {
    && DistinctIds(found)
    && (forall id: nat :: id in seen <==> HasId(found, id))
    && (forall id: nat :: id in seen <==> exists r :: r in done && FarEnd(r, fixed, inbound) == Some(id))
    && (forall i :: 0 <= i < |found| ==> found[i].name == GetOr(reg.names.idToName, found[i].id, ""))
  }

  lemma CollectNext(
    found: seq<ChainRef>, seen: set<nat>, reg: Registry, done: seq<Route>, r: Route, fixed: nat, inbound: bool)
    requires Collected(found, seen, reg, done, fixed, inbound)
    ensures var far := FarEnd(r, fixed, inbound);
            if far.Some? && far.value !in seen
            then Collected(found + [ChainRef(GetOr(reg.names.idToName, far.value, ""), far.value)], seen + {far.value},
                           reg, done + [r], fixed, inbound)
            else Collected(found, seen, reg, done + [r], fixed, inbound)
  {
    hide FarEnd;
    var far, all := FarEnd(r, fixed, inbound), done + [r];
    forall id: nat
      ensures (exists x :: x in all && FarEnd(x, fixed, inbound) == Some(id)) <==> id in seen || far == Some(id)
    {
      if x :| x in all && FarEnd(x, fixed, inbound) == Some(id) { assert x in done || x == r; }
      if id in seen {
        var x :| x in done && FarEnd(x, fixed, inbound) == Some(id);
        assert x in all;
      }
      assert r in all;
    }
    if far.Some? && far.value !in seen {
      var c := ChainRef(GetOr(reg.names.idToName, far.value, ""), far.value);
      HasIdSnoc(found, c);
    }
  }

  lemma HasIdSnoc(found: seq<ChainRef>, c: ChainRef)
    ensures forall id: nat :: HasId(found + [c], id) <==> HasId(found, id) || id == c.id
    ensures DistinctIds(found) && !HasId(found, c.id) ==> DistinctIds(found + [c])
  {
    var all := found + [c];
    assert forall i :: 0 <= i < |found| ==> all[i] == found[i];
    assert all[|found|] == c;
  }

  lemma SortedLists(
    found: seq<ChainRef>, out: seq<ChainRef>, seen: set<nat>, reg: Registry, fixed: nat, inbound: bool)
    requires Collected(found, seen, reg, reg.routes, fixed, inbound)
    requires StrictlySorted(out) && multiset(out) == multiset(found)
    ensures Lists(out, reg, fixed, inbound)
  {
    hide FarEnd;
    assert forall c :: c in out <==> c in multiset(out);
    assert forall c :: c in found <==> c in multiset(found);
    forall id: nat ensures HasId(out, id) <==> HasId(found, id) {
      if HasId(out, id) {
        var i :| 0 <= i < |out| && out[i].id == id;
        assert out[i] in found;
      }
      if HasId(found, id) {
        var i :| 0 <= i < |found| && found[i].id == id;
        assert found[i] in out;
      }
    }
    forall i | 0 <= i < |out| ensures out[i].name == GetOr(reg.names.idToName, out[i].id, "") {
      assert out[i] in found;
    }
  }

  /** Every id that resolves has a route on its leg and is in the availability list. */
  lemma ResolvedIsAvailable(reg: Registry, query: string, fixed: nat, inbound: bool, id: nat, out: seq<ChainRef>)
    requires ResolveChain(reg, query, fixed, inbound) == Ok(id) && Lists(out, reg, fixed, inbound)
    ensures id != fixed && HasId(out, id)
    ensures exists r :: r in reg.routes && if inbound then InLeg(r, id, fixed) else InLeg(r, fixed, id)
  {
    hide ChainId;
    var leg := if inbound then Leg(reg.routes, id, fixed) else Leg(reg.routes, fixed, id);
    LegMembers(reg.routes, if inbound then id else fixed, if inbound then fixed else id);
    assert leg[0] in leg;
    assert FarEnd(leg[0], fixed, inbound) == Some(id);
  }

  /** And conversely: the decimal text of an id resolves to it exactly when the id is another chain that the
      availability list holds. */
  lemma NumberResolvesIff(reg: Registry, id: nat, fixed: nat, inbound: bool, out: seq<ChainRef>)
    requires id <= MAX_UINT64 && Lists(out, reg, fixed, inbound)
    ensures ResolveChain(reg, Print(id), fixed, inbound) == Ok(id) <==> id != fixed && HasId(out, id)
    ensures id == fixed ==> ResolveChain(reg, Print(id), fixed, inbound) == Err(SameChain)
    ensures id != fixed && !HasId(out, id) ==> ResolveChain(reg, Print(id), fixed, inbound) == Err(NoBridgeRoute)
  {
    hide StrictlySorted, HasId;
    NumberRead(reg.names, id);
    LegIffFarEnd(reg, id, fixed, inbound);
  }

  lemma NumberRead(names: Names, id: nat)
    requires id <= MAX_UINT64
    ensures var q := Print(id); q != "" && Text.TrimSpace(q) == q && ChainId(names, q) == Some(id)
  {
    hide Print, Value;
    ValuePrint(id);
    var q := Print(id);
    assert IsDigit(q[0]) && IsDigit(q[|q| - 1]);
    Text.TrimSpaceKeeps(q);
  }

  lemma LegIffFarEnd(reg: Registry, id: nat, fixed: nat, inbound: bool)
    ensures (if inbound then Leg(reg.routes, id, fixed) else Leg(reg.routes, fixed, id)) != [] <==>
            exists r :: r in reg.routes && FarEnd(r, fixed, inbound) == Some(id)
  {
    hide Leg;
    var src, target := if inbound then id else fixed, if inbound then fixed else id;
    LegMembers(reg.routes, src, target);
    var leg := Leg(reg.routes, src, target);
    if leg != [] { assert leg[0] in leg && FarEnd(leg[0], fixed, inbound) == Some(id); }
    if r :| r in reg.routes && FarEnd(r, fixed, inbound) == Some(id) { assert r in leg; }
  }

  /** A name that is no number resolves to the id it stands for, on the same condition; a blank query and an unknown
      name are told apart. */
  lemma NameResolvesIff(reg: Registry, name: string, fixed: nat, inbound: bool, out: seq<ChainRef>)
    requires Text.TrimSpace(name) == name && name != "" && ParseUint(name).None? && Lists(out, reg, fixed, inbound)
    ensures var known := Text.ToLower(name) in reg.names.nameToId;
            && (!known ==> ResolveChain(reg, name, fixed, inbound) == Err(UnknownChain))
            && (known ==>
                  var id := reg.names.nameToId[Text.ToLower(name)];
                  ResolveChain(reg, name, fixed, inbound) == Ok(id) <==> id != fixed && HasId(out, id))
    ensures ResolveChain(reg, "", fixed, inbound) == Err(Required)
  {
    hide StrictlySorted, HasId;
    if Text.ToLower(name) in reg.names.nameToId {
      LegIffFarEnd(reg, reg.names.nameToId[Text.ToLower(name)], fixed, inbound);
    }
  }

  // ---- Chain names -------------------------------------------------------------------------------------

  /** The id one route teaches for a name: its target column is learned last. */
  function Teaches(r: RawRoute, name: string): Option<nat> {
    if r.targetChain != "" && Text.ToLower(r.targetChain) == name then Some(r.targetId)
    else if r.srcChain != "" && Text.ToLower(r.srcChain) == name then Some(r.srcId)
    else None
  }

  function NameId(raws: seq<RawRoute>, name: string): Option<nat> {
    var m := NamesOf(raws).nameToId;
    if name in m then Some(m[name]) else None
  }

  lemma LastTeaches(raws: seq<RawRoute>, r: RawRoute, name: string)
    ensures NameId(raws + [r], name) == if Teaches(r, name).Some? then Teaches(r, name) else NameId(raws, name)
  {
    assert (raws + [r])[..|raws|] == raws;
  }

  /** The name an id is shown by is the first one the file gives it: source column before target column. */
  lemma FirstNameStays(raws: seq<RawRoute>, r: RawRoute, id: nat)
    ensures var before, after := NamesOf(raws).idToName, NamesOf(raws + [r]).idToName;
            && (id in before ==> id in after && after[id] == before[id])
            && (id !in before && r.srcChain != "" && r.srcId == id ==> id in after && after[id] == r.srcChain)
            && (id !in before && !(r.srcChain != "" && r.srcId == id) && r.targetChain != "" && r.targetId == id ==>
                  id in after && after[id] == r.targetChain)
            && (id in after ==> id in before || (r.srcChain != "" && r.srcId == id)
                                || (r.targetChain != "" && r.targetId == id))
    ensures NamesOf([]).idToName == map[]
  {
    assert (raws + [r])[..|raws|] == raws;
  }

  lemma {:induction false} LearnedFromSome(raws: seq<RawRoute>, name: string)
    ensures NameId(raws, name).Some? ==> exists r :: r in raws && Teaches(r, name) == NameId(raws, name)
    ensures NameId(raws, name).None? ==> forall r :: r in raws ==> Teaches(r, name).None?
  {
    hide Teaches, NameId;
    if raws == [] {
      NoNames(name);
    } else {
      var n := |raws| - 1;
      assert raws == raws[..n] + [raws[n]];
      LastTeaches(raws[..n], raws[n], name);
      LearnedFromSome(raws[..n], name);
      if Teaches(raws[n], name).Some? { assert raws[n] in raws; }
    }
  }

  lemma NoNames(name: string)
    ensures NameId([], name) == None
  {
  }

  /** Moving a route to the end of the file lets it have the last word. */
  lemma MovedLast(raws: seq<RawRoute>, i: nat, name: string) returns (p: seq<RawRoute>)
    requires i < |raws| && Teaches(raws[i], name).Some?
    ensures Permutation(raws, p) && NameId(p, name) == Teaches(raws[i], name)
  {
    hide Teaches, NameId;
    var rest := raws[..i] + raws[i + 1..];
    p := rest + [raws[i]];
    assert raws == raws[..i] + [raws[i]] + raws[i + 1..];
    LastTeaches(rest, raws[i], name);
  }

  ghost predicate TaughtOnce(raws: seq<RawRoute>, name: string) {
    forall r, t :: r in raws && t in raws && Teaches(r, name).Some? && Teaches(t, name).Some? ==>
                     Teaches(r, name) == Teaches(t, name)
  }

  lemma TaughtOnceIsStable(raws: seq<RawRoute>, p: seq<RawRoute>, name: string)
    requires TaughtOnce(raws, name) && Permutation(raws, p)
    ensures NameId(p, name) == NameId(raws, name)
  {
    hide Teaches, NameId;
    SameMembers(raws, p);
    LearnedFromSome(raws, name);
    LearnedFromSome(p, name);
  }

  /** Unlike lookups, chain names can depend on the order of the file. They do not exactly when all routes that
      teach a name teach the same id. */
  lemma NamesOrderFreeIff(raws: seq<RawRoute>, name: string)
    ensures (forall p :: Permutation(raws, p) ==> NameId(p, name) == NameId(raws, name)) <==> TaughtOnce(raws, name)
  {
    hide Teaches, NameId, Permutation;
    if forall p :: Permutation(raws, p) ==> NameId(p, name) == NameId(raws, name) {
      forall r | r in raws && Teaches(r, name).Some? ensures Teaches(r, name) == NameId(raws, name) {
        var i :| 0 <= i < |raws| && raws[i] == r;
        var p := MovedLast(raws, i, name);
      }
    }
    if TaughtOnce(raws, name) {
      forall p | Permutation(raws, p) ensures NameId(p, name) == NameId(raws, name) {
        TaughtOnceIsStable(raws, p, name);
      }
    }
  }

  lemma AddressTextIsAddress(a: nat)
    ensures IsHexAddress(AddressText(a))
  {
    assert Strip0x(AddressText(a)) == HexDigits(a, 40);
  }

  /** It happens in files that load: two routes, one source chain name with two ids, and the name means whichever
      route comes last. */
  lemma NameDependsOnOrder(x: string, a: nat, b: nat, target: nat) returns (r: RawRoute, t: RawRoute)
    requires x != "" && a != b && a != 0 && b != 0 && target != 0
    ensures Acceptable([r, t]) && Acceptable([t, r]) && Permutation([r, t], [t, r])
    ensures NameId([r, t], Text.ToLower(x)) == Some(b) && NameId([t, r], Text.ToLower(x)) == Some(a)
  {
    r, t := Plain(x, a, target), Plain(x, b, target);
    hide WellFormed, NameId, Acceptable, Teaches, Permutation, AddressText, Text.ToLower;
    PlainIsWellFormed(x, a, target);
    PlainIsWellFormed(x, b, target);
    TwoSources(r, t);
    TwoSources(t, r);
    Swapped(r, t);
    assert [r, t] == [r] + [t] && [t, r] == [t] + [r];
    LastTeaches([r], t, Text.ToLower(x));
    LastTeaches([t], r, Text.ToLower(x));
    TeachesSource(r);
    TeachesSource(t);
  }

  function Plain(x: string, id: nat, target: nat): RawRoute {
    RawRoute(x, id, "", target, AddressText(0), AddressText(0), "usdc", 6)
  }

  lemma PlainIsWellFormed(x: string, id: nat, target: nat)
    requires id != 0 && target != 0
    ensures WellFormed(Plain(x, id, target))
  {
    hide IsHexAddress, AddressText;
    AddressTextIsAddress(0);
    Text.TrimSpaceKeeps("usdc");
  }

  lemma Swapped(r: RawRoute, t: RawRoute)
    ensures Permutation([r, t], [t, r])
  {
    assert multiset([r, t]) == multiset{r, t} == multiset([t, r]);
  }

  lemma TwoSources(r: RawRoute, t: RawRoute)
    requires WellFormed(r) && WellFormed(t) && r.srcId != t.srcId
    ensures Acceptable([r, t])
  {
    hide WellFormed, HexToAddress, Text.ToLower;
  }

  lemma TeachesSource(r: RawRoute)
    requires r.srcChain != "" && r.targetChain == ""
    ensures Teaches(r, Text.ToLower(r.srcChain)) == Some(r.srcId)
  {
  }
}
