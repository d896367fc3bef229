/** What leaves a wallet through one transaction: the asset table of `tools/assets.go`, the
    x/bank decoder of `tools/cross.go` and the EVM decoder of `tools/evm.go`. */
module Rails {
  import opened Prelude

  type byte = x: int | 0 <= x < 256

  /** A 20-byte account address as a number. */
  type Address = x: nat | x < 0x1_0000_0000_0000_0000_0000_0000_0000_0000_0000_0000

  const ZERO_ADDRESS: Address := 0

  // ---- The asset table ---------------------------------------------------

  datatype Asset = Asset(symbol: string, bankDenom: string, erc20: Address, native: bool, decimals: int)

  const ASSETS: seq<Asset> := [
    Asset("svp", "asvp", ZERO_ADDRESS, true, 18),
    Asset("usdc", "erc20/usdc", 0x732F6Ea7AfD5EdC02e7ba052075dd0780e285489, false, 6),
    Asset("usdv", "", 0x013a61E622e6ABFCaB64F52D274C3Fc0aA37f951, false, 6)]

  function DenomIn(assets: seq<Asset>, denom: string): Option<string> {
    if assets == [] then None
    else if assets[0].bankDenom != "" && assets[0].bankDenom == denom then Some(assets[0].symbol)
    else DenomIn(assets[1..], denom)
  }

  function TokenIn(assets: seq<Asset>, token: Address): Option<string> {
    if assets == [] then None
    else if assets[0].erc20 != ZERO_ADDRESS && assets[0].erc20 == token then Some(assets[0].symbol)
    else TokenIn(assets[1..], token)
  }

  function NativeIn(assets: seq<Asset>): Option<string> {
    if assets == [] then None else if assets[0].native then Some(assets[0].symbol) else NativeIn(assets[1..])
  }

  function SymbolForDenom(denom: string): Option<string> { DenomIn(ASSETS, denom) }

  function SymbolForToken(token: Address): Option<string> { TokenIn(ASSETS, token) }

  function SymbolForNative(): Option<string> { NativeIn(ASSETS) }

  /** The table names each token once on each rail, so the two rails meet in one symbol. */
  lemma TableIsConsistent(denom: string, token: Address)
    ensures SymbolForNative() == Some("svp") && SymbolForDenom("asvp") == Some("svp")
    ensures SymbolForDenom(denom) == Some("svp") <==> denom == "asvp"
    ensures SymbolForDenom(denom) == Some("usdc") <==> denom == "erc20/usdc"
    ensures SymbolForToken(token) == Some("usdc") <==> token == 0x732F6Ea7AfD5EdC02e7ba052075dd0780e285489
    ensures SymbolForToken(token) == Some("usdv") <==> token == 0x013a61E622e6ABFCaB64F52D274C3Fc0aA37f951
    ensures SymbolForToken(token).Some? ==> SymbolForToken(token).value in {"usdc", "usdv"}
    ensures SymbolForDenom(denom).Some? ==> SymbolForDenom(denom).value in {"svp", "usdc"}
  {
    TokenTable(token);
    DenomTable(denom);
    assert NativeIn(ASSETS) == Some(ASSETS[0].symbol);
  }

  lemma TokenTable(token: Address)
    ensures TokenIn(ASSETS, token) ==
            if token == ASSETS[1].erc20 then Some("usdc")
            else if token == ASSETS[2].erc20 then Some("usdv") else None
  {
    var a1, a2 := ASSETS[1..], ASSETS[2..];
    assert a1[1..] == a2 && a2[1..] == [] && a1[0] == ASSETS[1] && a2[0] == ASSETS[2];
    assert TokenIn([], token) == None;
    assert TokenIn(a1, token) == if a1[0].erc20 == token then Some(a1[0].symbol) else TokenIn(a2, token);
  }

  lemma DenomTable(denom: string)
    ensures DenomIn(ASSETS, denom) ==
            if denom == "asvp" then Some("svp") else if denom == "erc20/usdc" then Some("usdc") else None
  {
    var a1, a2 := ASSETS[1..], ASSETS[2..];
    assert a1[1..] == a2 && a2[1..] == [] && a1[0] == ASSETS[1] && a2[0] == ASSETS[2];
    assert DenomIn([], denom) == None;
    assert DenomIn(a1, denom) == if a1[0].bankDenom == denom then Some(a1[0].symbol) else DenomIn(a2, denom);
  }

  // ---- x/bank -------------------------------------------------------------

  datatype Coin = Coin(denom: string, amount: int)

  /** The messages the decoders look at; `Other` is every other or unknown type. */
  datatype Msg =
    | Send(from: string, coins: seq<Coin>)
    | Withdraw(assetId: nat, quantums: nat)
    | Other

  /** All coins the signer sends, in order. */
  function OwnCoins(msgs: seq<Msg>, signer: string): seq<Coin> {
    if msgs == [] then []
    else
      var m := msgs[|msgs| - 1];
      OwnCoins(msgs[..|msgs| - 1], signer) + if m.Send? && m.from == signer then m.coins else []
  }

  function CoinSum(coins: seq<Coin>, symbol: string): int {
    if coins == [] then 0
    else
      var c := coins[|coins| - 1];
      CoinSum(coins[..|coins| - 1], symbol) + if SymbolForDenom(c.denom) == Some(symbol) then c.amount else 0
  }

  function CoinSymbols(coins: seq<Coin>): set<string> {
    set c | c in coins && SymbolForDenom(c.denom).Some? :: SymbolForDenom(c.denom).value
  }

  /** For every symbol the signer sends, the sum over all its coins. */
  function CoinTotals(coins: seq<Coin>): map<string, int> {
    map y | y in CoinSymbols(coins) :: CoinSum(coins, y)
  }

  function BankOut(msgs: seq<Msg>, signer: string): map<string, int> {
    CoinTotals(OwnCoins(msgs, signer))
  }

  lemma CoinTotalsSnoc(coins: seq<Coin>, c: Coin)
    ensures CoinTotals(coins + [c]) ==
            match SymbolForDenom(c.denom)
            case None => CoinTotals(coins)
            case Some(y) => CoinTotals(coins)[y := GetOr(CoinTotals(coins), y, 0) + c.amount]
  {
    hide SymbolForDenom;
    var all := coins + [c];
    assert all[..|all| - 1] == coins;
    CoinSymbolsSnoc(coins, c);
    forall y | y !in CoinSymbols(coins) ensures CoinSum(coins, y) == 0 { NoSuchCoin(coins, y); }
  }

  lemma CoinSymbolsSnoc(coins: seq<Coin>, c: Coin)
    ensures CoinSymbols(coins + [c]) ==
            CoinSymbols(coins) + if SymbolForDenom(c.denom).Some? then {SymbolForDenom(c.denom).value} else {}
  {
    hide SymbolForDenom;
    var all := coins + [c];
    forall y | y in CoinSymbols(all)
      ensures y in CoinSymbols(coins) || SymbolForDenom(c.denom) == Some(y)
    {
      var d :| d in all && SymbolForDenom(d.denom) == Some(y);
    }
    forall y | y in CoinSymbols(coins) ensures y in CoinSymbols(all) {
      var d :| d in coins && SymbolForDenom(d.denom) == Some(y);
      assert d in all;
    }
    assert c in all;
  }

  lemma {:induction false} NoSuchCoin(coins: seq<Coin>, y: string)
    requires y !in CoinSymbols(coins)
    ensures CoinSum(coins, y) == 0
  {
    hide SymbolForDenom;
    if coins != [] {
      var init, c := coins[..|coins| - 1], coins[|coins| - 1];
      assert coins == init + [c];
      CoinSymbolsSnoc(init, c);
      NoSuchCoin(init, y);
    }
  }

  method AddCoins(out: map<string, int>, coins: seq<Coin>, ghost before: seq<Coin>) returns (r: map<string, int>)
    requires out == CoinTotals(before)
    ensures r == CoinTotals(before + coins)
  {
    hide SymbolForDenom, CoinTotals;
    r := out;
    assert before + coins[..0] == before;
    for i := 0 to |coins|
      invariant r == CoinTotals(before + coins[..i])
    {
      var c := coins[i];
      CoinTotalsSnoc(before + coins[..i], c);
      assert before + coins[..i + 1] == before + coins[..i] + [c];
      var sym := SymbolForDenom(c.denom);
      if sym.Some? {
        var cur := if sym.value in r then r[sym.value] else 0;
        r := r[sym.value := cur + c.amount];
      }
    }
    assert coins[..|coins|] == coins;
  }

  method ExtractBankSends(msgs: seq<Msg>, signer: string) returns (out: map<string, int>)
    ensures out == BankOut(msgs, signer)
  {
    hide CoinTotals;
    out := map[];
    assert OwnCoins(msgs[..0], signer) == [];
    EmptyTotals();
    for i := 0 to |msgs|
      invariant out == CoinTotals(OwnCoins(msgs[..i], signer))
    {
      var m := msgs[i];
      assert msgs[..i + 1][..i] == msgs[..i];
      if m.Send? && m.from == signer {
        out := AddCoins(out, m.coins, OwnCoins(msgs[..i], signer));
      } else {
        assert OwnCoins(msgs[..i], signer) + [] == OwnCoins(msgs[..i], signer);
      }
    }
    assert msgs[..|msgs|] == msgs;
  }

  lemma EmptyTotals()
    ensures CoinTotals([]) == map[]
  {
  }

  /** Sends from another address, and coins without a cap symbol, add nothing. */
  lemma OnlyOwnSendsCount(msgs: seq<Msg>, signer: string)
    requires forall i :: 0 <= i < |msgs| && msgs[i].Send? && msgs[i].from == signer ==>
                           forall c :: c in msgs[i].coins ==> SymbolForDenom(c.denom).None?
    ensures BankOut(msgs, signer) == map[]
  {
    OwnCoinsFrom(msgs, signer);
  }

  lemma {:induction false} OwnCoinsFrom(msgs: seq<Msg>, signer: string)
    ensures forall c :: c in OwnCoins(msgs, signer) ==>
                          exists i :: 0 <= i < |msgs| && msgs[i].Send? && msgs[i].from == signer && c in msgs[i].coins
  {
    if msgs != [] {
      var init, m := msgs[..|msgs| - 1], msgs[|msgs| - 1];
      OwnCoinsFrom(init, signer);
      forall c | c in OwnCoins(msgs, signer)
        ensures exists i :: 0 <= i < |msgs| && msgs[i].Send? && msgs[i].from == signer && c in msgs[i].coins
      {
        if c in OwnCoins(init, signer) {
          var i :| 0 <= i < |init| && init[i].Send? && init[i].from == signer && c in init[i].coins;
          assert msgs[i] == init[i];
        } else {
          assert msgs[|msgs| - 1] == m && c in m.coins;
        }
      }
    }
  }

  lemma {:induction false} OwnCoinsConcat(a: seq<Msg>, b: seq<Msg>, signer: string)
    ensures OwnCoins(a + b, signer) == OwnCoins(a, signer) + OwnCoins(b, signer)
  {
    if b == [] {
      assert a + b == a;
    } else {
      assert (a + b)[..|a + b| - 1] == a + b[..|b| - 1] && (a + b)[|a + b| - 1] == b[|b| - 1];
      OwnCoinsConcat(a, b[..|b| - 1], signer);
    }
  }

  lemma {:induction false} CoinSumConcat(a: seq<Coin>, b: seq<Coin>, y: string)
    ensures CoinSum(a + b, y) == CoinSum(a, y) + CoinSum(b, y)
  {
    hide SymbolForDenom;
    if b == [] {
      assert a + b == a;
    } else {
      assert (a + b)[..|a + b| - 1] == a + b[..|b| - 1] && (a + b)[|a + b| - 1] == b[|b| - 1];
      CoinSumConcat(a, b[..|b| - 1], y);
    }
  }

  /** What the transaction meters for a symbol, zero when it has no entry. */
  function BankAmount(msgs: seq<Msg>, signer: string, y: string): int { GetOr(BankOut(msgs, signer), y, 0) }

  lemma AmountIsSum(msgs: seq<Msg>, signer: string, y: string)
    ensures BankAmount(msgs, signer, y) == CoinSum(OwnCoins(msgs, signer), y)
  {
    hide CoinSum, CoinSymbols;
    if y !in CoinSymbols(OwnCoins(msgs, signer)) { NoSuchCoin(OwnCoins(msgs, signer), y); }
  }

  /** The bank rail from the coins themselves: a transaction meters the sum of what its parts do; a send of the signer
      meters its coins one by one, "asvp" as svp and "erc20/usdc" as usdc; everything else meters nothing. */
  lemma BankOutIsAdditive(a: seq<Msg>, b: seq<Msg>, c: Coin, cs: seq<Coin>, from: string, signer: string, y: string)
    ensures BankAmount([], signer, y) == 0
    ensures BankAmount(a + b, signer, y) == BankAmount(a, signer, y) + BankAmount(b, signer, y)
    ensures BankAmount([Send(signer, [])], signer, y) == 0
    ensures BankAmount([Send(signer, cs + [c])], signer, y) == BankAmount([Send(signer, cs)], signer, y)
              + if (c.denom == "asvp" && y == "svp") || (c.denom == "erc20/usdc" && y == "usdc") then c.amount else 0
    ensures from != signer ==> BankAmount([Send(from, cs)], signer, y) == 0
    ensures forall id, q :: BankAmount([Withdraw(id, q)], signer, y) == 0
    ensures BankAmount([Other], signer, y) == 0
  {
    AmountIsSum(a, signer, y);
    AmountIsSum(b, signer, y);
    AmountIsSum(a + b, signer, y);
    AmountIsSum([], signer, y);
    OwnCoinsConcat(a, b, signer);
    CoinSumConcat(OwnCoins(a, signer), OwnCoins(b, signer), y);
    OneSend(cs + [c], signer, signer, y);
    OneSend(cs, signer, signer, y);
    OneSend([], signer, signer, y);
    OneSend(cs, from, signer, y);
    assert (cs + [c])[..|cs|] == cs;
    DenomTable(c.denom);
    forall id, q ensures BankAmount([Withdraw(id, q)], signer, y) == 0 { NoSend(Withdraw(id, q), signer, y); }
    NoSend(Other, signer, y);
  }

  lemma OneSend(cs: seq<Coin>, from: string, signer: string, y: string)
    ensures BankAmount([Send(from, cs)], signer, y) == if from == signer then CoinSum(cs, y) else 0
  {
    hide CoinSum;
    var msgs := [Send(from, cs)];
    assert msgs[..0] == [] && OwnCoins([], signer) == [] && [] + cs == cs;
    assert OwnCoins(msgs, signer) == if from == signer then cs else [];
    AmountIsSum(msgs, signer, y);
    assert CoinSum([], y) == 0 by { NoCoins(y); }
  }

  lemma NoCoins(y: string)
    ensures CoinSum([], y) == 0
  {
  }

  lemma NoSend(m: Msg, signer: string, y: string)
    requires !m.Send?
    ensures BankAmount([m], signer, y) == 0
  {
    assert [m][..0] == [] && OwnCoins([], signer) == [];
    assert OwnCoins([m], signer) == [];
    AmountIsSum([m], signer, y);
    NoCoins(y);
  }

  // ---- Withdrawals --------------------------------------------------------

  const USDC_ASSET_ID: nat := 0

  function WithdrawSum(msgs: seq<Msg>): nat {
    if msgs == [] then 0
    else
      var m := msgs[|msgs| - 1];
      WithdrawSum(msgs[..|msgs| - 1]) + if m.Withdraw? && m.assetId == USDC_ASSET_ID then m.quantums else 0
  }

  lemma {:induction false} WithdrawSumGrows(msgs: seq<Msg>, i: nat)
    requires i <= |msgs|
    ensures WithdrawSum(msgs[..i]) <= WithdrawSum(msgs)
  {
    if i < |msgs| {
      assert msgs[..|msgs| - 1][..i] == msgs[..i];
      WithdrawSumGrows(msgs[..|msgs| - 1], i);
    } else {
      assert msgs[..i] == msgs;
    }
  }

  /** The withdraw sum from the messages themselves: asset 0 counts its quantums, everything else nothing. */
  lemma {:induction false} WithdrawSumIsAdditive(a: seq<Msg>, b: seq<Msg>, m: Msg)
    ensures WithdrawSum([]) == 0
    ensures WithdrawSum([m]) == if m.Withdraw? && m.assetId == 0 then m.quantums else 0
    ensures WithdrawSum(a + b) == WithdrawSum(a) + WithdrawSum(b)
    decreases |b|
  {
    assert [m][..0] == [];
    if b == [] {
      assert a + b == a;
    } else {
      assert (a + b)[..|a + b| - 1] == a + b[..|b| - 1] && (a + b)[|a + b| - 1] == b[|b| - 1];
      WithdrawSumIsAdditive(a, b[..|b| - 1], m);
    }
  }

  /** The exact sum, or an error precisely when it does not fit uint64. The addition itself wraps. */
  method ExtractWithdrawQuantums(msgs: seq<Msg>) returns (r: Option<nat>)
    requires forall i :: 0 <= i < |msgs| && msgs[i].Withdraw? ==> msgs[i].quantums <= MAX_UINT64
    ensures r == if WithdrawSum(msgs) <= MAX_UINT64 then Some(WithdrawSum(msgs)) else None
  {
    var total: nat := 0;
    for i := 0 to |msgs|
      invariant total == WithdrawSum(msgs[..i]) <= MAX_UINT64
    {
      var m := msgs[i];
      assert msgs[..i + 1][..i] == msgs[..i];
      if m.Withdraw? && m.assetId == USDC_ASSET_ID {
        var sum := (total + m.quantums) % (MAX_UINT64 + 1);
        if sum < total {
          WithdrawSumGrows(msgs, i + 1);
          return None;
        }
        total := sum;
      }
    }
    assert msgs[..|msgs|] == msgs;
    r := Some(total);
  }

  // ---- EVM ----------------------------------------------------------------

  function BigEndian(bs: seq<byte>): nat {
    if bs == [] then 0 else 256 * BigEndian(bs[..|bs| - 1]) + bs[|bs| - 1]
  }

  function Pow256(k: nat): (p: nat)
    ensures p > 0
  {
    if k == 0 then 1 else 256 * Pow256(k - 1)
  }

  lemma {:induction false} BigEndianBound(bs: seq<byte>)
    ensures BigEndian(bs) < Pow256(|bs|)
  {
    if bs != [] { BigEndianBound(bs[..|bs| - 1]); }
  }

  lemma Pow256Twenty()
    ensures Pow256(20) == 0x1_0000_0000_0000_0000_0000_0000_0000_0000_0000_0000
  {
    assert Pow256(4) == 0x1_0000_0000;
    assert Pow256(8) == 256 * 256 * 256 * 256 * Pow256(4);
    assert Pow256(12) == 256 * 256 * 256 * 256 * Pow256(8);
    assert Pow256(16) == 256 * 256 * 256 * 256 * Pow256(12);
    assert Pow256(20) == 256 * 256 * 256 * 256 * Pow256(16);
  }

  /** `common.BytesToAddress` on exactly 20 bytes. */
  function AddressOf(bs: seq<byte>): Address
    requires |bs| == 20
  {
    BigEndianBound(bs);
    Pow256Twenty();
    BigEndian(bs)
  }

  const TRANSFER: seq<byte> := [0xa9, 0x05, 0x9c, 0xbb]
  const TRANSFER_FROM: seq<byte> := [0x23, 0xb8, 0x72, 0xdd]

  /** One transaction's call: `to` is `None` for a contract creation. */
  datatype Call = Call(to: Option<Address>, value: int, data: seq<byte>)

  /** The addresses whose native-value legs are swaps or wraps; both zero when swaps are off. */
  datatype Swap = Swap(router: Address, wsvp: Address)

  /** Native coin sent out, swap and wrap legs excepted. */
  function NativeOut(c: Call, swap: Swap): nat {
    if c.value > 0 && c.to.Some? && c.to.value != swap.router && c.to.value != swap.wsvp then c.value else 0
  }

  /** The owner's tokens moved by a top-level ERC-20 transfer or transferFrom. */
  function TokenOut(c: Call, owner: Address): nat {
    if |c.data| < 4 then 0
    else if c.data[..4] == TRANSFER && |c.data| >= 68 then BigEndian(c.data[36..68])
    else if c.data[..4] == TRANSFER_FROM && |c.data| >= 100 && AddressOf(c.data[16..36]) == owner
    then BigEndian(c.data[68..100])
    else 0
  }

  function EvmOutOf(c: Call, owner: Address, swap: Swap, symbol: string): nat {
    (if SymbolForNative() == Some(symbol) then NativeOut(c, swap) else 0)
    + if c.to.Some? && SymbolForToken(c.to.value) == Some(symbol) then TokenOut(c, owner) else 0
  }

  /** Only positive amounts have an entry. */
  function EvmOut(c: Call, owner: Address, swap: Swap): map<string, int> {
    map y | y in {"svp", "usdc", "usdv"} && EvmOutOf(c, owner, swap, y) > 0 :: EvmOutOf(c, owner, swap, y)
  }

  lemma EvmOutParts(c: Call, owner: Address, swap: Swap)
    ensures EvmOut(c, owner, swap) ==
            var native := if NativeOut(c, swap) > 0 then map["svp" := NativeOut(c, swap)] else map[];
            if c.to.Some? && SymbolForToken(c.to.value).Some? && TokenOut(c, owner) > 0
            then native[SymbolForToken(c.to.value).value := TokenOut(c, owner)] else native
  {
    hide SymbolForToken, SymbolForNative, NativeOut, TokenOut;
    TableIsConsistent("", if c.to.Some? then c.to.value else ZERO_ADDRESS);
  }

  method AddOut(out: map<string, int>, sym: string, amt: int) returns (r: map<string, int>)
    ensures r == if amt <= 0 then out else out[sym := GetOr(out, sym, 0) + amt]
  {
    if amt <= 0 { return out; }
    if sym in out { r := out[sym := out[sym] + amt]; } else { r := out[sym := amt]; }
  }

  method DecodeTransferOut(c: Call, owner: Address, swap: Swap) returns (out: map<string, int>)
    ensures out == EvmOut(c, owner, swap)
  {
    hide SymbolForToken, SymbolForNative, AddressOf, BigEndian, EvmOut;
    EvmOutParts(c, owner, swap);
    TableIsConsistent("", if c.to.Some? then c.to.value else ZERO_ADDRESS);
    out := map[];
    if c.value > 0 && c.to.Some? && c.to.value != swap.router && c.to.value != swap.wsvp {
      var native := SymbolForNative();
      if native.Some? { out := AddOut(out, native.value, c.value); }
    }
    if c.to.Some? && |c.data| >= 4 {
      var sym := SymbolForToken(c.to.value);
      if sym.Some? {
        if c.data[..4] == TRANSFER && |c.data| >= 68 {
          out := AddOut(out, sym.value, BigEndian(c.data[36..68]));
        } else if c.data[..4] == TRANSFER_FROM && |c.data| >= 100 {
          if AddressOf(c.data[16..36]) == owner {
            out := AddOut(out, sym.value, BigEndian(c.data[68..100]));
          }
        }
      }
    }
  }

  /** The native value of a call to the router or to the wrapping contract is not metered: the call counts for what
      it would with no value, which is nothing unless that address is itself a capped token. */
  lemma SwapLegsAreFree(c: Call, owner: Address, swap: Swap)
    requires c.to == Some(swap.router) || c.to == Some(swap.wsvp)
    ensures EvmOut(c, owner, swap) == EvmOut(c.(value := 0), owner, swap)
    ensures SymbolForToken(c.to.value).None? ==> EvmOut(c, owner, swap) == map[]
  {
    hide SymbolForToken, SymbolForNative;
    EvmOutParts(c, owner, swap);
    EvmOutParts(c.(value := 0), owner, swap);
  }

  // ---- Calldata, as the token contracts read it ---------------------------

  /** The k low bytes of n, most significant first. */
  function Bytes(n: nat, k: nat): (bs: seq<byte>)
    ensures |bs| == k
  {
    if k == 0 then [] else Bytes(n / 256, k - 1) + [n % 256]
  }

  lemma {:induction false} BigEndianBytes(n: nat, k: nat)
    requires n < Pow256(k)
    ensures BigEndian(Bytes(n, k)) == n
  {
    if k > 0 {
      BigEndianBytes(n / 256, k - 1);
      assert Bytes(n, k)[..k - 1] == Bytes(n / 256, k - 1);
    }
  }

  lemma {:induction false} LowBytes(n: nat, k: nat, j: nat)
    requires j <= k
    ensures Bytes(n, k)[k - j..] == Bytes(n, j)
  {
    if j > 0 {
      LowBytes(n / 256, k - 1, j - 1);
      assert Bytes(n, k)[k - j..] == Bytes(n / 256, k - 1)[k - j..] + [n % 256];
    } else {
      assert Bytes(n, k)[k..] == [];
    }
  }

  function TransferData(dest: Address, amount: nat): seq<byte> {
    TRANSFER + Bytes(dest, 32) + Bytes(amount, 32)
  }

  function TransferFromData(from: Address, dest: Address, amount: nat): seq<byte> {
    TRANSFER_FROM + Bytes(from, 32) + Bytes(dest, 32) + Bytes(amount, 32)
  }

  lemma TransferRead(owner: Address, to: Option<Address>, value: int, dest: Address, amount: nat, rest: seq<byte>)
    requires amount < Pow256(32)
    ensures TokenOut(Call(to, value, TransferData(dest, amount) + rest), owner) == amount
  {
    hide Bytes, BigEndian, AddressOf, Pow256;
    var data := TransferData(dest, amount) + rest;
    assert data[..4] == TRANSFER;
    assert data[36..68] == Bytes(amount, 32);
    BigEndianBytes(amount, 32);
  }

  lemma TransferFromRead(
    owner: Address, to: Option<Address>, value: int, from: Address, dest: Address, amount: nat, rest: seq<byte>)
    requires amount < Pow256(32)
    ensures TokenOut(Call(to, value, TransferFromData(from, dest, amount) + rest), owner)
            == if from == owner then amount else 0
  {
    hide Bytes, BigEndian, Pow256;
    var data := TransferFromData(from, dest, amount) + rest;
    assert data[..4] == TRANSFER_FROM;
    assert data[..4] != TRANSFER by { assert data[0] != TRANSFER[0]; }
    assert data[68..100] == Bytes(amount, 32);
    assert data[16..36] == Bytes(from, 32)[12..];
    LowBytes(from, 32, 20);
    Pow256Twenty();
    BigEndianBytes(from, 20);
    BigEndianBytes(amount, 32);
  }

  /** What a call's native value meters on its own. */
  function NativePart(to: Address, value: int, swap: Swap): map<string, int> {
    if value > 0 && to != swap.router && to != swap.wsvp then map["svp" := value] else map[]
  }

  function WithToken(native: map<string, int>, sym: string, amount: nat): map<string, int> {
    if amount > 0 then native[sym := amount] else native
  }

  /** A call to anything but a capped token meters its native value and nothing else, whatever its data: the plain
      send does, a call to the router or the wrapping contract does not, and a contract creation meters nothing. */
  lemma NativeSendsAreMetered(c: Call, owner: Address, swap: Swap)
    requires c.to.Some? ==> SymbolForToken(c.to.value).None?
    ensures EvmOut(c, owner, swap) == if c.to.None? then map[] else NativePart(c.to.value, c.value, swap)
    ensures c.to.Some? && c.value > 0 && c.to.value != swap.router && c.to.value != swap.wsvp ==>
              EvmOut(c, owner, swap) == map["svp" := c.value]
  {
    hide SymbolForToken, TokenOut, EvmOut;
    EvmOutParts(c, owner, swap);
  }

  /** The decoder undoes the ABI encoding, whatever value the call carries besides and whatever follows the
      arguments: a transfer of a capped token, and a transferFrom out of the owner's account, meter exactly the
      amount moved; a transferFrom of somebody else's tokens nothing. */
  lemma TransfersMeterTheirAmount(
    token: Address, value: int, owner: Address, from: Address, dest: Address, amount: nat, rest: seq<byte>, swap: Swap)
    requires SymbolForToken(token).Some? && amount < Pow256(32)
    ensures EvmOut(Call(Some(token), value, TransferData(dest, amount) + rest), owner, swap)
            == WithToken(NativePart(token, value, swap), SymbolForToken(token).value, amount)
    ensures EvmOut(Call(Some(token), value, TransferFromData(from, dest, amount) + rest), owner, swap)
            == WithToken(NativePart(token, value, swap), SymbolForToken(token).value,
                         if from == owner then amount else 0)
  {
    hide SymbolForToken, TokenOut, TransferData, TransferFromData, Pow256, EvmOut;
    TransferRead(owner, Some(token), value, dest, amount, rest);
    TransferFromRead(owner, Some(token), value, from, dest, amount, rest);
    EvmOutParts(Call(Some(token), value, TransferData(dest, amount) + rest), owner, swap);
    EvmOutParts(Call(Some(token), value, TransferFromData(from, dest, amount) + rest), owner, swap);
  }

  /** Any other call to a capped token, an approval or a truncated transfer, moves none of it: only the native value
      counts. The selectors are those of transfer(address,uint256) and transferFrom(address,address,uint256). */
  lemma OtherTokenCallsMeterNoToken(token: Address, value: int, data: seq<byte>, owner: Address, swap: Swap)
    requires !([0xa9, 0x05, 0x9c, 0xbb] <= data && |data| >= 68)
    requires !([0x23, 0xb8, 0x72, 0xdd] <= data && |data| >= 100)
    ensures EvmOut(Call(Some(token), value, data), owner, swap) == NativePart(token, value, swap)
  {
    hide SymbolForToken, EvmOut, BigEndian, AddressOf;
    EvmOutParts(Call(Some(token), value, data), owner, swap);
    assert |data| >= 4 && data[..4] == TRANSFER ==> TRANSFER <= data;
    assert |data| >= 4 && data[..4] == TRANSFER_FROM ==> TRANSFER_FROM <= data;
  }
}
