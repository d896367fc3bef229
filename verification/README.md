# Guardrails of svpchain-mcp, verified

A Dafny model of the guardrails and the arithmetic of svpchain-mcp, the server through which agents trade,
transfer, bridge and lend on svpchain. It covers the parts where a mistake costs money or lets the wrong caller in:

- **Spend metering** (`TransferOut`, `TransferOutStore`, `Rails`, `Broadcast`, `Conservation`, `Counted`,
  `Spending`, `Losses`, `Overshoot`, `Handlers`): the per-wallet daily transfer-out caps, their file, the two broadcast rails that
  share them, and the idempotency keys. Check and record are separate critical sections in the source, so the rails are
  a step system over any number of broadcasts in flight, day changes, failed sends, failed writes and restarts, in any
  combination, with a file to keep the caps in or without. What the meter says and what the chain took are kept apart:
  the first is bounded and accounted for in `Broadcast`, `Conservation` and `Counted`, the second in `Spending`.
- **Withdraw ledger** (`Ledger`, `Owners`): uint64 caps with a saturating daily counter per tenant, and what that means
  for a wallet with many tenants.
- **Order units** (`Floors`, `Units`): decimals to quantums and subticks, and tick snapping for market orders.
- **Authentication** (`Challenge`, `AuthStores`, `Auth`, `AuthSweeps`, `AuthRate`, `AuthHandlers`, `RateLimiter`): single-use
  nonces, minted tenants, session bindings, sweeps and the per-IP limiter, as one state machine over whole runs.
- **Lending risk** (`Lendora`): collateral recovery, risk bands, and the projections that gate each operation.
- **Bridge routes** (`Registry`): duplicate detection by string keys, lookups, chain resolution.
- **Amounts as text** (`Decimal`, `Text`, `Human`): printers and parsers.

State the source updates in place is a class whose methods are tied to a function on values (`State()`, `View()`,
`Current()`); the theorems are about those functions and about runs built from them. `Handlers` and `AuthHandlers` hold
the tools in the order the source executes them and show each call to be a path of the step system, so a theorem
about interleaved runs is a theorem about the handlers.

## What the proofs found

- The per-IP limiter lets through at most `2 * max - 1` calls in any window length, one fewer than two full windows,
  and that number is attained (`RateBound`, `RateBoundAttained`). With `max` below one it still lets one call through.
- With n broadcasts between check and record the day's tally can reach n caps, and for every n some run does
  (`CapSafety`, `BoundIsAttained`). One broadcast at a time keeps the tally to the cap (`SerialNeverExceeds`).
- The tally is not the spending. A restart between a send and its record loses the coins the chain took: strictly one
  broadcast at a time, every write succeeding, two caps leave the wallet in a day with a tally of zero
  (`RestartSpendsTwice`). Every coin the chain took is booked, waiting to be booked, or lost (`EveryCoinAccounted`). Losses
  grow exactly at a restart that finds a coin accepted and not recorded, or recorded and on no file, and at a send the
  chain takes while the server is told it failed (`LostGrowsIff`). A day's spending is at most n caps plus what is lost of
  the day while it lasts (`SpendSafety`), so n caps when nothing is (`SpendsWithinCaps`).
- A booking whose write failed is dropped by the next restart, while its day lasts (`RestartDropsBooking`). The meter's
  answer plus what restarts dropped is always the day's bookings (`UsedIsTodaysBookings`), and the answer alone is if and
  only if no restart finds one of them unsaved (`UsedIsExactIff`). Both suppose a clock that does not return to a day;
  under any clock the answer is the sum of what the tally took in since it was last emptied (`UsedIsCounted`).
- The withdraw cap is per tenant and tenants are free to mint: withdrawals made one at a time let a wallet with m tenants
  book m daily caps, and no more (`OwnerReachesCaps`, `TogetherWithinCaps`).
- A cap with a nil amount is "uncapped" in memory but is written as "0", so a restart turns it into "nothing may
  leave". A reload is invisible exactly when there is no such cap (`ReloadInvisibleIff`, `NilCapTurnsIntoZero`). The only
  setter never produces one.
- Idempotency keys are not persisted: a restart accepts the same key again at once (`RestartForgetsKeys`).
- `units.go` documents that a fractional residue is an error. Residue below one quantum or subtick is dropped before the
  alignment test; a conversion is exact exactly when the scaled value is whole (`ExactIff`).
- The upward snap of a SELL is a uint64 addition that can wrap; the result is at or above the price exactly when the
  snapped value fits (`SellWrapsIff`, `SellCanWrap`), and more slippage can then raise it (`SellFallsWithSlippage`, `SellCanRise`). A SELL can also sit under the exact price by less than one subtick,
  exactly when the floor is a tick multiple and the price is not whole (`SellIsLeast`).
- An account that is short by less than the 18-digit ratio can show is Critical, with a displayed health factor of
  exactly one and the mild warning (`WarnedWhileCriticalIff`).
- Permuting the route file never changes a lookup, but it can change which id a chain name resolves to, exactly when two
  routes teach different ids for that name (`OrderDoesNotMatter`, `NamesOrderFreeIff`). Such files load
  (`NameDependsOnOrder`).
- Route symbols are stored as they stand in the file while queries are trimmed: a route can be found by a symbol if and
  only if its own is trimmed, is not "native" and does not read as an address (`ReachedBySymbolIff`). Files with a route no symbol finds
  load (`UnreachableRoute`).

## Model

| member | source | states |
|---|---|---|
| `TransferOut.RestartTransparent` | lib/mcp/limits/transferout.go:114-337 | for every run of store calls under any clock, with every write succeeding and no nil cap set, restarts anywhere change no later Cap, Used or Check answer |
| `TransferOut.ReloadInvisibleIff` | lib/mcp/limits/transferout.go:114-212 | every written snapshot loads; reading it back gives an indistinguishable store if and only if no cap is nil |
| `TransferOut.NilCapTurnsIntoZero` | lib/mcp/limits/transferout.go:180-183 | a nil cap passes every amount before a restart and refuses every positive amount after it |
| `TransferOut.FileIsLastWritten` | lib/mcp/limits/transferout.go:165-212 | under any pattern of marshal, write and rename failures and restarts the file is one complete snapshot: that of the store at the last attempt that succeeded |
| `TransferOut.RestartAfterFailures` | lib/mcp/limits/transferout.go:105-113 | after any failures a restart brings back the day, the tallies and the caps of the last successful write, a nil cap as zero; it is indistinguishable from that store if and only if no cap in it was nil |
| `TransferOut.NextWriteReconciles` | lib/mcp/limits/transferout.go:221-337 | the first later call whose last write succeeds, a rollover's by Used or Check included, makes the file equal to the store |
| `TransferOut.RefusalIsTrue` | lib/mcp/limits/transferout.go:298-322 | Check refuses exactly when a set cap would be passed, and its texts denote cap, request and usage at every number of decimals |
| `TransferOut.CheckAnswers` | lib/mcp/limits/transferout.go:298-322 | the answer of Check: a refusal if and only if a set cap is less than the amount plus what was used today, a tally of another day counting for nothing; its texts denote cap, request and that usage; asking changes no cap and no tally of the day |
| `TransferOut.RecordAdds` | lib/mcp/limits/transferout.go:260-293 | Used answers the day's tally, and a record adds its amount, if positive, to that one tally |
| `TransferOut.CapToolsTakeEffect` | lib/mcp/limits/transferout.go:221-256 | a cap that is set is the one answered and judged by on any later day, one that is lifted lets everything pass, and neither touches another cap or a tally |
| `TransferOut.Rolled` | lib/mcp/limits/transferout.go:324-337 | a new UTC day zeroes every tally and keeps every cap |
| `TransferOut.WithCap` | lib/mcp/limits/transferout.go:221-234 | exactly one cap changes, no tally does |
| `TransferOut.WithoutCap` | lib/mcp/limits/transferout.go:237-245 | exactly one cap goes, no tally changes |
| `TransferOut.Added` | lib/mcp/limits/transferout.go:282-291 | exactly one tally grows, by the amount; no cap changes |
| `TransferOutStore.DecodeFile` | lib/mcp/limits/transferout.go:128-157 | the loading loops build exactly the decoded store, and fail exactly on a non-number |
| `TransferOutStore.MemoryTransferOutStore.Load` | lib/mcp/limits/transferout.go:114-158 | startup fails exactly when a persistent store's file is there and is unreadable, is not a snapshot or holds a non-number; otherwise the store is what the file says, or empty |
| `TransferOutStore.MemoryTransferOutStore.PersistLocked` | lib/mcp/limits/transferout.go:165-212 | the file becomes the whole state when the write and rename succeed and is untouched otherwise |
| `TransferOutStore.MemoryTransferOutStore.RolloverLocked` | lib/mcp/limits/transferout.go:324-337 | the deleting loop empties the tally and the reset is written through |
| `TransferOutStore.MemoryTransferOutStore.SetCap` | lib/mcp/limits/transferout.go:221-234 | one step of the specification, file included |
| `TransferOutStore.MemoryTransferOutStore.SetUnlimited` | lib/mcp/limits/transferout.go:237-245 | one step of the specification, file included |
| `TransferOutStore.MemoryTransferOutStore.Cap` | lib/mcp/limits/transferout.go:248-256 | the cap set for owner and symbol, without a rollover |
| `TransferOutStore.MemoryTransferOutStore.Used` | lib/mcp/limits/transferout.go:260-271 | rolls over, then answers today's tally |
| `TransferOutStore.MemoryTransferOutStore.Record` | lib/mcp/limits/transferout.go:275-293 | rolls over, adds to one tally, writes through; amounts that are not positive change nothing |
| `TransferOutStore.MemoryTransferOutStore.Check` | lib/mcp/limits/transferout.go:298-322 | rolls over and answers the specified verdict, texts included |
| `Rails.TableIsConsistent` | lib/mcp/tools/assets.go:42-87 | each denom, token and the native coin maps to one symbol, and the two rails meet in it |
| `Rails.ExtractBankSends` | lib/mcp/tools/cross.go:186-219 | the nested loops return, for every symbol the signer sends, the sum over all its own coins |
| `Rails.BankOutIsAdditive` | lib/mcp/tools/cross.go:186-219 | from the coins themselves: a transaction meters the sum of its parts, a send of the signer its coins one by one, asvp as svp and erc20/usdc as usdc, everything else nothing |
| `Rails.OnlyOwnSendsCount` | lib/mcp/tools/cross.go:202-210 | other senders and coins without a cap symbol contribute nothing |
| `Rails.ExtractWithdrawQuantums` | lib/mcp/tools/cross.go:149-179 | the exact sum of USDC withdrawals, or an error if and only if it exceeds uint64, although the addition wraps |
| `Rails.WithdrawSumIsAdditive` | lib/mcp/tools/cross.go:149-179 | from the messages themselves: asset 0 counts its quantums, everything else nothing, and parts add up |
| `Rails.DecodeTransferOut` | lib/mcp/tools/evm.go:168-207 | per symbol, native value plus the owner's ERC-20 amount, only where positive |
| `Rails.NativeSendsAreMetered` | lib/mcp/tools/evm.go:168-187 | a call to anything but a capped token meters its positive native value as svp, whatever its data, unless it goes to the router or the wrapping contract; a creation meters nothing |
| `Rails.SwapLegsAreFree` | lib/mcp/tools/evm.go:181-187 | the native value of a call to the router or the wrapping contract is never metered: the call counts as with no value, which is nothing unless that address is a capped token |
| `Rails.TransfersMeterTheirAmount` | lib/mcp/tools/evm.go:181-205 | the decoder undoes the ABI encoding of transfer and transferFrom (Methods section of EIP-20), whatever bytes follow the arguments, and adds the native value the call carries |
| `Rails.OtherTokenCallsMeterNoToken` | lib/mcp/tools/evm.go:189-205 | any other call to a capped token, an approval or a truncated transfer, meters its native value only |
| `Idempotency.Tracker.Claim` | lib/mcp/policy/idempotency.go:44-57 | accepts and records exactly as specified |
| `Idempotency.ClaimsAreSpaced` | lib/mcp/policy/idempotency.go:44-57 | in any run, two won claims of one tenant and client id are at least one TTL apart, whatever the clock does |
| `Idempotency.RefusedIff` | lib/mcp/policy/idempotency.go:38-57 | with bar-free tenant ids a claim is refused if and only if the same pair was won less than one TTL before |
| `Idempotency.KeyInjective` | lib/mcp/policy/idempotency.go:48 | distinct pairs have distinct keys when tenant ids hold no bar; a tenant id with a bar always shares a key with another tenant |
| `Idempotency.MintedHasNoBar` | lib/mcp/auth/dynamic_tenants.go:97 | minted tenant ids hold no bar |
| `Broadcast.CapSafety` | lib/mcp/tools/evm.go:115-147 | with a cap held at k and at most n broadcasts between check and record over both rails, the tally plus what is in flight never exceeds n*k in any reachable state, across rollovers, failed sends, failed writes and restarts in any combination; with restarts, from a file that holds the cap |
| `Broadcast.SerialNeverExceeds` | lib/mcp/tools/cross.go:90-137 | from any state in which tally and flight are within the cap, one broadcast at a time never takes the day's tally past it |
| `Broadcast.MeteringFile` | lib/mcp/limits/transferout.go:165-212 | whatever writes of a call fail, what a restart would bring back keeps the cap and stays within n caps |
| `Spending.EveryCoinAccounted` | lib/mcp/tools/evm.go:123-147 | conservation of money, in every reachable state, under any clock, with or without a file: what the chain took of a wallet on a day is booked, or accepted and waiting to be, or lost |
| `Spending.LostGrowsIff` | lib/mcp/tools/cross.go:100-137 | losses never shrink, and grow exactly at a restart that finds a coin accepted and not recorded, or recorded and on no file, and at a send the chain takes while the server is told it failed |
| `Spending.SpentWithinADay` | lib/mcp/tools/cross.go:100-137 | in every reachable state, what the chain took today plus what today's tally carries of broadcasts it took on other days or never is the meter's answer plus what waits plus what is lost of today, exactly |
| `Spending.SpendSafety` | lib/mcp/tools/evm.go:115-147 | from any reachable state with the cap of a wallet at k and tally and flight within n*k, over every run with the cap held and at most n broadcasts in flight: on every day not over yet the chain takes at most n*k plus what is lost of that day while it lasts |
| `Spending.LostIff` | lib/mcp/tools/cross.go:100-137 | over a whole run and under any clock, something of the day is lost if and only if some event loses a coin of it |
| `Spending.LostByCloseIff` | lib/mcp/tools/cross.go:100-137 | something of the day is lost while it lasts if and only if some event loses a coin of it before it is over |
| `Spending.SpendsWithinCaps` | lib/mcp/tools/evm.go:115-147 | from the same states, a day on which no event loses a coin before it is over sees at most n*k spent on top of what was lost of it before the run, so at most n*k on every later day, and at most the cap with one broadcast at a time |
| `Losses.RestartSpendsTwice` | lib/mcp/tools/cross.go:100-137 | a run with one broadcast at a time, the cap held and every write succeeding, on a server whose cap was set and saved, that spends two caps in a day and ends with a tally of zero |
| `Losses.RestartDropsBooking` | lib/mcp/limits/transferout.go:275-293 | a run in which a booking is made, its write fails, the server restarts, and the meter answers zero on the day of the booking |
| `Overshoot.BoundIsAttained` | lib/mcp/tools/evm.go:115-147 | for every n and k a run with at most n in flight ends with n*k used |
| `Overshoot.OneSubmissionPerKey` | lib/mcp/tools/cross.go:45-47 | over both rails every broadcast is sent at most once, and one server life accepts a tenant and client id at most once per TTL |
| `Overshoot.RestartForgetsKeys` | lib/mcp/policy/idempotency.go:20-36 | a run in which a restart lets one key be sent twice at one instant |
| `Conservation.UsedIsTodaysBookings` | lib/mcp/limits/transferout.go:260-293 | in every reachable state, with or without a file, whatever writes failed and whenever the server restarted, Used(owner, symbol) plus what restarts dropped of today is the exact sum of what that owner's broadcasts, by any tenant and on either rail, booked today |
| `Counted.UsedIsCounted` | lib/mcp/limits/transferout.go:260-337 | under any clock, one that runs back included, Used is the sum of the bookings the tally took in since a rollover or a restart last emptied it, all of them made on the tally's day |
| `Conservation.ReachableIsExact` | lib/mcp/limits/transferout.go:165-337 | in every reachable state the store holds exactly the bookings not forgotten, and what a restart would bring back exactly those that are saved besides |
| `Conservation.UsedIsExactIff` | lib/mcp/limits/transferout.go:260-293 | Used is the day's bookings if and only if no restart of the run finds one of them unsaved |
| `Conservation.SavedRecordsStay` | lib/mcp/limits/transferout.go:275-293 | no restart drops a booking while the write of every record succeeds |
| `Conservation.BookingsAreDecoded` | lib/mcp/tools/cross.go:128-137 | every booking belongs to a transaction the chain accepted and the owner signed, and equals that transaction's decoded amount |
| `Conservation.FinishedBooksEverything` | lib/mcp/tools/evm.go:118-147 | nothing escapes: an accepted broadcast that has recorded all it had to has booked exactly the symbols of which its transaction takes out a positive amount, at that amount |
| `Handlers.Server.BroadcastEVMTx` | lib/mcp/tools/evm.go:61-148 | the handler is a path of the step system: claim, decode, owner check, check, send, record, with each write ending as it may; rejected sends record nothing, submissions that do not decode are refused with their key spent, foreign chains are not metered |
| `Handlers.Server.BroadcastSignedTx` | lib/mcp/tools/cross.go:45-137 | likewise on the bank rail, with the withdraw guard before the caps and its ledger booked on acceptance only |
| `Handlers.Server.CheckAll` | lib/mcp/tools/cross.go:94-98 | the loop checks every symbol or stops at a refusal |
| `Handlers.Server.RecordAll` | lib/mcp/tools/cross.go:133-137 | the loop records every symbol |
| `Handlers.Server.Send` | lib/mcp/tools/evm.go:115-142 | nothing is sent unless every symbol passed its check |
| `Handlers.Server.Guard` | lib/mcp/tools/cross.go:75-83 | the withdraw guard passes exactly the transactions whose exact withdraw sum fits and passes the limits |
| `Ledger.RemainingIsExact` | lib/mcp/limits/limits.go:207-246 | over any run and clock, headroom is the cap less the exact sum of the day, despite saturation |
| `Ledger.RefusalIsHonest` | lib/mcp/limits/limits.go:149-172 | for a ledger built with any cap, a daily refusal comes if and only if the request exceeds the exact headroom, and its texts read back as cap, request and usage; the usage shown is the cap less the headroom exactly when the headroom is no larger, and with one shared cap it is the smaller of cap and exact sum |
| `Ledger.SerialWithinCap` | lib/mcp/limits/limits.go:145-172 | withdrawals made one at a time stay within the daily cap for every tenant, also across midnight |
| `Ledger.PerTxIsHonest` | lib/mcp/limits/limits.go:75-114 | a per-transaction refusal happens if and only if a cap that is on is exceeded, and its texts read back |
| `Ledger.LimitsByTool` | lib/mcp/limits/limits.go:75-114 | deposits, withdrawals and transfers are each held to their own limit, unknown tools to none |
| `Ledger.EnforcedIff` | lib/mcp/limits/limits.go:145-172 | a request is refused if and only if its own limit is on and exceeded or, for a withdrawal, the daily cap is on and would be exceeded by the day's bookings |
| `Ledger.InFlightWithinCaps` | lib/mcp/tools/cross.go:79-131 | with at most n withdrawals of a tenant between check and record, booked plus in flight never exceeds n daily caps, under any clock, interleaving and restarts |
| `Owners.TogetherWithinCaps` | lib/mcp/limits/limits.go:145-172 | withdrawals made one at a time: any set of tenants together books at most one daily cap each |
| `Owners.OwnerReachesCaps` | lib/mcp/auth/dynamic_tenants.go:78-113 | for every m, a wallet that can sign mints m live tenants that requests resolve to it, and withdrawals by those tenants, one at a time, book m daily caps |
| `Ledger.ToQuantums` | lib/mcp/limits/limits.go:95-125 | a cap is on exactly when it is positive and its quantums fit uint64, and is then exact |
| `Ledger.SaturatingAdd` | lib/mcp/limits/limits.go:223-233 | wrapping addition with the overflow test is addition clamped at the maximum |
| `Ledger.MemoryLedger.Remaining` | lib/mcp/limits/limits.go:209-218 | rolls over and answers the specified headroom |
| `Ledger.MemoryLedger.Record` | lib/mcp/limits/limits.go:223-233 | rolls over and books, clamped |
| `Ledger.MemoryLedger.Enforce` | lib/mcp/limits/limits.go:149-172 | per-transaction check, then the daily check for withdrawals only |
| `Units.TwoStagesAreOneFloor` | lib/mcp/units/units.go:25-27 | scaling by a power of ten of either sign and then dividing is one floor of the exact value |
| `Units.TermsDoNotMatter` | lib/mcp/units/units.go:20-37 | the floor does not depend on the terms the fraction is written in |
| `Units.AcceptedIff` | lib/mcp/units/units.go:20-37 | q is accepted if and only if q <= exact < q + 1, it fits uint64 and it is a step multiple |
| `Units.ConversionRefusedIff` | lib/mcp/units/units.go:20-72 | which error: not a number, 2^64 units or more, no step multiple |
| `Units.NegativeConverted` | lib/mcp/units/units.go:25-30 | a negative value is refused unless the two truncations make nothing of it |
| `Units.SizeWorth` | lib/mcp/units/units.go:17-19 | an accepted size is size * 10^-atomicResolution quantums, residue dropped, for exponents of any sign |
| `Units.PriceWorth` | lib/mcp/units/units.go:39-54 | an accepted price is worth, per base unit and in quote quantums, at most the price times a million and one subtick more would be more, for exponents of any sign |
| `Units.OrderWorth` | lib/mcp/units/units.go:43-54 | when both convert exactly, quantums times subticks times 10^quantumConversionExponent is size times price in quote quantums |
| `Units.BitcoinPrice` | lib/mcp/units/market_order_test.go:15 | 65000 is 6500000000 subticks in the BTC market |
| `Units.ExactIff` | lib/mcp/units/units.go:11-16 | an accepted conversion is exact if and only if the scaled value is whole |
| `Units.SizeToQuantums` | lib/mcp/units/units.go:20-37 | the two truncations in place compute the specified conversion, negative and misaligned inputs included |
| `Units.PriceToSubticks` | lib/mcp/units/units.go:55-72 | likewise with the price exponent and the tick |
| `Units.AggressiveSubticks` | lib/mcp/units/market_order.go:30-84 | for any terms of the worst price the code computes the specified result; bad sides, prices and slippages are refused, and a negative price as rounded to zero or as out of range according to its quotient in lowest terms |
| `Units.BuyIsGreatest` | lib/mcp/units/market_order.go:38-72 | an accepted BUY is the greatest tick multiple not above the exact worst price |
| `Units.SellIsLeast` | lib/mcp/units/market_order.go:43-78 | an accepted SELL is the least tick multiple not below the floor of the worst price, and under the exact price exactly when the floor is a multiple and the price is not whole, if and only if the snapped value fits uint64; otherwise it is below one tick |
| `Units.MarketOrderWorth` | lib/mcp/units/market_order.go:38-78 | against the oracle price itself: a BUY is at most the price raised by the slippage and less than a tick under it, a SELL that does not wrap less than a subtick under and less than a tick over the price lowered by it |
| `Units.BuyRefusedIff` | lib/mcp/units/market_order.go:38-84 | a BUY is refused exactly when the raised price reaches 2^64 subticks or is below one tick |
| `Units.SellRefusedIff` | lib/mcp/units/market_order.go:43-84 | a SELL is refused exactly for a slippage of 10000 or more, a lowered price of 2^64 subticks or more or below one subtick, or a snap that wraps to nothing |
| `Units.SellWrapsIff` | lib/mcp/units/market_order.go:73-77 | an accepted SELL is at or above the floor price if and only if the snapped value fits uint64 |
| `Units.SellCanWrap` | lib/mcp/units/market_order.go:75 | a price at the top of the range that sells at 384 subticks |
| `Units.SellCanRise` | lib/mcp/units/market_order.go:43-78 | at that price one basis point of slippage raises the result |
| `Units.BuyRisesWithSlippage` | lib/mcp/units/market_order.go:38-72 | accepted BUY results are nondecreasing in the slippage |
| `Units.SellFallsWithSlippage` | lib/mcp/units/market_order.go:43-78 | more slippage does not raise an accepted SELL, if and only if the price at the smaller slippage fits uint64 or the one at the larger does not either |
| `Units.SellMeetsBuy` | lib/mcp/units/market_order.go:38-78 | at one oracle price a SELL is at most any BUY plus one tick |
| `Units.NoSlippageIsPlainPrice` | lib/mcp/units/market_order.go:51-56 | at zero slippage both sides equal the plain conversion whenever it accepts a nonzero price |
| `RateLimiter.IPRateLimiter.Allow` | lib/mcp/auth/ip_rate_limiter.go:58-72 | counts and answers as specified |
| `RateLimiter.IPRateLimiter.Sweep` | lib/mcp/auth/ip_rate_limiter.go:76-85 | the loop drops exactly the elapsed entries |
| `RateLimiter.SweepIsExact` | lib/mcp/auth/ip_rate_limiter.go:76-85 | a sweep keeps exactly the entries whose window is open |
| `RateLimiter.RateBound` | lib/mcp/auth/ip_rate_limiter.go:53-85 | any half-open interval of one window length holds at most 2*max - 1 granted calls of an IP, sweeps included (max when the window is one instant; one when max is below one) |
| `RateLimiter.RateBoundAttained` | lib/mcp/auth/ip_rate_limiter.go:17-24 | for every maximum and every positive window some run grants exactly that many |
| `RateLimiter.SweepsChangeNoAnswer` | lib/mcp/auth/ip_rate_limiter.go:74-85 | sweeps anywhere in the past change no answer |
| `AuthRate.NonceRateBound` | lib/mcp/tools/auth_tools.go:44-56 | in any run of the whole machine one IP is issued at most 2*max - 1 nonces within any window length |
| `Challenge.ParseBuildIff` | lib/mcp/auth/challenge.go:21-69 | parsing undoes building if and only if chain id and nonce are non-empty and colon-free |
| `Challenge.BuildInjective` | lib/mcp/auth/challenge.go:15-23 | challenges of one chain differ whenever their nonces or expiries do |
| `Challenge.Format` | lib/mcp/auth/challenge.go:11-23 | the text is the prefix, chain id, nonce and unix seconds, separated by colons |
| `Challenge.ParseRefuses` | lib/mcp/auth/challenge.go:36-69 | which error the parser gives for a wrong prefix, a missing field, a bad expiry, an empty chain id and an empty nonce |
| `AuthStores.NonceStore.Issue` | lib/mcp/auth/nonce_store.go:63-78 | binds the nonce to the owner with its expiry; no owner, no nonce |
| `AuthStores.NonceStore.Consume` | lib/mcp/auth/nonce_store.go:87-99 | removes the nonce in every case and succeeds exactly when it was live |
| `AuthStores.NonceStore.Sweep` | lib/mcp/auth/nonce_store.go:104-113 | the loop drops exactly the expired nonces |
| `AuthStores.DynamicTenantStore.Mint` | lib/mcp/auth/dynamic_tenants.go:84-113 | adds one linked pair |
| `AuthStores.DynamicTenantStore.LookupByBearer` | lib/mcp/auth/dynamic_tenants.go:117-132 | found, expired or not found, through both maps |
| `AuthStores.DynamicTenantStore.LookupByTenantID` | lib/mcp/auth/dynamic_tenants.go:138-149 | found, expired or not found |
| `AuthStores.DynamicTenantStore.Sweep` | lib/mcp/auth/dynamic_tenants.go:154-165 | the loop drops exactly the dead pairs from both maps, in any order |
| `AuthStores.StaysOneToOne` | lib/mcp/auth/dynamic_tenants.go:108-165 | bearers and tenants stay in one-to-one correspondence under mint and sweep |
| `AuthStores.SweepsAreExact` | lib/mcp/auth/nonce_store.go:101-113 | sweeps keep exactly the live nonces, tenants with their bearers, and bindings |
| `AuthStores.SessionBearers.Bind` | lib/mcp/auth/session_bearers.go:48-58 | overwrites the session's binding |
| `AuthStores.SessionBearers.Lookup` | lib/mcp/auth/session_bearers.go:61-75 | the live bearer or the empty string |
| `AuthStores.SessionBearers.Sweep` | lib/mcp/auth/session_bearers.go:79-88 | the loop drops exactly the expired bindings |
| `Auth.ResolvedIsAuthentic` | cmd/mcp-server/mcp_auth.go:53-86 | in every run a request that resolves to a tenant does so through a live bearer that traces back to exactly one nonce, issued to that owner, consumed before expiry, with that owner's signature over a text that parses to this chain, that nonce and its expiry; a session resolves only through a verify made on it |
| `Auth.TextNames` | lib/mcp/tools/auth_tools.go:58-111 | the challenge text parses to the chain id, the nonce and the expiry in whole seconds |
| `Auth.TextsDiffer` | lib/mcp/auth/challenge.go:15-23 | texts of different nonces differ, so no signature serves two |
| `Auth.HandshakeSucceeds` | lib/mcp/tools/auth_tools.go:39-143 | completeness: a caller the limiter lets through who signs its text in time is resolved to its wallet and tenant, by the bearer from any session and by the session without a header, for exactly as long as bearer and binding live |
| `Auth.HandshakeFails` | lib/mcp/tools/auth_tools.go:83-125 | an unknown, expired or wrongly signed nonce is used up and starts nothing |
| `Auth.SessionCoversBearer` | lib/mcp/auth/session_bearers.go:17-18 | a binding never expires before its bearer |
| `Auth.RunKeeps` | lib/mcp/tools/auth_tools.go:83-143 | the invariant linking nonces, verifies, grants, tenants and sessions holds in every reachable state |
| `Auth.Receive` | cmd/mcp-server/mcp_auth.go:53-87 | the two resolution paths compute the specified tenant, and a tenant-scoped tool call passes only with one |
| `AuthSweeps.SweepTransparency` | lib/mcp/auth/dynamic_tenants.go:151-165 | removing every sweep of all four stores from a run changes no resolved request, no live tenant and no consumable nonce |
| `AuthHandlers.AuthServer.AuthChallenge` | lib/mcp/tools/auth_tools.go:39-62 | limiter first, then the nonce; the returned text is the canonical one, and parses to this nonce and its expiry |
| `AuthHandlers.AuthServer.AuthVerify` | lib/mcp/tools/auth_tools.go:83-143 | consume, compare, mint, bind in that order; a bearer exactly when the nonce was live and the signer is its owner, and then the owner signed a text that parses to this nonce and its expiry |
| `Lendora.ComputeRisk` | lib/mcp/tools/lendora_risk.go:109-180 | the market loop computes the truncated borrow sum and the positions; collateral, ratio and band follow |
| `Lendora.ReportIsExact` | lib/mcp/tools/lendora_risk.go:172-180 | recovered collateral is the Comptroller's C, Critical holds if and only if C < B, and report and projection agree |
| `Lendora.HealthReaches` | lib/mcp/tools/lendora_risk.go:177-178 | the rounded ratio reaches an even 18-digit threshold exactly when the true ratio is within half a digit of it |
| `Lendora.HealthIsRounded` | lib/mcp/tools/lendora_risk.go:177-178 | the ratio is truncated to 36 digits and rounded to the nearest of 18, halves to even |
| `Lendora.BandsByRatio` | lib/mcp/tools/lendora_risk.go:193-212 | the bands and the warning by plain ratios: below 1, 1.2 and 1.5 |
| `Lendora.BandIsExact` | lib/mcp/tools/lendora_ops.go:56-70 | projected band and warning are exact linear conditions on collateral and borrow |
| `Lendora.BandIsMonotone` | lib/mcp/tools/lendora_risk.go:193-212 | more collateral or less debt never worsens the band |
| `Lendora.WarnedWhileCriticalIff` | lib/mcp/tools/lendora_ops.go:60-68 | when a Critical projection also draws the mild warning, exactly |
| `Lendora.BuildRepay` | lib/mcp/tools/lendora_ops.go:355-396 | the branches compute the specified pack, pull and projection |
| `Lendora.RepayPlan` | lib/mcp/tools/lendora_ops.go:349-396 | against the reported market: built if and only if there is a debt; an amount below it is packed and pulled as it stands, otherwise 2^256 - 1 is packed and the debt pulled; the borrow sum falls by the value pulled |
| `Lendora.RepayNeverOptimistic` | lib/mcp/tools/lendora_ops.go:381-396 | a full repay projects the recomputed sum exactly, a partial one exceeds it by at most one unit, the clamp never fires, nothing beyond the debt is pulled |
| `Lendora.BorrowWithinOneUnit` | lib/mcp/tools/lendora_ops.go:325-326 | the borrow projection is the recomputed sum or one unit less |
| `Lendora.WeightedWithinTwo` | lib/mcp/tools/lendora_ops.go:526-538 | the cf-weighted value is below the exact one by less than two units |
| `Lendora.BuildCollateral` | lib/mcp/tools/lendora_ops.go:433-474 | the branches compute the specified projection or refusal |
| `Lendora.CollateralPlan` | lib/mcp/tools/lendora_ops.go:446-471 | against the reported market: enabling adds the weighted value of what is supplied unless it counts already, disabling takes it away and is refused exactly while the market is borrowed from or an account with debt would be short |
| `Lendora.SupplyAndBorrowPlan` | lib/mcp/tools/lendora_ops.go:177-327 | a supply packs and pulls the amount and adds its weighted value exactly where the market counts; a borrow is built exactly without a hypothetical shortfall, packs the amount and projects debt and margin |
| `Lendora.BuiltMeansSafe` | lib/mcp/tools/lendora_ops.go:275-327 | no borrow or withdraw is built with a Critical projection, and a disable only as a no-op on an account already Critical; a withdraw is built if and only if the hypothetical collateral covers the debt, and projects that collateral |
| `Lendora.HelpfulOpsNeverWorsen` | lib/mcp/tools/lendora_ops.go:177-196 | supply, enable and repay never worsen the reported band |
| `Registry.RouteKeyInjective` | lib/mcp/bridge/registry.go:156-158 | keys are equal if and only if both ids are and the last parts agree up to case |
| `Registry.KeysFindClashes` | lib/mcp/bridge/registry.go:126-137 | the two string keys detect exactly the ambiguous pairs |
| `Registry.NewRegistry` | lib/mcp/bridge/registry.go:92-154 | loads exactly the acceptable files, and otherwise names the first offending route |
| `Registry.SingleRouteLoadsIff` | lib/mcp/bridge/registry.go:101-116 | a single route loads if and only if both ids are set, both tokens are addresses, the symbol is not blank and the decimals are 0 to 77 |
| `Registry.HexAddressIff` | lib/mcp/bridge/registry.go:105-110 | an address is forty hex digits, with or without 0x |
| `Registry.OneMatchPerQuery` | lib/mcp/bridge/registry.go:97-100 | in an accepted file at most one route of a leg answers a symbol, address or native query |
| `Registry.LookupFindsTheMatch` | lib/mcp/bridge/registry.go:218-254 | a lookup returns r if and only if r is on the leg and matches; "no routes" if and only if the leg is empty |
| `Registry.FoundByItsToken` | lib/mcp/bridge/registry.go:117-125 | every route of an accepted file is found by its source token as the file writes it and carries the file's target token, symbol and decimals |
| `Registry.NativeIsFound` | lib/mcp/bridge/registry.go:226-234 | an empty query or "native" finds exactly the route of the leg whose source token is zero |
| `Registry.HexToAddressReads` | lib/mcp/bridge/registry.go:121-122 | addresses read alike whatever the case of their letters, and the text of a number reads as it |
| `Registry.ReachedBySymbolIff` | lib/mcp/bridge/registry.go:111-123 | an accepted route is found by some symbol query if and only if its symbol is trimmed, is not "native" and does not read as an address |
| `Registry.UnreachableRoute` | lib/mcp/bridge/registry.go:111-123 | a file that loads with a route no symbol query finds |
| `Registry.OrderDoesNotMatter` | lib/mcp/bridge/registry.go:92-265 | permuting the file changes neither acceptance nor any lookup |
| `Registry.NamesOrderFreeIff` | lib/mcp/bridge/registry.go:146-154 | a chain name resolves independently of the order if and only if every route that teaches it teaches one id |
| `Registry.NameDependsOnOrder` | lib/mcp/bridge/registry.go:92-154 | a file of two routes that loads in both orders and resolves one name to two ids |
| `Registry.Available` | lib/mcp/bridge/registry.go:269-297 | the availability list is strictly sorted and holds exactly the reachable chains with their names |
| `Registry.ResolvedIsAvailable` | lib/mcp/bridge/registry.go:181-213 | every resolved id differs from the fixed chain, has a route on its leg and is in the availability list |
| `Registry.NumberResolvesIff` | lib/mcp/bridge/registry.go:181-213 | conversely a chain id resolves if and only if it is another chain in the availability list, and otherwise draws the fitting error |
| `Registry.NameResolvesIff` | lib/mcp/bridge/registry.go:181-213 | a name that is no number resolves to the id it stands for on the same condition; blank and unknown queries are told apart |
| `Registry.FirstNameStays` | lib/mcp/bridge/registry.go:146-154 | an id is shown by the first name the file gives it |
| `Registry.RoutesFor` | lib/mcp/bridge/registry.go:257-265 | the routes of a leg in registry order |
| `Human.HumanToQuantums` | lib/mcp/limits/usdc.go:18-50 | the padding loop and tests compute the specified parse |
| `Human.AmountAccepted` | lib/mcp/limits/usdc.go:18-50 | every well-formed decimal is read as exactly a million times its value, or refused as an overflow |
| `Human.AcceptedIsAmount` | lib/mcp/limits/usdc.go:18-50 | whatever is accepted is such a decimal, read at its value |
| `Human.RefusedAs` | lib/mcp/limits/usdc.go:18-50 | which error an amount draws: empty, negative, too many decimals, not a number, too large |
| `Human.QuantumsRoundTrip` | lib/mcp/limits/usdc.go:52-58 | the parser undoes the six-digit printer for every uint64 |
| `Human.SixDecimals` | lib/mcp/limits/usdc.go:52-58 | quantums are shown with exactly six decimals |
| `Human.RenderedTruly` | lib/mcp/limits/transferout.go:341-368 | at every number of decimals and for every amount of either sign, the text printed denotes exactly that amount |
| `Human.BaseRoundTrip` | lib/mcp/limits/transferout.go:341-368 | at six decimals the amount parser undoes the trimming printer for every uint64 |
| `Human.RenderBase` | lib/mcp/limits/transferout.go:341-368 | the padding loop computes the specified text, signs and other decimals included |
| `Human.ShortestText` | lib/mcp/limits/transferout.go:341-368 | no zero ends the decimals of a base amount, and nil is shown as zero |

## Left out

- `Units.SizeToQuantums`: `big.Rat.SetString` is a parameter (the parsed fraction, in lowest terms as `big.Rat` keeps it), and the int32 exponent arithmetic is unbounded.
- `Registry.NewRegistry`: symbols and names are ASCII (`strings.ToLower` and `strings.EqualFold` differ on some other letters), and the checksum case of addresses is not modelled because every key folds it.
- `Lendora.ComputeRisk`: contract reads are parameters; USD totals and feeds are display only and not modelled.
- `Lendora.BuiltMeansSafe`: the Comptroller's hypothetical margin is a parameter; its own arithmetic is not in the repository.
- `Auth.ResolvedIsAuthentic`: random ids are assumed fresh and the clock not to run back; signature recovery is a parameter.
- `Overshoot.OneSubmissionPerKey`: the spacing speaks about one server life, because keys are not persisted.
- `Handlers.Server.BroadcastSignedTx`: protobuf and base64 are abstracted to a decoded transaction or one that does not decode; the audit log and fee-error parsing are not modelled.
- `Ledger.InFlightWithinCaps`: bounds the ledger, which a restart empties; it says nothing about what was withdrawn before one.
- `Units.SellFallsWithSlippage`: a tick is at most 2^32 - 1 in the SELL results, as its type has it.
- `Human.HumanToQuantums`: text that is not valid UTF-8 is not modelled.
- `TransferOutStore.MemoryTransferOutStore.Load`: JSON is abstracted to a snapshot value, or to the fact that there is none (a JSON null is the snapshot with nothing in it); the nil store is not modelled.
- `Conservation.UsedIsTodaysBookings`: the clock is assumed not to show a day again once it has left it, as in `Spending.SpendSafety`; `Counted.UsedIsCounted` is what holds under any clock.
- `Owners.TogetherWithinCaps`: counts every tenant the wallet ever minted, because one that has expired since may have booked on the same day.
- Tenant policy, kill switch, subaccount allow-lists and the token-bucket rate limiter: lookups and a wrapper over a library that is not part of this model.
- The tools that only read or build payloads (markets, accounts, faucet, swap, bridge deposit, reports): plumbing around chain clients and ABI packing.
- `humanToBaseUnits` and the cap tools' argument parsing: they rest on `LegacyDec` parsing, which is not part of this model.
- Configuration and wiring: only the fact that ledger and limits share one daily cap is used.
