# Verified models of a prediction-market trading client

This project models the parts of a Go client for a central limit order book where mistakes cost money or
deadlock a process: the shared caches, the combo quoting session, the heartbeat lifecycle, sequences of wallet
calls, order amounts, decimal text, and position identifiers. Every claim is a Dafny proof over the model; no
part of the client is executed.

`dafny verify dfyconfig.toml` checks the whole project.

## How the models are built

Concurrent parts come in two layers. A class holds the fields that the source guards with a lock, and each of
its methods is one locked region, proved equal to a function on the value of those fields. A step system then
interleaves these functions freely: a run is any sequence of steps, a step that is not enabled changes nothing,
and every theorem holds for all runs. Network answers, clocks, cancellations and write failures are step
parameters, so they are arbitrary.

- `ComboSession.dfy`, `ComboProtocol.dfy`: acknowledgements carry no command identifier. The gateway may answer
  each command at most once, at any time, in any order, also after a failed write.
- `OrderMetadataCache.dfy`, `MetadataProtocol.dfy`, `MetadataAnswers.dfy`, `TokenClear.dfy`: single-flight loads guarded by a
  generation. The log of clears makes "before" and "after" a clear precise: each value carries the number of
  clears made before its fetch was registered.
- `GuardedCache.dfy`: the simple caches, with the origin of each entry (a write or a fetch).
- `TickClear.dfy`: clearing the tick size of one token or of all, three locks one after the other, beside metadata
  commits that set ticks.
- `Heartbeat.dfy`: loops, stopping callers and closing callers.
- `EoaCalls.dfy`: the wallet is a script of answers and a log of what was asked of it. While the wallet prompts,
  the caller's own list of calls may change arbitrarily.

Order arithmetic (`Decimals.dfy`, `OrderMath.dfy`, `MaxSpend.dfy`, `SpendCondition.dfy`, `LimitOrder.dfy`,
`MarketOrder.dfy`, `MarketAmounts.dfy`) is over reals with explicit truncation. A decimal is its value together with the number of places its representation
reports, because the source branches on the latter. Products and quotients truncate at 19 places.

Text (`Digits.dfy`, `DecimalText.dfy`, `RestDecimal.dfy`, `ShiftDecimal.dfy`, `ComboE6.dfy`) has a grammar with a
recogniser proved sound and complete, and an exact real value; the rewriting code is then proved to keep or scale
that value. `ComboQuote.dfy` has the amounts of combo quotes. `PositionIds.dfy`, `ComboLegs.dfy` and
`ComboRequest.dfy` have identifiers and leg lists.

## Where a natural claim fails

- Clearing one token does not always drop the market it belongs to. `TokenClear.UnlistedMarketEscapes` is a run
  in which a resolve that starts after the clear is served a market fetched before it: the token was found while
  another token was being cleared, so it was never cached, and the market response listed no tokens.
  `ClearTokenDropsExactly` gives the condition, which is what the clear itself looks up. `FreshOnceDropped` is
  one side: every later resolve is fresh. `StaleOnceKept` and `StaleResolve` are the other: a market resolve, and
  a whole resolve of the token, that start after the clear are given the metadata fetched before it, as their
  result or, if it lists only other tokens, as the error that it does. When responses list their tokens and the mapping is fixed,
  `FreshAfterClearToken` holds without exception.
- A notional-sized combo quote can take more collateral than the notional. `ComboQuote.NotionalQuoteCost` says
  exactly when it does not: the quote does not buy the other outcome, or the price is at least one half.
  `BuyingTheOtherOutcomeCostsMore` is an instance.
- In exact arithmetic the adjusted buy amount never exceeds its budget (`ExactMaxSpend`). With 19-place arithmetic
  it can: `SpendCondition.ShrunkBuyOverspends` and `KeptBuyOverspends` are inputs for the two branches, and
  `ShrunkMaxSpend` and `KeptMaxSpend` bound the excess. The exact conditions do not mention the budget. A shrunk
  buy keeps every budget if and only if 19 places hold the divisor exactly (`ShrunkKeepsBudgetExactly`). A kept
  buy keeps every budget if and only if its exact cost is at most one unit in the last place above the computed
  total (`KeptKeepsBudgetExactly`); this holds whenever no step loses anything (`LosslessKeeps`).
- In exact arithmetic the adjusted amount never exceeds the requested one either. In 19-place arithmetic it can:
  `ShrunkBuyExceedsRequest` is an input. `NeverExceedsRequestExactly` says when no budget makes it happen: the total
  computed for the amount does not pay, at the computed divisor, for the next six-decimal amount. For six-decimal
  amounts below ten trillion dollars it never happens (`ShrunkWithinRequest`).
- A tick size can survive its own clear. `TickClear.OldTickSurvivesClear` is a run, and `StaleExactly` says when: a
  load registered before the clear sets the tick between the first and the last of the clear's three locks.
- The comment on amount rounding speaks of preferring to round up. `OrderMath.RoundToAmountValue` shows what the
  code does: it rounds down, except that a remainder within the last ten-thousandth of a step rounds up.
- The eviction branch of a failed market load never runs (`MetadataProtocol.EvictionIsDead`).

## Model

| member | source | states |
|---|---|---|
| ComboInbound.ReplySettlesItsCommand | clob/combo_quoter_events.go:112-174 | a frame that answers a command settles it if and only if the frame is complete, settles no other, is never taken for an event, and reports an error exactly when it is one |
| ComboInbound.ReplyCarriesItsFrame | clob/combo_quoter_events.go:78-174 | what a complete reply reports: an acknowledgement the RFQ, the quote and the decision of its frame, an error every field of the rejection, an authentication reply its success or its reason |
| ComboInbound.OnlyUncorrelatedTerminates | clob/combo_quoter_events.go:139-157 | a frame ends the session if and only if it is an error about a known command that does not name it |
| ComboInbound.AcknowledgementNamesItsRequest | clob/combo_quoter_events.go:112-174 | a successful acknowledgement names the RFQ of its key, and for a cancellation or confirmation the quote too; a confirmation carries a known decision |
| ComboSession.ComboRFQSession.constructor | clob/combo_quoter_session.go:53-138 | a new session is open, with nothing pending and its done channel not closed |
| ComboSession.ComboRFQSession.Send | clob/combo_quoter_session.go:158-173 | a send needs a free slot, fills it, and counts |
| ComboSession.ComboRFQSession.Register | clob/combo_quoter_session.go:202-215 | refused when closed or when the key is pending, else the command waits on a fresh channel; consistency is kept |
| ComboSession.ComboRFQSession.Resolve | clob/combo_quoter_session.go:168-175 | only the command pending under the key gets the result, without blocking, and is no longer pending |
| ComboSession.ComboRFQSession.Conclude | clob/combo_quoter_session.go:303-311 | a confirmation ends without error only if the acknowledged decision is the one asked for; another decision finishes the session with that error |
| ComboSession.ComboRFQSession.Finish | clob/combo_quoter_session.go:147-166 | the first call closes the session, gives every pending command the terminal error exactly once and closes done once; later calls change nothing |
| ComboProtocol.Reachable | clob/combo_quoter_session.go:147-233 | the session invariant holds after every schedule |
| ComboProtocol.AckCorrelation | clob/combo_quoter_session.go:176-233 | in every interleaving a gateway result received by a caller was sent in reply to that very command; any other received result is the session's terminal error |
| ComboProtocol.ReturnedIsItsFrame | clob/combo_quoter_session.go:176-251 | in every run what a caller receives is what the frame that answered its command says, both identifiers, decision or rejection, or else the terminal error of the session |
| ComboProtocol.AnsweredIsReceived | clob/combo_quoter_session.go:168-229 | a complete reply that is read while its command waits in an open session reaches its caller |
| ComboProtocol.AmbiguityEndsSession | clob/combo_quoter_session.go:177-233 | in every run a registered command that ended without a reply has closed the session |
| ComboProtocol.FailureIsTerminal | clob/combo_quoter_session.go:222-232 | a failed write or a timeout gives the caller its reason, which is the terminal error of a session that was still open |
| ComboProtocol.WriteThenWait | clob/combo_quoter_session.go:216-230 | a write gives the gate back and leads to waiting, or to failure if it failed; waiting can run out of time |
| ComboProtocol.RegistrationAnswers | clob/combo_quoter_session.go:202-215 | a command at its registration is refused when the session is closed or its key is pending, each with its own error, and is otherwise registered |
| ComboProtocol.ReturnedReferenceIsRequested | clob/combo_quoter_session.go:235-279 | a successful reply returned to a caller names the RFQ, and where the caller named one the quote, that it asked about |
| ComboProtocol.ConfirmedAsAsked | clob/combo_quoter_session.go:281-312 | in every run a confirmation ends without error if and only if the gateway acknowledged that very command, without error, with its RFQ, its quote and the decision it asked for |
| ComboProtocol.MismatchEndsSession | clob/combo_quoter_session.go:304-307 | concluding an acknowledgement of another decision ends with that error and a closed session, whose terminal error it is if the session was still open |
| ComboProtocol.ChannelConservation | clob/combo_quoter_session.go:147-233 | each registered channel gets at most one result ever, none exactly while it is pending, exactly one once the session is closed, and a waiting caller finds it there |
| ComboProtocol.RegionsNeverBlock | clob/combo_quoter_session.go:147-175 | in every reachable state each pending channel is empty and belongs to one command, so no send under the mutex blocks; at most one command is writing |
| ComboProtocol.ClosedForGood | clob/combo_quoter_session.go:147-166 | once closed, a session stays closed with its first error, nothing pending and no new command, whatever follows |
| OrderMetadataCache.ClientCaches.constructor | clob/cache_state.go:38-52 | the caches start empty at generation zero |
| OrderMetadataCache.ClientCaches.ProbeTable | clob/order_metadata_cache.go:61-101 | the first locked region: a live entry is hit unless forced, an open load is joined and marked as current or not, else a load is registered under the current generation |
| OrderMetadataCache.ClientCaches.SettleTable | clob/order_metadata_cache.go:207-217 | the last locked region: the load gets its outcome and leaves the table if it is still registered, its done closes, and a success of the current generation is cached |
| OrderMetadataCache.ClientCaches.SettleMarket | clob/order_metadata_cache.go:108-144 | the last locked region of a market load, with its eviction branch and the mapping of every listed token |
| OrderMetadataCache.ClientCaches.MapTokens | clob/order_metadata_cache.go:125-127 | every listed token, and no other, is mapped to the condition |
| OrderMetadataCache.ClientCaches.ClearOrderMetadata | clob/order_metadata_cache.go:292-301 | one token: the generation grows, its mapping goes, and the market it mapped to goes |
| OrderMetadataCache.ClientCaches.ClearAllOrderMetadata | clob/order_metadata_cache.go:303-310 | all three caches are emptied and the generation grows; loads stay registered |
| MetadataProtocol.Reachable | clob/order_metadata_cache.go:59-219 | the cache invariant holds after every schedule |
| MetadataProtocol.SingleFlight | clob/order_metadata_cache.go:72-113 | at most one caller at a time fetches a given condition, token or builder code, also across generation changes |
| MetadataProtocol.LoadLife | clob/builder_fee_cache.go:27-82 | a load is registered exactly while it has no outcome, its owner is then fetching it, and its done channel closes exactly once, when it gets one |
| MetadataProtocol.OnlyOwnerRemoves | clob/order_metadata_cache.go:108-113 | a load leaves the table only when its own fetcher settles it; no clear and no other caller removes it |
| MetadataProtocol.RunExtends | clob/order_metadata_cache.go:292-310 | along a run the log of clears only grows, and a resolve that starts later starts after the clears so far |
| MetadataProtocol.FreshAfterClearAll | clob/order_metadata_cache.go:59-146 | a resolve of any of the three caches that starts after a full clear only returns a value whose fetch was registered after it, whether from the cache, a joined load or its own |
| MetadataProtocol.EvictionIsDead | clob/order_metadata_cache.go:103-119 | a failed market load never carries tokens, so its eviction branch never runs |
| MetadataProtocol.CommittedIsServed | clob/order_metadata_cache.go:120-127 | what a fetch returned, with no clear since it was registered, is served to the next unforced look at its key while it lives |
| MetadataAnswers.LookAnswers | clob/order_metadata_cache.go:61-101 | a look is served from the cache if and only if it is not forced and an entry has not expired; else it waits for the load in flight, to use it only if no clear came since, and without one it registers its own |
| MetadataAnswers.ForcedOrExpiredIsNotServed | clob/order_metadata_cache.go:64-71 | a forced look, and any look at an expired or missing entry, waits or fetches |
| MetadataAnswers.WakeAnswers | clob/order_metadata_cache.go:72-92 | a waiter looks again if a clear came before it joined or the load was cancelled and itself was not; else it ends with the outcome of the load, except that a market which lists only other tokens is an error |
| MetadataAnswers.FetchAnswers | clob/order_metadata_cache.go:195-218 | a response that serves its caller becomes the result and the outcome of the load, whatever was cleared meanwhile; any other is an error for both |
| MetadataAnswers.MarketResolveStarts | clob/order_metadata_cache.go:49-62 | a market resolve looks under the condition found for its token, forced as asked |
| MetadataAnswers.GivingUpDisturbsNothing | clob/order_metadata_cache.go:75-91 | a cancelled waiter ends with the cancellation and changes nothing else |
| MetadataAnswers.ServedWasSent | clob/order_metadata_cache.go:59-219 | in every run each value handed out was sent in a response: the value itself, asked for under that key, or for a token the condition of a market that lists it; a market handed out lists the token or no tokens |
| TokenClear.HonestRunsLink | clob/order_metadata_cache.go:120-127 | with a fixed mapping and listed tokens, in every run each token of a cached market maps to that market |
| TokenClear.FreshAfterClearToken | clob/order_metadata_cache.go:148-219 | under the same promise, a resolve for a token that starts after the token was cleared only returns metadata whose fetch was registered after the clear |
| TokenClear.ClearTokenDropsExactly | clob/order_metadata_cache.go:292-301 | whatever the gateway answers, clearing a token drops a cached market if and only if the condition cache maps the token to it |
| TokenClear.FreshOnceDropped | clob/order_metadata_cache.go:292-301 | if the market was dropped or not cached, every later resolve under its condition returns only metadata fetched after the clear |
| TokenClear.StaleOnceKept | clob/order_metadata_cache.go:62-71 | otherwise a market resolve that starts after the clear, while the entry lives, is presented the metadata fetched before the clear: as its result if that lists the token or no tokens, else as an error |
| TokenClear.StaleResolve | clob/order_metadata_cache.go:49-71 | so does a whole resolve of the token that starts after the clear, condition first, when the gateway names the same condition again and the market lists the token or no tokens: its result is the metadata fetched before the clear |
| TokenClear.UnlistedMarketEscapes | clob/order_metadata_cache.go:292-301 | a run in which a resolve that starts after the clear of its token returns metadata fetched before it |
| GuardedRegions.GuardedCache.constructor | clob/cache_state.go:38-52 | an empty cache at generation zero |
| GuardedRegions.GuardedCache.Look | clob/order_context.go:71-79 | the entry if it is present and has not expired, and the generation |
| GuardedRegions.GuardedCache.Commit | clob/order_context.go:87-92 | the fetched value is stored exactly when the generation is the one looked at |
| GuardedRegions.GuardedCache.Set | clob/client.go:326-334 | the value is stored and the generation grows |
| GuardedRegions.GuardedCache.Clear | clob/client.go:300-306 | the token's entry goes and the generation grows |
| GuardedRegions.GuardedCache.Invalidate | clob/client.go:352-356 | every entry goes and the generation grows |
| GuardedProtocol.Reachable | clob/order_context.go:66-145 | the invariant of one guarded cache holds after every schedule |
| GuardedProtocol.FetchedIsFresh | clob/order_context.go:66-145 | a fetched entry is the answer of a fetch for that token which began after every set, clear or invalidation that concerns the token |
| GuardedProtocol.LastWriteWins | clob/client.go:300-365 | the last write of a token stands, set or cleared, until a fetch that began after it stores its answer |
| GuardedProtocol.UndisturbedFetchIsServed | clob/order_context.go:78-92 | a fetch that no write overtook is stored; the next resolution is served it if and only if its lifetime has not passed, and fetches again if it has |
| GuardedProtocol.OvertakenFetchIsDropped | clob/order_context.go:81-92 | a fetch that a write overtook gives its caller the value and leaves the cache as it is |
| GuardedProtocol.FailedFetchStoresNothing | clob/order_context.go:81-84 | a failed fetch gives its caller the failure and leaves the cache as it is |
| GuardedProtocol.WriteIsServed | clob/client.go:300-345 | after a write the next resolution is served the value set while its lifetime lasts, and fetches after a clear or once it has passed |
| TickClear.Reachable | clob/client.go:300-365 | after every schedule of sets, fetches, commits, clears of one tick or all and clears of neg-risk flags, what stands for a token that is being or was cleared was written after the clear began, and if it was asked for before, a load wrote it before the clear returned |
| TickClear.StaleExactly | clob/client.go:300-365 | after a clear of one token or of all has returned, the tick of a covered token was asked for before the clear if and only if a load registered before it set the tick between its first and its last lock, with nothing touching it since |
| TickClear.Positions | clob/client.go:300-313 | the times of a clear and of a load in that statement are the positions of their steps in the schedule |
| TickClear.OldTickSurvivesClear | clob/order_metadata_cache.go:120-144 | a run in which a tick asked for before the clear is cached after the clear returned |
| HeartbeatRegions.AuthenticatedClient.constructor | clob/heartbeat.go:23-35 | no loop is registered and the lifecycle is open |
| HeartbeatRegions.AuthenticatedClient.Register | clob/heartbeat.go:44-61 | refused when closed or active, else the loop is registered with its own cancel and done, and its interval is positive |
| HeartbeatRegions.AuthenticatedClient.BeginClose | clob/heartbeat.go:90-97 | closes for good and takes the loop to wait for, if there is one |
| HeartbeatRegions.AuthenticatedClient.Leave | clob/heartbeat.go:113-121 | a loop unregisters only itself |
| HeartbeatRegions.AuthenticatedClient.AdoptHeartbeatID | clob/heartbeat.go:168-174 | only the registered loop changes the identifier |
| HeartbeatProtocol.Reachable | clob/heartbeat.go:40-174 | the lifecycle invariant holds after every schedule |
| HeartbeatProtocol.OneLoop | clob/heartbeat.go:40-121 | at most one loop runs; it is registered, with its own cancel function and done channel, exactly while it runs; done closes once, when it ends |
| HeartbeatProtocol.OnlyTheLoopAdopts | clob/heartbeat.go:126-174 | the identifier changes only when the registered loop adopts one it was told, no such adoption is lost, and every post carries the current identifier |
| HeartbeatProtocol.TickPostsCurrent | clob/heartbeat.go:130-135 | a tick posts the current identifier |
| HeartbeatProtocol.AcceptedRotates | clob/heartbeat.go:157-163 | an accepted post rotates to the identifier it names, or keeps the current one if it names none, and waits for the next tick |
| HeartbeatProtocol.MismatchRetriesOnce | clob/heartbeat.go:136-150 | a first mismatch adopts the expected identifier and posts it at once; a second one waits with the identifier it has |
| HeartbeatProtocol.FailureWaits | clob/heartbeat.go:151-154 | any other failure waits for the next tick and changes nothing |
| HeartbeatProtocol.CanceledLoopEnds | clob/heartbeat.go:108-139 | after a cancellation an error or an idle loop ends, unregisters and closes its done channel |
| HeartbeatProtocol.StopFindsTheLoop | clob/heartbeat.go:69-106 | a stopping or closing caller returns at once if and only if no loop runs; else it cancels that loop and waits for it |
| HeartbeatProtocol.ClosedByClosing | clob/heartbeat.go:67-106 | the lifecycle is closed if and only if a caller closed it; stopping never closes it |
| HeartbeatProtocol.ConfiguredInterval | clob/heartbeat.go:53-58 | every loop ticks at the configured interval, or every five seconds when none is configured |
| HeartbeatProtocol.ClosedForGood | clob/heartbeat.go:89-106 | after a close or shutdown has returned without error no loop runs, none ever starts, and nothing changes any more |
| HeartbeatProtocol.JoinedLoopIsGone | clob/heartbeat.go:69-85 | a caller that waits returns without error if and only if the loop it waited for has gone |
| HeartbeatProtocol.CanStartAgain | clob/heartbeat.go:40-65 | until the lifecycle is closed, a loop can start whenever none runs |
| EoaCalls.Wallet.constructor | clob/wallet_transactions.go:253-371 | a wallet is a script of answers in which a send without error has a hash and a node that answers without error has a receipt, of either status and any transaction; a signer that completes transactions may answer anything |
| EoaCalls.Wallet.BroadcastWalletCall | clob/wallet_transactions.go:270-371 | sending is logged; the caller's own list may change meanwhile |
| EoaCalls.Wallet.WaitWalletCallReceipt | clob/wallet_transactions.go:253-268 | a wait ends without error only with a receipt of success, from a node only with one of the very transaction, and never for the zero hash; such an answer passes; waiting is logged with the call and the hash |
| EoaCalls.CheckCompletion | signing/waiting.go:65-96 | without a receipt there is an error, a revert is an error, and a receipt survives errors |
| EoaCalls.CheckReceipt | clob/wallet_transactions.go:123-145 | an error stays an error and a receipt of another transaction is never kept; one of this transaction is kept, and passes if and only if it did not revert |
| EoaCalls.AttemptsArePrefix | clob/wallet_transactions.go:186-249 | in an ordered log the attempts are a prefix of the calls, in order, and there is one for every call sent when nothing failed |
| EoaCalls.AttemptsRecord | clob/wallet_transactions.go:213-246 | every call sent is recorded, except a last one that never left; each record has the hash and the receipt of its wait, or the retained submission of a failed send |
| EoaCalls.InOrderExtended | clob/wallet_transactions.go:213-247 | one more event after nothing has failed keeps the order and extends the attempts by just that event |
| EoaCalls.WalletTransactionHandle.constructor | clob/wallet_transactions.go:208-212 | a handle starts without attempts and remembers the number of requested calls |
| EoaCalls.WalletTransactionHandle.Record | clob/wallet_transactions.go:215-232 | a send is recorded exactly when it has a hash or retains a submission, in the attempts and in the public records alike |
| EoaCalls.WalletTransactionHandle.Confirm | clob/wallet_transactions.go:241-242 | the receipt is recorded with the last attempt, in both records |
| EoaCalls.Prepare | clob/wallet_transactions.go:197-207 | the whole intent is copied if and only if every value is a 256-bit number |
| EoaCalls.SendAndConfirm | clob/wallet_transactions.go:213-247 | one round keeps the log in order and the handle equal to the attempts of the log, and succeeds exactly when the call was sent and, unless it is the last, confirmed |
| EoaCalls.ExecuteEOACalls | clob/wallet_transactions.go:186-249 | whatever the wallet answers, a call is sent only after the one before it was confirmed by its own hash; the handle holds exactly the attempts made; success means every call was sent and all but the last confirmed; nothing is sent if any value is invalid |
| EoaCalls.WaitReceipts | clob/wallet_transactions.go:65-113 | succeeds if and only if every requested call was attempted and every attempt is confirmed now, with a receipt of success for each call in order; a failed recheck keeps the receipt seen earlier |
| OrderMath.SupportedTick | clob/order_math.go:11-18 | for every supported tick the price and size places add up to the amount places, at most six, and the tick lies on the price grid |
| OrderMath.RoundDownValue | clob/order_math.go:20-22 | whatever places a decimal reports, rounding down truncates its value onto the grid |
| OrderMath.RoundNormalValue | clob/order_math.go:24-26 | rounding to the nearest gives the grid value at most half a step away, with a tie going up |
| OrderMath.RoundToAmountValue | clob/order_math.go:36-45 | two-pass rounding is the identity on the amount grid, rounds up a remainder in the last ten-thousandth of a step, and otherwise rounds down |
| OrderMath.WholeUnits | clob/order_math.go:51-53 | a value of at most six places is a whole number of base units |
| OrderMath.ExactProduct | clob/order_math.go:51-53 | a product within the places of an amount loses nothing |
| MaxSpend.ExactMaxSpend | clob/order_math.go:59-111 | in exact arithmetic the adjusted amount is at most the requested one and, with platform and builder fees, at most the budget |
| MaxSpend.ExactShrinkIsLargest | clob/order_math.go:85-103 | when it shrinks, a six-decimal amount fits the budget with its fees if and only if it is at most the adjusted one |
| MaxSpend.ShrunkMaxSpend | clob/order_math.go:67-111 | with 19-place truncation a shrunk amount with its exact fees exceeds the budget by at most adjusted * ((1 + rate) / price + 1) units of 10^-19 |
| MaxSpend.ShrunkFits | clob/order_math.go:85-103 | times the computed divisor, a shrunk amount is within the budget, and it exceeds the requested amount by at most one unit of 10^-19 for each dollar |
| SpendCondition.ShrunkKeepsBudgetExactly | clob/order_math.go:85-103 | on given price and fee terms no shrunk buy exceeds its budget, whatever amount and budget, if and only if the computed divisor is the exact one |
| SpendCondition.KeptKeepsBudgetExactly | clob/order_math.go:74-101 | a buy of a given amount and terms, when kept, exceeds no budget if and only if its exact cost is at most one unit of 10^-19 above the computed total |
| SpendCondition.NeverExceedsRequestExactly | clob/order_math.go:74-103 | no budget makes the code return more than a given amount, shrunk or kept, if and only if the total computed for the amount is less than the next six-decimal amount times the computed divisor |
| SpendCondition.ShrunkExceeds | clob/order_math.go:85-103 | a shrunk buy exceeds its amount if and only if the budget pays, at the computed divisor, for the next six-decimal amount |
| SpendCondition.ShrunkBuyExceedsRequest | clob/order_math.go:85-103 | a buy of an amount just below 1000, with its own computed total as budget, for which the code returns 1000 |
| SpendCondition.LosslessKeeps | clob/order_math.go:67-83 | where fee rate, quotient and both products lose nothing, a kept buy exceeds no budget |
| SpendCondition.SmallerDivisorOverspends | clob/order_math.go:85-103 | where the computed divisor is smaller than the exact one, the buy whose amount and budget are that divisor returns 1 and costs more |
| SpendCondition.ShrunkBuyOverspends | clob/order_math.go:85-103 | a shrunk buy, at price 0.3 and a flat fee of one cent, whose exact cost exceeds its budget |
| SpendCondition.KeptBuyOverspends | clob/order_math.go:74-101 | an amount, price and rate at which a kept buy exceeds some budget |
| SpendCondition.FeeRateOnGrid | clob/order_math.go:67-72 | the computed fee rate is a decimal of at most 19 places |
| MaxSpend.ShrunkAtLeastExact | clob/order_math.go:67-111 | it is never below the largest amount that fits in exact arithmetic |
| MaxSpend.ShrunkWithinRequest | clob/order_math.go:85-103 | below ten trillion dollars a requested six-decimal amount is never exceeded |
| MaxSpend.KeptMaxSpend | clob/order_math.go:99-111 | a kept amount is the requested one truncated to six places, and its exact cost exceeds the budget by at most the stated units of 10^-19 |
| MaxSpend.AdjustSucceeds | clob/order_math.go:85-110 | the adjustment refuses exactly the buys that are left without one whole base unit |
| MaxSpend.AdjustedIsWhole | clob/order_math.go:103-110 | an adjusted amount is a positive number of whole base units |
| MaxSpend.FeeRateLoss | clob/order_math.go:67-72 | the computed platform fee rate is below the exact one by at most (1 + rate) units of 10^-19 |
| LimitOrder.ExactCollateral | clob/limit_order.go:114-168 | at an accepted price and size every rounding step is the identity |
| LimitOrder.LimitOrderIsExact | clob/limit_order.go:109-179 | for every supported tick, side, accepted price and size, with or without a budget, collateral base units are share base units times the price, exactly; without a budget the shares are the requested size |
| LimitOrder.AcceptedMakesOrder | clob/limit_order.go:109-179 | without a budget an accepted price and size make an order if and only if the tick is supported, the size has at most two places and it fits 256 bits |
| LimitOrder.PlainAmounts | clob/limit_order.go:114-168 | the amounts of such an order are the base units of the size and of size times price, in the order of the side |
| LimitOrder.BudgetedLimitBuy | clob/limit_order.go:138-156 | a budgeted buy succeeds if and only if the adjusted amount pays for a hundredth of a share and the shares fit; its shares are the most hundredths that the adjusted amount pays for, and its collateral is exactly their price |
| LimitOrder.CoveredBuyIsWhole | clob/limit_order.go:138-156 | a buy that its budget covers in full gets exactly the requested size |
| LimitOrder.BuiltHasPassed | clob/limit_order.go:114-149 | an order that was built has a supported tick, a size of at most two places and, with a budget, known fees |
| LimitOrder.QuotientShares | clob/limit_order.go:150-154 | dividing at 19 places and truncating is truncating the exact quotient: the most shares, at those places, that the amount pays for |
| LimitOrder.BudgetedLimitSpend | clob/limit_order.go:138-156 | what a budgeted buy spends, with its exact fees, is within the budget up to the stated units of 10^-19 |
| MarketOrder.BuildSignedMarketOrder | clob/market_order.go:127-207 | the step-by-step build equals the specification whose amounts the `MarketAmounts` rows state for every kind of order |
| MarketAmounts.PlainBuyAmounts | clob/market_order.go:143-190 | a buy without a price bound and a budget signs the whole base units of its amount as maker and the shares they buy at the price as taker, and is signed if and only if both fit |
| MarketAmounts.UnboundedBuyAmounts | clob/market_order.go:143-190 | the same with a budget, for the amount that the budget leaves |
| MarketAmounts.BoundedBuyAmounts | clob/market_order.go:161-190 | with a price bound the dollars are truncated to base units and the shares are the most they pay for; signed if and only if the guard passes and both fit |
| MarketAmounts.SellAmounts | clob/market_order.go:177-190 | a sell signs its amount in hundredths of a share and exactly that times the price, if and only if a hundredth is left and fits; a bound changes nothing |
| MarketAmounts.BuyRefusals | clob/market_order.go:145-160 | a budget without known fees, or one that the adjustment refuses, refuses the order with that error |
| MarketAmounts.BudgetedMarketSpend | clob/market_order.go:145-176 | what a budgeted market buy signs, with its exact fees, is within the budget up to the stated units of 10^-19 |
| MarketOrder.SellMeetsGuard | clob/market_order.go:264-287 | a protected sell with any shares left after truncation passes the guard, because its encoded price is the order price exactly |
| MarketOrder.BuyMeetsGuard | clob/market_order.go:161-190 | a protected buy never encodes a price below its own, and passes the guard once its shares reach price * 10^(4 - amount places) |
| MarketOrder.BuiltIsProtected | clob/market_order.go:259-288 | a built protected order at an aligned price encodes at least that price, and a buy less than 0.0001 above it |
| MarketOrder.AlignedRoundsToItself | clob/order_validation.go:103-119 | a price on the tick grid survives the rounding of the builder |
| MarketOrder.Rebuild | clob/market_order.go:105-124 | the order is built again at the refreshed tick if and only if there is one and both prices stand there |
| MarketOrder.OnlyProtectedOrdersRebuild | clob/market_order.go:94-113 | only an order with a price bound can fail the guard, so the rebuild has a bound to check |
| MarketOrder.CreateMarketOrder | clob/market_order.go:15-125 | whatever the caches and the gateway answer, also after refresh and rebuild: a signed buy with MaxPrice encodes at least its tightened price and less than 0.0001 above it, a signed sell with MinPrice at least MinPrice; an order is signed only if nothing refuses it before its amounts, and then has those of the tick that serves it or, if only the guard refused them, of the refreshed one |
| MarketOrder.Admit | clob/market_order.go:20-92 | arguments, order type, ticks, price (the own, tightened, or the calculated market price) and risk flag admit an order if and only if none of them refuses it |
| MarketOrder.TightenedIsStricter | clob/market_order.go:24-32 | the price of an order with a bound is the bound unless the order names a stricter price |
| MarketOrder.FirstTickThatServes | clob/order_context.go:11-42 | the tick that serves is the given one if the price passes there, else the refreshed one if the caller did not fix the tick and the price passes there, else none |
| MarketOrder.PassesExactly | clob/order_validation.go:58-119 | the prices that pass at a supported tick, within its places, are exactly the whole numbers of ticks strictly between zero and one |
| DecimalGrammar.RecognizeSound | internal/polyjson/decimal.go:16-18 | what is recognised is spelled by the text |
| DecimalGrammar.RecognizeComplete | internal/polyjson/decimal.go:16-18 | every well-formed numeral is recognised as itself |
| RestDecimal.Decimal | clob/rest_decimal.go:14-74 | a well-formed text is accepted if and only if its exponent fits 64 bits and its value is zero or has at most 19 places and is below 10^39, and else refused for the exponent or the range; the text handed on is plain and has exactly the value of the input |
| RestDecimal.Split | clob/rest_decimal.go:22-42 | sign, digits, exponent and fraction length of a well-formed text |
| RestDecimal.Rescale | clob/rest_decimal.go:43-68 | the second half accepts exactly zero and the representable values, so its early bound on the exponent refuses nothing that the later checks would accept |
| RestDecimal.RangeExact | clob/rest_decimal.go:57-60 | the checks on scale and length accept a trimmed non-zero number if and only if it has at most 19 places and is below 10^39 |
| RestDecimal.RenderedValue | clob/rest_decimal.go:61-68 | the rendered text spells a plain numeral of exactly the intended value |
| ShiftDecimal.ShiftDecimal | data/scalars.go:109-144 | a well-formed text is refused if and only if its exponent is beyond 10000; else the result is plain, has no superfluous zeros behind the point, and its value is exactly the input's times 10^places |
| ShiftDecimal.Place | data/scalars.go:132-143 | putting the point anywhere, before, inside or behind the digits, and trimming gives the exact value |
| ShiftDecimal.ScanExponent | data/scalars.go:117-125 | the mantissa before the mark, and the exponent if it parses and is within the limit |
| ShiftDecimal.Scan | data/scalars.go:110-130 | sign, digits, position of the point and exponent of a well-formed text |
| ComboE6.RoundTrip | clob/combo_rfq.go:863-879 | every numeral of base units, written as a decimal and read back, is the same number if it is positive and fits 256 bits, and is refused otherwise |
| ComboE6.OnlyNumerals | clob/combo_rfq.go:864-870 | nothing but a non-empty string of digits is converted |
| ComboE6.ReadThenWritten | clob/combo_quoter_quote.go:37-48 | an accepted text, read and written back, is its normal spelling without superfluous zeros on either side |
| ComboE6.OneNormalForm | clob/combo_rfq.go:863-879 | accepted texts of the same amount have one normal spelling, and it keeps the amount |
| ComboE6.PositiveE6Exact | clob/combo_quoter_quote.go:37-48 | accepted are exactly the plain unsigned decimals with digits before the point, at most six places, and a positive 256-bit number of base units; the result is that number |
| ComboQuote.BuildQuote | clob/combo_quoter_quote.go:64-133 | a quote is made if and only if the request is valid, the price is between zero and one, the source is known and the size asked for is acceptable; token, side, size and rounded collateral are then those of the quote |
| ComboQuote.MakeSize | clob/combo_quoter_quote.go:87-104 | the response's own size, the requested shares, or the most shares that the requested notional pays for |
| ComboQuote.MakeAmounts | clob/combo_quoter_quote.go:120-130 | shares are the size; collateral is rounded up when paid and down when taken in |
| ComboQuote.QuoteMeetsRequest | clob/combo_quoter_quote.go:110-130 | a buyer is met by selling YES at the price or buying NO at what is left of one, a seller by buying YES or selling NO, with the collateral rounded up when paid and down when taken in |
| ComboQuote.CollateralIsConserved | clob/combo_quoter_quote.go:110-130 | bought with collateral and sold from inventory, the same request at the same price and size pays and takes in exactly the size, in opposite outcomes |
| ComboQuote.NotionalQuoteCost | clob/combo_quoter_quote.go:90-130 | a notional-sized quote paid with collateral stays within the notional if and only if it does not buy the other outcome or the price is at least one half |
| ComboQuote.NotionalCovers | clob/combo_quoter_quote.go:90-130 | at the quoted price itself the shares never cost more than the notional |
| ComboQuote.BuyingTheOtherOutcomeCostsMore | clob/combo_quoter_quote.go:90-130 | a request for "0.000001" of notional answered at "0.1" is accepted, and the one quote of it takes nine base units of collateral |
| PositionIds.PositionIDs | clob/ctf_v2.go:42-48 | the two positions encode the condition with outcome zero and one, and are consecutive |
| PositionIds.DecodeV2PositionID | clob/ctf_v2.go:51-66 | the in-place decoding equals the specification that the two inverse lemmas are about |
| PositionIds.DecodesExactly | clob/ctf_v2.go:51-66 | accepted are exactly the numbers whose top byte is 1, 2 or 3 and whose last byte is 0 or 1 |
| PositionIds.EncodeThenDecode | clob/ctf_v2.go:42-66 | decoding an encoded position gives back condition and outcome, for exactly the supported modules |
| PositionIds.DecodeThenEncode | clob/ctf_v2.go:51-66 | encoding what was decoded gives back the position |
| PositionIds.SameShift | clob/ctf_v2.go:90-92 | two positions agree without their last byte if and only if their conditions are the same |
| ComboLegs.CanonicalComboLegs | clob/ctf_v2.go:70-97 | accepted if and only if there are 1 to 50 binary or neg-risk legs, no two of the same condition, although only neighbours are compared; the result is their ascending permutation |
| ComboLegs.CopyLegs | clob/ctf_v2.go:74-87 | the legs are copied if and only if each is a position of the binary or neg-risk module |
| ComboLegs.LegsExactly | clob/ctf_v2.go:75-86 | the legs are exactly the positions of modules 1 and 2 with outcome 0 or 1 |
| ComboLegs.NeighboursSuffice | clob/ctf_v2.go:89-95 | in an ascending list neighbours differ in condition if and only if all do |
| ComboLegs.AnyOrder | clob/ctf_v2.go:70-97 | every reordering of the legs is accepted or refused alike and gives the same list |
| ComboLegs.SortedOnce | clob/ctf_v2.go:88-88 | an ascending permutation is unique, so it does not matter how the list is sorted |
| ComboRequest.NormalizeLegIds | clob/combo_rfq.go:731-754 | accepted if and only if there are 2 to 50 identifiers, all 256-bit numbers, none given twice however it is spelled; the result spells the same numbers canonically in ascending order |
| ComboRequest.ReadLegs | clob/combo_rfq.go:737-749 | remembering spellings detects exactly the repeated numbers |
| ComboRequest.NormalizedOnce | clob/combo_rfq.go:750-754 | lists with the same numbers have one normal form |

## Left out

- Transport, authentication headers, JSON decoding, signing, EIP-712 and Keccak hashing, ABI packing, relayer
  batches, pagination, perpetuals and the wide response types: plumbing or foreign code, whose results are
  arbitrary parameters here.
- Generations are unbounded numbers; the source's 64-bit counters would wrap after 2^64 clears.
- Clocks appear only as a time given with each look and an expiry given with each commit.
- OrderMetadataCache.ClientCaches.SettleMarket: leaves the tick sizes and neg-risk flags that a commit also sets to
  `TickClear`, because they are in other caches under other locks; `TickClear` has the ticks, and the flags are set
  and cleared the same way.
- Claims across caches are made for tick sizes only.
- Checks of a completed transaction against the signed call, its sender and its block: signing and node data are
  foreign, so the answer's receipt carries only its transaction and its status.
- The server-version cache has no generation and makes no such promise.
- Tick-size and neg-risk resolution after the cache: the caller's own tick option and its comparison with the
  market's are not modelled, except for the one refresh of a rejected price.
- The internals of the decimal library: products, quotients and powers are taken to be exact, then truncated at 19
  places; the final parse of a plain decimal text is taken to be exact on the range shown representable.
- `slices.SortFunc` is modelled by the ascending permutation it returns, not by its algorithm.
- The event half of inbound frames (field checks of requests, quotes and fills) leaves pending commands alone and
  is not modelled beyond that.
- The ticker of a heartbeat loop: a tick may happen at any time.
- The order in which a map is walked is arbitrary, as in the source.
- The account check that precedes quotes and wallet calls, and contract lookup, salt and signature that follow
  the amounts.
- The book walk that finds the price of an unprotected market order is a parameter.
- Texts outside the decimal grammar never reach the scaling of payouts, because decoding the wire type refuses
  them; the contract speaks of texts inside it.
- Deriving a combo condition hashes the canonical legs; the hash is foreign.
