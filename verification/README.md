# Kaspire wallet core: verified models

Dafny models of the parts of the Kaspire wallet that decide what gets signed, and of the gateway that merges account
histories, with proofs of what those parts promise.

- **Token payments** (`Ledger`, `TokenCells`, `TokenPlan`, `TokenPlanLength`, `TokenPlanLedger`, `TokenPlanProgress`,
  `TokenPlanContract`, `TokenPlanTransfer`): the planner that pays with a chain of transactions, exactly which transfers
  it prepares, its exact length, the execution of the whole chain on a ledger with consensus rules, when the planner
  succeeds, and the token contract each step meets.
- **Account history** (`History`, `HistoryMerge`, `HistoryWindows`, `HistorySources`): two backends, windowed fetches,
  one merged feed, and what is answered when a backend fails.
- **Vault templates** (`VaultTemplates`, `VaultTemplateMeaning`, `VaultTemplateItems`): the build-time generator, the
  program it emits as an instruction list, an interpreter that gives that program its meaning, and both seen from the
  contract's own instructions.
- **Push scripts** (`Bytes`, `PushScript`): push encodings and the parser that recovers the last push.
- **Desktop session** (`SessionState`, `Session`, `SessionLaw`, `SessionCalls`, `SessionRuns`, `SessionTime`,
  `SessionVault`, `SessionProgress`, `SessionRules`): reviews, one-use tokens, unlocking, expiry, wallets, cancelling
  and locking, over every run of native calls, exactly when each call succeeds, and when a transaction gets signed.
- **Braid swaps** (`BraidPool`, `BraidFee`, `BraidNotes`, `BraidLayout`, `BraidDeposit`, `BraidReview`): pool valuation,
  the partner fee, note and state layouts, and the accounting of a deposit.
- **Kasseal swaps** (`KassealToken`, `Kasseal`, `KassealReview`, `KassealWrap`, `KassealPrepare`,
  `KassealPrepareReview`): pinned programs, token states, swaps against the reviewed terms, and preparations.
- **dot.k names** (`DotkDeed`, `DotkMarket`, `DotkRules`): deeds, the marketplace builder, exactly what it builds, and
  the sale contract its transactions meet.
- **Covenant Wyrm** (`Wyrm`, `WyrmContract`): the wallet's transitions and the contract on chain.
- **Forge notes** (`ForgeNotes`), **EVM integers** (`EvmInteger`), **reveal fees** (`RevealFee`).
- `Wrappers`, `Words`, `Sorting` and `Totals` hold what several models share.

Code that works step by step is a method with its loop, proved equal to a function or to a declarative predicate; the
results are then lemmas about that function or predicate. The session is a class whose methods change its fields, each
tied to a step function over the session's state. Run `dafny verify dfyconfig.toml`.

Conventions. A hash is a constructor or an opaque value, so equal hashes mean equal contents. What libraries compute
(network fee, mass, contract compilation, key and curve checks) is a function parameter about which nothing is assumed
unless a lemma says so. Machine integers are numbers with their bounds written out. Where the Rust code panics by
unwrapping or asserting at build time, the model returns nothing.

What the models show about the code beyond its own documentation:

- The 32-transaction limit of the payment planner can refuse a payment its checks let through: 65 one-token cells, a
  borrowed receive cell and a three-input program. No fees and no funding give it a plan
  (`TokenPlanLength.LongestPaymentFails`); with one coin of 100 KAS and any fees in range for transfers of at most four
  inputs the limit alone refuses it, and the same payment without the borrowed cell succeeds
  (`TokenPlanProgress.LongestPaymentIsRefused`). `TokenPlanProgress.PlanSucceedsExactly` is the exact condition for
  every backed request some n of whose coins pay for all steps, provided that transfers of at most n plain coins beside
  the token cells are within the mass limits and cost at most 0.4999 KAS each.
- The vault generator reproduces the compiled script from the original parameters only if every matched push uses the
  one-byte length form; otherwise the rebuilt script is strictly shorter (`VaultTemplateMeaning.RoundTripExactly`).
  `VaultTemplateMeaning.LongFormIsLost` is a script it accepts and does not rebuild. It is one the generator would
  accept, not one the contract compiler is known to emit.
- The offset 0, limit 1 shortcut of the history gateway answers what the merge would exactly when the public backend has
  nothing newer and no richer row of the newest own transaction (`HistoryWindows.ShortcutExactly`);
  `HistoryWindows.ShortcutMisses` is a case where it does not.
- With transactions of equal time, a page can show the poorer of two rows of a transaction, because the richer one lies
  beyond the fetched window (`HistoryWindows.TiedRowsCanDiffer`). `HistoryWindows.PageIsWholeExactly` says exactly when;
  a tie across the edge of the window is needed (`HistoryWindows.PageIsExact`), and ids and times are always those of
  the whole history (`HistoryWindows.PageOfWholeHistory`).
- A restore that stores keys and then fails changes the active wallet without revoking the reviews of the old one,
  exactly when it did not have to ask for the password (`SessionRuns.ActiveChangeRevokes`;
  `SessionRuns.HalfRestoreKeepsReviews` is such a run). What is left over is refused while another wallet is active:
  reviews and tokens name the wallet they were made for, and `SessionRuns.EverySignatureIsAuthorized` covers these runs
  too.
- A Kasseal swap adds the KAS in the wallet's own token cells without an overflow check. Release builds wrap there, and
  the venue's cells are then off by whole words (`Kasseal.SellMovesWraps`, `Kasseal.BuyMovesOwnCells`;
  `KassealWrap.WrappedSaleIsAccepted` and `KassealWrap.WrappedPurchaseIsAccepted` are such swaps for any trusted pool,
  of more KAS than will ever exist). `Kasseal.VenueCells` is what holds while the sums fit.
- A Wyrm request that still carries a feed kind for another action passes the wallet's own checks, and the contract
  refuses the transaction: `WyrmContract.WalletMeetsContract` is the exact condition.
- An accepted Kasseal purchase hands the KAS of the wallet's empty token cells to the venue's cells
  (`Kasseal.VenueCells`, `Kasseal.WalletPaysTheReview`).
- Several checks can never fail where they stand: the two-percent guard of the partner fee, the length check of the
  Braid state, mixed programs in a Braid deposit (`BraidDeposit.OneProgram`), token sum overflow in Kasseal, the debit
  checks of a Kasseal preparation.

## Model

| member | source | states |
|---|---|---|
| TokenCells.LeadingPartIsHeaviest | crates/kaspa_secure_core/src/kcc20_plan.rs:91-105 | No choice of cells outweighs equally many of the largest ones. |
| TokenCells.RequiredIsLeastCover | crates/kaspa_secure_core/src/kcc20_plan.rs:91-105 | The greedy count over sorted cells is the least number of cells of any choice that covers the amount. |
| TokenPlan.PositionCovering | crates/kaspa_secure_core/src/kcc20_plan.rs:97-105 | The scan finds exactly that count, or nothing when the cells do not cover the amount. |
| TokenPlan.Turn | crates/kaspa_secure_core/src/kcc20_plan.rs:91-154 | One turn of the loop, with cells and funding changed as written, is one round of the specification. |
| TokenPlan.Build | crates/kaspa_secure_core/src/kcc20_plan.rs:39-158 | The loop terminates and returns the specified plan or the specified refusal, including the 32-step one. |
| TokenPlanLength.CompoundingLowersRequired | crates/kaspa_secure_core/src/kcc20_plan.rs:106-154 | Merging the L largest cells lowers the least cover by exactly L - 1. |
| TokenPlanLength.CompoundRoundNeeds | crates/kaspa_secure_core/src/kcc20_plan.rs:107-154 | A compounding round of the planner does so and keeps the token total. |
| TokenPlanLength.ExactLength | crates/kaspa_secure_core/src/kcc20_plan.rs:87-158 | A plan has exactly 1 + max(0, ceil((R - F) / (L - 1))) steps, R being the least cover of the original cells. |
| TokenPlanLength.TooManyStepsExactly | crates/kaspa_secure_core/src/kcc20_plan.rs:87-90 | The 32-step refusal is given only for payments needing more steps, such payments never succeed, and without a borrowed receive it is unreachable. |
| TokenPlanProgress.PlanSucceedsExactly | crates/kaspa_secure_core/src/kcc20_plan.rs:39-158 | For a request the ledger backs, whose n largest coins have KAS for each step, and a fee function that serves ordinary transfers with at most n plain coins, the plan succeeds exactly when 32 steps suffice, with the exact number of steps; otherwise it is refused with the 32-step error and no other. |
| TokenPlanProgress.LongestPaymentIsRefused | crates/kaspa_secure_core/src/kcc20_plan.rs:87-90 | A concrete payment funded by one coin passes every check and is refused by the 32-step limit for any fees in range on at most four inputs; without the borrowed cell it succeeds. |
| Ledger.AfterIsChained | crates/kaspa_secure_core/src/kcc20_plan.rs:132-154 | A valid transaction creates only unknown outpoints, leaves all coins it does not name, and keeps spent and live apart. |
| TokenPlanLedger.PreparedStepApplies | crates/kaspa_secure_core/src/kcc20_standard.rs:89-173 | A prepared step is a valid transaction of any ledger backing its request: live inputs, each once, KAS and tokens balanced. |
| TokenPlanLedger.CompoundRoundIsBacked | crates/kaspa_secure_core/src/kcc20_plan.rs:132-154 | After a compound the ledger holds exactly the cells and funding the next round starts from. |
| TokenPlanLedger.PlanExecutes | crates/kaspa_secure_core/src/kcc20_plan.rs:39-158 | A whole plan executes in order; the recipient ends with the payment, the sender with every other token. |
| TokenPlanLedger.NoDoubleSpend | crates/kaspa_secure_core/src/kcc20_plan.rs:132-147 | No two steps of an executed chain spend the same outpoint. |
| TokenPlanLedger.InputsExist | crates/kaspa_secure_core/src/kcc20_plan.rs:132-154 | Every input existed before the chain or is an output of an earlier step. |
| TokenPlanLedger.TotalFeeIsPaid | crates/kaspa_secure_core/src/kcc20_plan.rs:129-131 | The total fee shown is the sum of the fees of the steps. |
| TokenPlanContract.PlanPaysItsFees | crates/kaspa_secure_core/src/kcc20_standard.rs:144-166 | Every step of any plan pays exactly the fee worked out for its own inputs, token outputs and input total, and leaves change above dust. |
| TokenPlanContract.PlanMeetsContract | crates/kaspa_secure_core/src/kcc20_reference_10.sil:126-247 | On the ledger the earlier steps leave, every step is a transfer the token contract allows: compounding from the sender to the sender, the last one to the recipient, led by the lent cell and its threshold if there is one, with exactly the deposit in every cell, or the KAS of the lent one if that is more. |
| TokenPlanContract.CheckedExactly | crates/kaspa_secure_core/src/kcc20_plan.rs:39-75 | Exactly which requests pass the checks before the first step: 1 to 65 distinct non-empty cells covering the amount within the signed range, and lending within its rules. |
| TokenPlanTransfer.TransferExactly | crates/kaspa_secure_core/src/kcc20_standard.rs:89-166 | A single transfer is prepared exactly if lending, cells and token sums are in order and the shortest leading part of the coins reaching outputs and reserve pays outputs, fee and spendable change; the step is then that one. |
| TokenPlanTransfer.CellsInOrder | crates/kaspa_secure_core/src/kcc20_plan.rs:91-96 | Cells are taken largest first, equal amounts by outpoint. |
| TokenPlanTransfer.CoinsInOrder | crates/kaspa_secure_core/src/kcc20_standard.rs:131-132 | Coins are taken largest first, equal values in the order given. |
| History.RequestedWindow | ops/kaspa-api/gateway.py:168-181 | Both parameters reset to limit 20, offset 0 if one is no number; otherwise the limit is kept within 1 to 100 and a negative offset becomes 0. |
| History.Fetch | ops/kaspa-api/gateway.py:237-257 | Paging in hundreds terminates for any backend and returns the specified response. |
| History.PagedFetchIsWhole | ops/kaspa-api/gateway.py:237-257 | For a backend that does not change, the paged fetch equals one unpaged fetch. |
| History.Collect | ops/kaspa-api/gateway.py:209-222 | The dictionary loop: a known key keeps its place and the richer row, rows without an id get keys of their own. |
| History.MergedHistory | ops/kaspa-api/gateway.py:184-234 | The request handler: window limit, shortcut, merge, failures and slice, for any two backends. |
| HistoryMerge.FeedIsTheMerge | ops/kaspa-api/gateway.py:209-233 | For listings that agree on times, equal times allowed, dictionary and stable sort give every transaction once, with its richest row, newest first. |
| HistoryWindows.WindowKeepsOrder | ops/kaspa-api/gateway.py:168-181 | The first n transactions of the merge, in order, depend only on the first n rows of each source. |
| HistoryWindows.PageIsExact | ops/kaspa-api/gateway.py:184-234 | If no two public rows of equal time lie on both sides of the window's edge, the page served from two windows is exactly that page of the merged complete histories. |
| HistoryWindows.PageOfWholeHistory | ops/kaspa-api/gateway.py:184-234 | For any histories, equal times included, the page shows the same transactions at the same times as that page of the complete merge, and each with the same row if and only if the public history has no richer row of it beyond the window. |
| HistoryWindows.PageIsWholeExactly | ops/kaspa-api/gateway.py:184-234 | The whole page equals that page of the complete merge if and only if no transaction due on it has a richer public row beyond the window. |
| HistoryWindows.TiedRowsCanDiffer | ops/kaspa-api/gateway.py:184-234 | A concrete pair of histories with equal times where the page shows the poorer row. |
| HistoryWindows.PagesCoverHistory | ops/kaspa-api/gateway.py:184-234 | The replies to consecutive windows of one size, put together, show every transaction of the merge of the complete histories up to there, once, in order, at its time, as far as the gateway serves windows; with the same rows if and only if no page hides a richer one. |
| HistoryWindows.ShortcutExactly | ops/kaspa-api/gateway.py:199-205 | For any two backends the existence shortcut answers the first row of the complete merge if and only if the public listing has nothing newer and nothing richer for that row. |
| HistoryWindows.ShortcutMisses | ops/kaspa-api/gateway.py:199-205 | Two concrete backends where the answers differ. |
| HistorySources.OwnAlone | ops/kaspa-api/gateway.py:184-234 | If only the own indexer answers, the reply is that page of its history, unless that is empty and not in sync: then the failure is passed on. |
| HistorySources.PublicAlone | ops/kaspa-api/gateway.py:184-234 | If only the public source answers, the reply is that page of its history. |
| HistorySources.NeitherAnswers | ops/kaspa-api/gateway.py:223-231 | If both fail, the reply is the public error status, else the own one, else that there is no source; never a page. |
| HistorySources.NothingKnownExactly | ops/kaspa-api/gateway.py:223-231 | With no rows at all an empty page is answered if and only if the public source answered or the own indexer did and is in sync. |
| HistorySources.FeedOfAnyRows | ops/kaspa-api/gateway.py:209-234 | Whatever rows come in, the feed holds listed rows only, newest first, one for each transaction and none richer left out, and every row without an id as often as it was listed. |
| VaultTemplates.Walk | crates/kaspa_secure_core/build.rs:39-74 | The opcode walk finds the specified regions, or fails on missing bytes. |
| VaultTemplates.EmitChunk | crates/kaspa_secure_core/build.rs:92-112 | The chunk loop emits the specified marks and literals, cutting at layout boundaries inside. |
| VaultTemplates.Emit | crates/kaspa_secure_core/build.rs:113-127 | The region loop emits the specified program, or nothing when the layout cuts a region in two. |
| VaultTemplates.Generate | crates/kaspa_secure_core/build.rs:37-127 | The whole generator, including the check that every parameter was found. |
| VaultTemplates.RegionsAreOrdered | crates/kaspa_secure_core/build.rs:39-74 | The regions found are nonempty, in order, disjoint and inside the script. |
| VaultTemplateItems.WalkExactly | crates/kaspa_secure_core/build.rs:39-74 | The walk succeeds exactly on lists of pushes, in any form, and other opcodes, and finds exactly the pushes of a marker, at their positions. |
| VaultTemplateItems.GeneratedExactly | crates/kaspa_secure_core/build.rs:37-127 | A program is generated if and only if every parameter of that kind is pushed and no layout boundary lies inside such a push. |
| VaultTemplateItems.ProgramOfContract | crates/kaspa_secure_core/build.rs:84-132 | The program rebuilds the contract instruction by instruction with every marker push replaced, and a boundary at an instruction is recorded where that instruction ends up. |
| VaultTemplateItems.MarkerValues | crates/kaspa_secure_core/build.rs:20-36 | The bytes that stand for the parameters. |
| VaultTemplateMeaning.MovedIsPrefixLength | crates/kaspa_secure_core/build.rs:84-127 | Where a position moves to is the length of the substituted code before it. |
| VaultTemplateMeaning.ProgramMeaning | crates/kaspa_secure_core/build.rs:84-132 | Run with any parameters the program returns the script with each matched push replaced and the boundaries moved along; both offsets are set exactly when the layout lies within the script. |
| VaultTemplateMeaning.RoundTripExactly | crates/kaspa_secure_core/build.rs:37-132 | With the original parameters it returns the original script and layout if and only if every matched push has a one-byte length; otherwise the result is strictly shorter. |
| VaultTemplateMeaning.LongFormIsLost | crates/kaspa_secure_core/build.rs:37-132 | A concrete script with a longer length form that the generator accepts and its program does not rebuild. |
| VaultTemplateMeaning.SameBoundaries | crates/kaspa_secure_core/build.rs:40-74 | On every script the signature-script parser accepts, both walks stop at the same sequence of positions, and the regions found are exactly the marker pushes that parser sees. |
| PushScript.Redeem | crates/kaspa_secure_core/src/kasseal.rs:42-58 | The cursor loop stays in bounds, terminates, and returns the specified result. |
| PushScript.RedeemExactly | crates/kaspa_secure_core/src/kasseal.rs:42-58 | It accepts exactly the encodings of push sequences, in all five forms, that end with a nonempty push, and returns that push. |
| Session.Desktop.Invalidate | crates/kaspa_secure_core/src/desktop.rs:546-554 | Drops all tokens, reviews and the key and moves to a new generation. |
| Session.Desktop.SwitchWalletSession | crates/kaspa_secure_core/src/desktop.rs:571-581 | Revokes everything, but keeps a login that is still live. |
| SessionTime.OnlyPasswordReopens | crates/kaspa_secure_core/src/desktop.rs:582-596 | A login that expired or was locked stays so through every run of calls without a right password, refreshes included: no deadline moves, no key is taken, no token issued. |
| SessionTime.LoginEndsWithinTheHour | crates/kaspa_secure_core/src/desktop.rs:573-596 | Over every run with a clock that does not go back, the deadline is at most an hour past the last reading, and recorded readings never decrease. |
| SessionRuns.EveryIssueHadPassword | crates/kaspa_secure_core/src/desktop.rs:1271-1286 | In every run each token is issued right after the key was taken on a live login opened with a right password and not revoked since; for exports and deletions the password was entered right before. |
| SessionTime.AuthorizedWithPassword | crates/kaspa_secure_core/src/desktop.rs:1277-1286 | An authorization by a caller without a session, on an expired login, or of an export or deletion issues its token right after a right password in that call. |
| SessionTime.ExpiredTokensAreDropped | crates/kaspa_secure_core/src/desktop.rs:1099-1103 | No call leaves behind a token that had expired when the call began. |
| Session.Desktop.VerifyPassword | crates/kaspa_secure_core/src/desktop.rs:597-647 | A password check revokes, then opens the session on success. |
| Session.Desktop.Consume | crates/kaspa_secure_core/src/desktop.rs:843-863 | The token is gone whatever is then found wrong with it. |
| Session.Desktop.PrepareReview | crates/kaspa_secure_core/src/desktop.rs:1104-1162 | A review is stored for the active wallet in the current generation. |
| Session.Desktop.ObtainApproval | crates/kaspa_secure_core/src/desktop.rs:1271-1283 | Approval needs a live review of the same hash, operation and wallet. |
| Session.Desktop.AuthorizeOperation | crates/kaspa_secure_core/src/desktop.rs:1271-1286 | Approval, login check and issue of one token, in the code's order. |
| Session.Desktop.Sign | crates/kaspa_secure_core/src/desktop.rs:1163-1213 | A signature uses up its token and needs its operation, hash, wallet and generation. |
| Session.Desktop.Dispatch | crates/kaspa_secure_core/src/desktop.rs:1099-1310 | Every branch of the dispatcher moves session and vault as specified. |
| Session.Desktop.NativeCall | crates/kaspa_secure_core/src/desktop.rs:1325-1386 | A native call with cancellations and locks arriving before and during it. |
| SessionVault.UnlockedExactly | crates/kaspa_secure_core/src/desktop.rs:519-525 | The key is handed out if and only if the login is live or the password was right, and the wallets stay. |
| SessionVault.CallMovesVault | crates/kaspa_secure_core/src/desktop.rs:1258-1294 | Selecting, adding, restoring and deleting change the active wallet and the list as asked, exactly when they succeed; no other call touches them. |
| SessionVault.ActiveIsLastChoice | crates/kaspa_secure_core/src/desktop.rs:1258-1294 | After any run the active wallet is the one last selected, added, restored or left by a deletion. |
| SessionVault.EventsAreOfLastChoice | crates/kaspa_secure_core/src/desktop.rs:1104-1294 | In every run each review, approval, token and signature is for the wallet chosen last before the call that recorded it. |
| SessionProgress.TransactionIsSigned | crates/kaspa_secure_core/src/desktop.rs:1104-1286 | On a live login review, approval and signing end with the signature of exactly that transaction if and only if nothing expired on the way and the core signs. |
| SessionProgress.TokenAfterPassword | crates/kaspa_secure_core/src/desktop.rs:1271-1286 | On an expired login a reviewed and approved transaction gets its token if and only if the password is right, and the login is open again for the minutes asked. |
| SessionProgress.DeadlinesAreSet | crates/kaspa_secure_core/src/desktop.rs:573-596 | How long a password check and a refresh open the session. |
| SessionRules.OperationsExactly | crates/kaspa_secure_core/src/desktop.rs:1275-1281 | Which operations need a review and which always ask for the password; every transaction does the first and not the second. |
| SessionRules.ReviewsKept | crates/kaspa_secure_core/src/desktop.rs:1119-1122 | A new review finds the unexpired ones, unless there are more than a hundred. |
| SessionRules.PrepareExactly | crates/kaspa_secure_core/src/desktop.rs:1104-1162 | A review is stored for the active wallet and session exactly if the core made one, and in-app only through a validated plan. |
| SessionRules.UseExactly | crates/kaspa_secure_core/src/desktop.rs:843-863 | A token is gone after the call that names it, which succeeds exactly if operation, terms, wallet, session and time agree. |
| SessionRules.SignExactly | crates/kaspa_secure_core/src/desktop.rs:1163-1213 | A transaction is signed exactly with a token issued for its operation and review hash, and the signature says so. |
| SessionRules.DeleteExactly | crates/kaspa_secure_core/src/desktop.rs:1294 | A wallet is deleted exactly with a token for deleting that wallet, if the vault can be stored. |
| SessionRules.AuthorizeExactly | crates/kaspa_secure_core/src/desktop.rs:1271-1286 | A token is issued exactly with consent and the key, after a right password where one is due; what it holds, and the new deadline. |
| SessionRules.ReconfigureExactly | crates/kaspa_secure_core/src/desktop.rs:1251 | The password changes exactly with the old one and a login still live at the end, and everything is revoked. |
| SessionRules.OffersExactly | crates/kaspa_secure_core/src/desktop.rs:1253 | The offers page opens exactly on a live login; closing it revokes all but a live login. |
| SessionRules.EnteredExactly | crates/kaspa_secure_core/src/desktop.rs:1352-1359 | A call starts on the session as it was, unless a cancellation came since; then all is revoked, and a live login stays only if it was no lock. |
| SessionRules.HandledExactly | crates/kaspa_secure_core/src/desktop.rs:1341-1376 | A reply is released exactly if no cancellation came while the call ran; otherwise all is revoked, and what the vault stored stays. |
| SessionRules.CancelRevokes | crates/kaspa_secure_core/src/desktop.rs:1395-1410 | A cancellation revokes everything before the next call, and a lock takes the login at once. |
| SessionRules.LockCatchesCall | crates/kaspa_secure_core/src/desktop.rs:1365-1410 | A call caught by a lock is refused and loses even a login opened in it. |
| SessionRuns.EveryRunIsSound | crates/kaspa_secure_core/src/desktop.rs:1099-1386 | After any run all stored tokens and reviews carry the current generation and their recorded expiry, stand unrevoked, no token held was used, and the deadline is the one the history gives. |
| SessionRuns.EverySignatureIsAuthorized | crates/kaspa_secure_core/src/desktop.rs:1104-1286 | In every run each signature goes back to one issue, approval, right password and review of the same hash, operation and wallet, in order. Nothing is revoked from review to approval or from issue to use, and only by right passwords in between; approval and issue belong to one native call. Signed within a minute of the issue, approved within ten minutes of the review, the key taken before the deadline. No token signs twice. |
| SessionCalls.StepApproves | crates/kaspa_secure_core/src/desktop.rs:1271-1286 | Whatever a call, cancellation or lock adds to the history, each token it issues that needs a review was approved earlier in the same addition. |
| SessionRuns.SignatureIsAuthorized | crates/kaspa_secure_core/src/desktop.rs:1163-1286 | For any lawful history the same order, expiries and absence of revocations, returning the positions of review, approval, password and issue. |
| SessionRuns.TokensSignOnce | crates/kaspa_secure_core/src/desktop.rs:843-863 | Two signatures never share a token. |
| SessionRuns.ReleasedSignatureIsAuthorized | crates/kaspa_secure_core/src/desktop.rs:1339-1378 | After any run, a signature a call hands out is the one it just recorded, is authorized in that sense by an approval given in the call that issued its token, and nobody cancelled or locked since the call read the counter. |
| SessionRuns.ActiveChangeRevokes | crates/kaspa_secure_core/src/desktop.rs:1258-1294 | A change of the active wallet leaves everything unrevoked if and only if it is a restore that stopped half way and did not have to ask for the password. |
| SessionRuns.HalfRestoreKeepsReviews | crates/kaspa_secure_core/src/desktop.rs:1293 | A concrete run of that kind: the wallet changed and the review of the old one is still held. |
| BraidPool.Retain | crates/kaspa_secure_core/src/braid.rs:328-334 | The retained part is an exact ceiling division, asked only for positive payouts. |
| BraidPool.SmallerKeepsToo | crates/kaspa_secure_core/src/braid.rs:328-346 | Keeping the pool's product is monotone: what a payout keeps, every smaller one keeps. |
| BraidPool.LargestPayout | crates/kaspa_secure_core/src/braid.rs:335-346 | The binary search returns the largest payout below the reserve that keeps the product, without overflow. |
| BraidPool.ClosedFormIsLargest | crates/kaspa_secure_core/src/braid.rs:303-307 | The closed form of the other venue is the largest payout that keeps its product. |
| BraidPool.SearchIsClosedForm | crates/kaspa_secure_core/src/braid.rs:303-347 | With nothing to retain the search finds the closed form. |
| BraidPool.NeverMoreThanClosedForm | crates/kaspa_secure_core/src/braid.rs:303-347 | Retention only lowers the payout. |
| BraidPool.PayoutGrows | crates/kaspa_secure_core/src/braid.rs:328-347 | Selling more never pays less. |
| BraidPool.PoolValues | crates/kaspa_secure_core/src/braid.rs:289-366 | A quote is accepted exactly when it states the locally computed net value and positive floor. |
| BraidPool.ValuationInRange | crates/kaspa_secure_core/src/braid.rs:308-358 | For every usable pool the gross fits 63 bits and the products of the fees and the floor fit 128. |
| BraidPool.KrFeeExactly | crates/kaspa_secure_core/src/braid.rs:308-314 | This venue takes 1% of the gross on mainnet and 0.3% on the test network, rounded down, at least 0.1 KAS. |
| BraidPool.KronFeeExactly | crates/kaspa_secure_core/src/braid.rs:347-351 | The other takes 0.1% and the providers' part of 0.2%, at least 0.2 KAS, and 0.7%, at least 0.2 KAS. |
| BraidPool.FloorExactly | crates/kaspa_secure_core/src/braid.rs:356 | The floor is the net value less the slippage, rounded down. |
| BraidPool.UsableExactly | crates/kaspa_secure_core/src/braid.rs:303-327 | Which reserves are accepted. |
| BraidPool.ValuationGrows | crates/kaspa_secure_core/src/braid.rs:289-366 | Offering more tokens never lowers net value or floor, fees included. |
| BraidFee.TokenFeeExactly | crates/kaspa_secure_core/src/braid.rs:404-421 | The accepted token fee is the unique largest one within one percent with the carrier, and at most a percent of the amount, so the two-percent guard never fires. |
| BraidFee.TokenFeeInRange | crates/kaspa_secure_core/src/braid.rs:404-421 | Its products fit 128 bits. |
| BraidFee.FeeIsAtMostOnePercent | crates/kaspa_secure_core/src/braid.rs:368-444 | Every accepted fee is at most one percent of its basis, goes to the partner, and is the approved one; the basis of a staged sale is within the independently computed gross. |
| BraidFee.AcceptedExactly | crates/kaspa_secure_core/src/braid.rs:368-445 | Exactly which fees are accepted, in every kind of swap, and when the deposit has to carry KAS for them. |
| BraidFee.SaleFeeIsSmall | crates/kaspa_secure_core/src/braid.rs:422-445 | In a sale for KAS the guaranteed payout is at least 95 times the fee. |
| BraidNotes.AmountOfNote | crates/kaspa_secure_core/src/braid.rs:195-236 | The amount field of a note is its amount, whoever holds it. |
| BraidNotes.ParseExactly | crates/kaspa_secure_core/src/braid.rs:195-236 | Parsing succeeds with an amount and code exactly on the note of that amount and code, in range. |
| BraidNotes.NoteIsInjective | crates/kaspa_secure_core/src/braid.rs:195-218 | A note determines owner, amount and kind of owner, for both token kinds. |
| BraidNotes.EncodeState | crates/kaspa_secure_core/src/braid.rs:96-112 | The field loop returns the specified state or error. |
| BraidNotes.StateLengthIsFixed | crates/kaspa_secure_core/src/braid.rs:96-112 | Exactly the complete, well-typed terms encode, always to 381 bytes, so the length check never fails. |
| BraidNotes.StateIsInjective | crates/kaspa_secure_core/src/braid.rs:24-112 | The state determines all 21 terms. |
| BraidLayout.FieldPositions | crates/kaspa_secure_core/src/braid.rs:24-112 | Where each of the 21 terms stands in the 381 bytes. |
| BraidLayout.NotePositions | crates/kaspa_secure_core/src/braid.rs:195-236 | Where a note of either kind keeps owner, holder kind and amount. |
| BraidDeposit.ScanInputs | crates/kaspa_secure_core/src/braid.rs:781-835 | The input loop accepts exactly when every input is signed plain KAS or an own note with the right signing rule, and returns both sums. |
| BraidDeposit.ScanOutputs | crates/kaspa_secure_core/src/braid.rs:874-905 | The output loop accepts exactly when all that is not coin or note returns to the wallet, with one change note when due. |
| BraidDeposit.ValidateDeposit | crates/kaspa_secure_core/src/braid.rs:652-908 | The check accepts exactly the deposits with the declarative property Accepts. |
| BraidReview.AcceptedExactly | crates/kaspa_secure_core/src/braid.rs:652-908 | A deposit is accepted if and only if it is proper: a router coin with the amount, its reserve and the fee, signed coins and own notes in, the router's note of the sold amount, and everything else back to the wallet with just one change note. |
| BraidDeposit.TokensAreConserved | crates/kaspa_secure_core/src/braid.rs:781-905 | Read from the scripts alone, covenant inputs hold exactly the tokens of the covenant outputs, which are the router note and change only. |
| BraidDeposit.OneChangeNote | crates/kaspa_secure_core/src/braid.rs:874-905 | There is at most one change note. |
| BraidDeposit.KasDepositCostsItsTotal | crates/kaspa_secure_core/src/braid.rs:906-908 | In a KAS deposit the entered total is the router coin plus the network fee. |
| BraidDeposit.TokenDepositIsCheap | crates/kaspa_secure_core/src/braid.rs:757-908 | In a token deposit the wallet's plain KAS falls by less than base + 120,000,000. |
| KassealToken.MatchPin | crates/kaspa_secure_core/src/kasseal.rs:29-40 | Blanking a copy in place and comparing it accepts exactly the programs that match the pin. |
| KassealToken.MatchesExactly | crates/kaspa_secure_core/src/kasseal.rs:29-40 | Exactly which programs match: right length, one creator wherever it stands, the pinned bytes elsewhere. |
| KassealToken.PinFixesTheRest | crates/kaspa_secure_core/src/kasseal.rs:29-40 | A pin fixes every byte outside the state and the creator windows, which must agree, and nothing else. |
| KassealToken.TokenExactly | crates/kaspa_secure_core/src/kasseal.rs:59-68 | A program reads as a holding exactly when it is the pinned program around that holding's state, within supply. |
| Kasseal.Scan | crates/kaspa_secure_core/src/kasseal.rs:95-139 | Each loop accepts exactly the sides with no foreign part and one venue, and returns the four sums, one of them wrapped. |
| Kasseal.Validate | crates/kaspa_secure_core/src/kasseal.rs:79-163 | The check accepts exactly the swaps with the declarative property Accepts. |
| KassealReview.PurchaseDelivers | crates/kaspa_secure_core/src/kasseal.rs:140-161 | An accepted purchase brings exactly the reviewed tokens, at least the minimum, for the reviewed KAS, and debits at most the reviewed maximum. |
| KassealReview.SalePays | crates/kaspa_secure_core/src/kasseal.rs:140-161 | An accepted sale takes exactly the reviewed tokens and pays the wallet at least the reviewed minimum. |
| KassealReview.ReviewStatesNet | crates/kaspa_secure_core/src/kasseal.rs:147-157 | Where the review states net, change and refund, they are the actual ones; the fee is the reviewed one, at most 2 KAS. |
| KassealReview.AcceptedExactly | crates/kaspa_secure_core/src/kasseal.rs:79-163 | Exactly which swaps are accepted, in what the scripts of both sides hold. |
| KassealReview.InputRoles | crates/kaspa_secure_core/src/kasseal.rs:95-124 | What each input counts as, from its script, its revealed program and its signature. |
| KassealReview.OutputRoles | crates/kaspa_secure_core/src/kasseal.rs:125-139 | What each output counts as. |
| KassealReview.VenueExactly | crates/kaspa_secure_core/src/kasseal.rs:111-120 | Which programs are a venue of the token, and which sequence its input must carry. |
| Kasseal.PartsAddUp | crates/kaspa_secure_core/src/kasseal.rs:95-139 | Plain, own, venue and market parts partition all the KAS of a side. |
| Kasseal.SellMovesWraps | crates/kaspa_secure_core/src/kasseal.rs:109-161 | A sale changes the KAS in the venue's token cells by one word for each difference in wraps, and by nothing else. |
| Kasseal.SellKeepsVenueKasExactly | crates/kaspa_secure_core/src/kasseal.rs:109-161 | It leaves that KAS unchanged if and only if both unchecked sums wrap equally often. |
| KassealWrap.WrappedSaleIsAccepted | crates/kaspa_secure_core/src/kasseal.rs:109-161 | For any pinned token program and any pool, wallet and market that match the pins, a sale is accepted although the venue's cells gain 2^64 sompi. |
| Kasseal.BuyMovesOwnCells | crates/kaspa_secure_core/src/kasseal.rs:109-161 | A purchase changes it by the KAS in the wallet's token inputs, all of them empty, up to wraps. |
| KassealWrap.WrappedPurchaseIsAccepted | crates/kaspa_secure_core/src/kasseal.rs:109-161 | For any pinned token program and any pool, wallet and market that match the pins, a purchase is accepted although the venue's cells lose 2^64 sompi. |
| Kasseal.VenueCells | crates/kaspa_secure_core/src/kasseal.rs:109-161 | While the spent KAS fits a word: unchanged by a sale, changed by exactly the wallet's token inputs by a purchase. |
| Kasseal.WalletPaysTheReview | crates/kaspa_secure_core/src/kasseal.rs:140-161 | What the wallet as a whole pays or gets, its own cells included, is the reviewed KAS and fee. |
| Kasseal.OverflowIsUnreachable | crates/kaspa_secure_core/src/kasseal.rs:107-133 | The token sums cannot overflow. |
| KassealPrepare.Scan | crates/kaspa_secure_core/src/kasseal.rs:179-197 | The loops accept exactly the sides made of the wallet's own KAS and tokens, and return sums, count and carving. |
| KassealPrepare.Validate | crates/kaspa_secure_core/src/kasseal.rs:166-205 | The check accepts exactly its declarative property; its debit limit and debit equation add nothing. |
| KassealPrepare.DebitIsLockedAndFee | crates/kaspa_secure_core/src/kasseal.rs:202-203 | The wallet's debit is always the newly locked KAS plus the fee. |
| KassealPrepare.PreparationIsCheap | crates/kaspa_secure_core/src/kasseal.rs:203 | The debit limit that the declarative property leaves out holds of every accepted preparation. |
| KassealPrepareReview.InputRoles | crates/kaspa_secure_core/src/kasseal.rs:179-197 | What each input counts as: to be signed, and a coin or a cell of the wallet. |
| KassealPrepareReview.OutputRoles | crates/kaspa_secure_core/src/kasseal.rs:179-197 | What each output counts as: a coin of the wallet, or a cell of it with at least 2.5 KAS. |
| KassealPrepareReview.AcceptedExactly | crates/kaspa_secure_core/src/kasseal.rs:166-205 | Exactly which preparations are accepted, in what the scripts of both sides hold. |
| KassealPrepare.MergeLeavesOne | crates/kaspa_secure_core/src/kasseal.rs:189-199 | A merge leaves one cell of the wallet with all tokens and otherwise plain KAS. |
| KassealPrepare.SplitCarvesTheTarget | crates/kaspa_secure_core/src/kasseal.rs:189-199 | A split leaves two cells of the wallet, the target amount and the rest, and otherwise plain KAS. |
| ForgeNotes.ParseExactly | crates/kaspa_secure_core/src/kasforge.rs:164-202 | Parsing a note program succeeds exactly on the program of that note, in range. |
| DotkDeed.Build | crates/kaspa_secure_core/src/dotk_sale.rs:46-69 | Appending, padding and copying in place produce the specified deed, or nothing for a bad name or owner. |
| DotkRules.NamesExactly | crates/kaspa_secure_core/src/dotk.rs:29-41 | Which names there are. |
| DotkRules.OwnersExactly | crates/kaspa_secure_core/src/dotk.rs:42-65 | Which owners there are. |
| DotkRules.DeedPositions | crates/kaspa_secure_core/src/dotk_sale.rs:46-69 | Where a deed keeps digest, owner and name. |
| DotkDeed.SaleRebuildsDeed | crates/kaspa_secure_core/src/dotk_sale.rs:83-85 | The parts cut from the seller's deed, around any owner type and owner, are that owner's deed. |
| DotkDeed.DeedIsInjective | crates/kaspa_secure_core/src/dotk_sale.rs:46-69 | A deed determines name, owner type and owner. |
| DotkMarket.AmountsSplitPrice | crates/kaspa_secure_core/src/dotk_sale.rs:24-32 | Net and fee are the whole price, the fee is 2.1% rounded down and above dust. |
| DotkMarket.FundLoop | crates/kaspa_secure_core/src/dotk_market.rs:422-511 | The funding loop returns the specified result for any coins, fees and masses. |
| DotkMarket.Build | crates/kaspa_secure_core/src/dotk_market.rs:273-515 | The builder returns the specified transaction or error. |
| DotkRules.FrameExactly | crates/kaspa_secure_core/src/dotk_market.rs:273-360 | A request is taken up if and only if it is sensible and its cells are trustworthy. |
| DotkRules.ListingShape | crates/kaspa_secure_core/src/dotk_market.rs:311-388 | What a listing spends and creates before funding. |
| DotkRules.LargestFirst | crates/kaspa_secure_core/src/dotk_market.rs:311-320 | Coins are taken largest first, equal ones by outpoint. |
| DotkRules.TurnExactly | crates/kaspa_secure_core/src/dotk_market.rs:422-500 | When one more coin completes a transaction and when it falls short; the fee is the mass of the candidate times the rate. |
| DotkRules.FundedExactly | crates/kaspa_secure_core/src/dotk_market.rs:422-511 | A transaction is built if and only if some leading part of the coins pays and every shorter one falls short. |
| DotkMarket.ShortestPartFunds | crates/kaspa_secure_core/src/dotk_market.rs:422-511 | A transaction is built exactly from the shortest leading part of the sorted funding that suits. |
| DotkMarket.FrameBalances | crates/kaspa_secure_core/src/dotk_market.rs:349-388 | Covenant cells and required funding pay exactly for the fixed outputs of each action. |
| DotkMarket.BuiltBalances | crates/kaspa_secure_core/src/dotk_market.rs:360-511 | For any request and funding, inputs equal outputs plus fee, change is spendable, and no coin is used twice. |
| DotkMarket.ListThenBuy | crates/kaspa_secure_core/src/dotk_market.rs:311-388 | A listing's own cells are accepted by a purchase, which fails only for fee rate, funding or buyer key, and fixes its outputs. |
| DotkMarket.PurchasePaysSeller | crates/kaspa_secure_core/src/dotk_market.rs:360-388 | List, then buy: the seller gets price less fee plus reserve, the fee address the fee, the buyer pays the price and network fee. |
| DotkMarket.ListThenCancel | crates/kaspa_secure_core/src/dotk_market.rs:311-388 | List, then cancel: only the seller, who gets deed and reserve back. |
| DotkMarket.ContractIsSatisfied | crates/kaspa_secure_core/src/dotk_sale.sil:6-43 | Every purchase and cancellation built meets all demands of the sale contract it spends. |
| Wyrm.ClockedStepsStayValid | crates/kaspa_secure_core/src/covenant_wyrm_transition.rs:395-585 | A transition of a valid state at a clock in range is valid again. |
| Wyrm.GrownShape | crates/kaspa_secure_core/src/covenant_wyrm_transition.rs:519-552 | Growing raises the stage by one and settles a specialization on a most-fed kind. |
| Wyrm.LivedIsSound | crates/kaspa_secure_core/src/covenant_wyrm_transition.rs:387-585 | Every action keeps the life invariant: care, feeds, stages, and the anchor between its two bounds. |
| Wyrm.LivedKeeps | crates/kaspa_secure_core/src/covenant_wyrm_transition.rs:387-585 | Serial and element never change, anchor, care and stage never fall, death is final. |
| Wyrm.EveryWyrmIsSound | crates/kaspa_secure_core/src/covenant_wyrm.rs:43-91 | From any valid genesis, after any deeds at any clocks, the invariant holds. |
| Wyrm.WakingRestoresElapsed | crates/kaspa_secure_core/src/covenant_wyrm_transition.rs:568-585 | Waking restores the time elapsed before sleep, so death is not possible at the wake clock. |
| Wyrm.ElderNeeds69Days | crates/kaspa_secure_core/src/covenant_wyrm_transition.rs:387-585 | The last growth stage needs at least 69 days awake. |
| Wyrm.SixtyNineDaysSuffice | crates/kaspa_secure_core/src/covenant_wyrm_transition.rs:387-585 | A Wyrm fed every day for 69 days can reach it. |
| WyrmContract.WalletMeetsContract | crates/kaspa_secure_core/src/covenant_wyrm.sil:70-294 | What the wallet works out the contract permits, if and only if no feed kind was left in a request for another action. |
| WyrmContract.ContractIsServed | crates/kaspa_secure_core/src/covenant_wyrm.sil:70-294 | Every step the contract permits is worked out by the wallet, as long as the counters fit. |
| WyrmContract.EveryDeedIsPermitted | crates/kaspa_secure_core/src/covenant_wyrm.sil:70-294 | The same over every life from genesis. |
| WyrmContract.OfferedExactly | crates/kaspa_secure_core/src/covenant_wyrm_transition.rs:387-585 | Exactly which requests the wallet takes up. |
| WyrmContract.GrowsAsEarned | crates/kaspa_secure_core/src/covenant_wyrm_transition.rs:519-552 | Which specializations growing leads to, and when the choice is refused. |
| WyrmContract.TransferInstalls | crates/kaspa_secure_core/src/covenant_wyrm_transition.rs:492-512 | A transfer installs the recipient and a naming the name, and nothing else changes. |
| WyrmContract.SpecialMealRaises | crates/kaspa_secure_core/src/covenant_wyrm_transition.rs:460-491 | A special meal raises its own counter by one and no other. |
| WyrmContract.GenesisExactly | crates/kaspa_secure_core/src/covenant_wyrm.rs:43-91 | Which eggs there are and how they start. |
| WyrmContract.StatesExactly | crates/kaspa_secure_core/src/covenant_wyrm.rs:69-91 | Which states can stand on chain. |
| EvmInteger.AppendDigit | crates/kaspa_secure_core/src/evm.rs:160-185 | One digit, carried byte by byte from the right: the value is ten times the old plus the digit, no step leaves 16 bits, the carry fits a byte. |
| EvmInteger.ParseUint | crates/kaspa_secure_core/src/evm.rs:160-185 | Every decimal string becomes the minimal big-endian bytes of its value, everything else is refused. |
| EvmInteger.TrimExactly | crates/kaspa_secure_core/src/evm.rs:160-185 | Trimming takes exactly the white space around a text that has none at its own ends. |
| EvmInteger.DecimalOfDigits | crates/kaspa_secure_core/src/evm.rs:160-185 | Every number is read back from its digits, with any zeros before them. |
| EvmInteger.MinimalIsUnique | crates/kaspa_secure_core/src/evm.rs:160-185 | There is only one minimal form of a value. |
| EvmInteger.ZeroIsEmpty | crates/kaspa_secure_core/src/evm.rs:160-185 | Zero, and only zero, is the empty string. |
| RevealFee.SettleFee | crates/kaspa_secure_core/src/inscription.rs:263-308 | For a monotone requirement the unbounded loop ends with the least sufficient fee, or fails exactly when none leaves the dust limit. |
| RevealFee.LeastIsFixed | crates/kaspa_secure_core/src/inscription.rs:263-308 | That least fee is exactly what is required of it. |

## Left out

- Session.Desktop.NativeCall: a lock that arrives between reading the counter and taking the mutex is covered by a stale counter value, not by thread interleaving. The last counter check and the return are one step: in the code a lock after that check but before the mutex is released lets the signature out, and the session is wiped only by the next call. A panic is modelled as wiping the session the call started with.
- Session.Desktop.Dispatch: clock readings taken close together in one branch, such as those of the silent check and of the review check, share one value.
- HistoryWindows.PageOfWholeHistory: rows without an id are outside it; their positional keys can differ between a window and the whole history. Each backend lists newest first, and both agree on the time of a transaction they share.
- TokenPlanProgress.PlanSucceedsExactly: that ordinary transfers are within the mass limits and cost at most 0.4999 KAS is an assumption on the fee parameter, which stands for the mass calculator; the funding it asks for is enough but not the least possible.
- BraidDeposit.ValidateDeposit: error texts are not distinguished; deadline, nonce, recovery payload, router pin and address checks are not part of it, nor is the reclaim half.
- Kasseal.Validate: error texts, address, network and signature-hash checks are not part of it; sums of all inputs are taken as numbers, as the 128-bit sums are.
- DotkMarket.Build: the review hash and JSON, signature scripts and storage mass values are not part of it; a funding overflow and an excess over the monetary range are one error.
- TokenPlan.Build: the review of each step is part of the fee parameter; canonicalizing funding JSON is not modelled.
- VaultTemplates.Generate: the text of the emitted Rust and its dispatch tags; the script builder's push of a parameter is a parameter of the meaning, direct for the original ones.
- Kasseal.SellMovesWraps: debug builds panic instead of wrapping.
- The remaining checks of Forge orders (`kasforge.rs` validate) and `kforge.rs`: their accounting repeats the Braid and Kasseal shapes with token conservation checked outright.
- `hidden_kas.rs`, `covenant_vault.rs`, `covenant_wyrm_tx.rs`, `kaspacom_market.rs`, `nft_market.rs`, `desktop_update.rs`: easier forms of the same loops and checks.
- Cryptography, the script virtual machine, the mass calculator and the contract compiler: library code, taken as parameters.
- JSON, hex and address decoding, field whitelists, JNI and window glue, file protection, the website and the servers' plumbing: the models start from typed records.
- Fee rates as floating-point numbers: replaced by functions on natural numbers.
