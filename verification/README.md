# Light-wallet server: a verified model

A Dafny 4.11 model of the light-wallet server's database and of the code that depends on its tables agreeing. Check it with
`dafny verify dfyconfig.toml`.

The database is a set of tables that write transactions change: blocks, proof-of-work rows, accounts with their indexes
by address and by height, outputs, spends, key images, webhooks and webhook events. Most tables are caches of "what this
account owns on the current chain", kept up to date across reorganisations, repeated scans and rescans. The central
result is that they stay equal to a simple recomputation from the stored blocks.

| file | content |
|---|---|
| `Rows.dfy` | rows and errors shared by all files |
| `Tables.dfy` | the tables as one value, the effect of every transaction as a function, and what agreement means |
| `Storage.dfy` | the transactions with their loops (class `Database`), proved against those functions |
| `Agreement.dfy` | every transaction keeps the tables in agreement; a rollback is exact |
| `Recompute.dfy` | the recomputation, and the cache theorem over all runs |
| `Webhooks.dfy`, `SpendHooks.dfy` | the confirmation protocol of one account over many check-ins; the search for the source of a spend |
| `Confirmations.dfy` | confirmations over all accounts and whole runs |
| `Ranges.dfy` | two-pointer merge of subaddress ranges, quota and report |
| `Subaddresses.dfy`, `Reports.dfy` | the upsert of one account: ranges, expanded index, errors (class `Account`); quota and report of whole requests |
| `Balance.dfy`, `Handlers.dfy` | what the three balance endpoints compute from one snapshot, and their loops |
| `Threads.dfy` | how scan threads are filled |
| `ResizeLock.dfy` | the resize lock and `try_write` as steps of any number of threads |
| `RequestQueue.dfy` | the coalescing daemon request queue as steps |
| `KeyImages.dfy` | importing key images and exact sources (class `Images`) |

Conventions. A table is a map or a set of rows; a cursor walk becomes a loop whose order the contract does not depend on,
except where the order of keys decides the result (key images, subaddress ranges, the block chain). A transaction that
fails leaves the tables as they were. Hashes and keys are natural numbers ordered as `memcmp` orders them. What the chain
and the scanner know is a parameter: a hash fixes its parent and height, and the scanner finds the rows of a block from
what the account owned before (`Recompute.World`).

Where the code does less than its callers or documentation suggest, the exact condition is proved:

* `change_height` files the height index under the requested height but lowers the account to the smaller height, so the
  indexes agree if and only if the height is not above the scan height (`Agreement.ChangeHeightIndexes`).
* It also deletes the rows of the block at the requested height while that block counts as scanned, so the cache stays
  exact if and only if the height is at or below the start height or the account has no row at that height
  (`Recompute.ChangeHeightExact`).
* A requested subaddress range can reach two stored ranges without fusing them. The stored list stays canonical if and
  only if that does not happen (`Ranges.MergeCanonical`); otherwise stored ranges can overlap from then on. The report is
  exactly what is new if and only if the first stored range each requested range touches leaves no part of it inside a
  later one (`Ranges.DeltaExact`). `src/db/storage.h:344-345` promises the new ranges; the code can report, and charge,
  stored ones as well.
* Lookahead callers commit after a quota failure. The ranges row of the failing major index is gone by then
  (`Subaddresses.FailedUpsert`).
* Several entries for one major index are joined into one reported list, which is canonical if and only if each entry is
  charged for ranges above those of the entries before it (`Reports.RepeatedMajors`).
* A rollback removes proof-of-work rows only if one is stored at the fork height (`Agreement.RollbackIsExact`).
* Two spends of one account with the same source and key image make a later rollback fail (`Agreement.SharedPairFails`).
* An account with a spend hook makes every check-in search the source of each new spend. The search finds nothing, and
  aborts the update of every account, if no output of the account is at or above the height of the spend
  (`SpendHooks.SourceFoundExactly`, `Agreement.SpendAfterLastOutputAborts`).
* A check-in older than the stored height can notify a finished webhook event again (`Webhooks.StaleCheckIn`).
* Split-sync threading drops unsynced accounts when every thread is set aside for synced ones (`Threads.AssignByDepth`).
* `resize` returns with the flag set if and only if reading the map size fails, and no transaction starts after that
  (`ResizeLock.RunLeaksExactly`, `ResizeLock.LeakIsForever`). A caller that keeps a read transaction open across a write
  that has to grow the map waits for itself (`ResizeLock.DeadlockExactly`).
* The rule that replaces a chosen spend by a better one never applies (`Balance.NeverReplaced`).

## Model

The first 28 rows are the main results; the others are what they rest on, in the order of the files.

| member | source | states |
|---|---|---|
| `Recompute.CacheIsRecomputation` | src/db/storage.cpp:1961-2013 | After any run of account creation, status change, `sync_chain`, `update`, rollback above the last checkpoint and rescan from the start height, every account that started at or above the last checkpoint holds exactly the outputs and spends a plain recomputation finds in the blocks now stored; the tables agree with each other, and no block at or below the last checkpoint changed |
| `Recompute.SyncChainKeepsInv` | src/db/storage.cpp:1961-2013 | A successful sync leaves the daemon's hash at every supplied height, keeps the chain below, drops stored blocks only when one contradicts the daemon, keeps the region above the last checkpoint linked and contiguous, and keeps the cache exact |
| `Recompute.ExtendedIsOverlay` | src/db/storage.cpp:3338-3353 | Although `update` compares a single hash, the stored blocks above the last checkpoint end up equal to the scanner's chain |
| `Recompute.ChangeHeightExact` | src/db/storage.cpp:2652-2681 | Moving an account to a height at or below its scan height keeps its rows exact if and only if the height is not above its start height or no stored output or spend of the account has that height |
| `Agreement.RollbackIsExact` | src/db/storage.cpp:1747-1891 | `rollback_chain(h)` leaves no block, account, output, spend or event at or above h, changes nothing below, and keeps the tables in agreement; a proof-of-work row at or above h survives if and only if none was stored at h itself |
| `Agreement.ChangeHeightIndexes` | src/db/storage.cpp:2652-2681 | `change_height` succeeds for a known address, and afterwards the account indexes agree if and only if the height was not above the scan height |
| `Agreement.SharedPairFails` | src/db/storage.cpp:1694-1718 | The mandatory key image lookup of `rollback_spends` succeeds for every deleted spend if and only if no two of them share source and key image |
| `Confirmations.ConfirmedOnceInRun` | src/db/storage.cpp:3147-3252 | Over any run of all transactions in which syncs, rollbacks and rescans leave the account alone, an event sends 1, 2, ... in order, each number once, up to the larger of one and the requested count, and is then removed |
| `SpendHooks.SourceFoundExactly` | src/db/storage.cpp:3276-3295 | The search for a spend source succeeds if and only if the account has an output at or above the height of the spend, and the source is stored with no such output before it |
| `Agreement.CheckInSucceedsExactly` | src/db/storage.cpp:3424-3490 | On tables in agreement a check-in succeeds if and only if the account is skipped, has no spend hook, or every new spend finds its source |
| `Ranges.MergeCanonical` | src/db/storage.cpp:2403-2461 | The stored list stays canonical if and only if no requested range touches two stored ranges |
| `Ranges.DeltaExact` | src/db/storage.cpp:2411-2460 | For every list the merge can have written, the report is exactly requested minus stored if and only if the first stored range each requested range touches leaves no part of it inside a later one |
| `Subaddresses.UpsertHoldsUnion` | src/db/storage.cpp:2333-2489 | After a successful upsert every major index denotes stored plus requested, other majors are unchanged, the index table holds exactly one row per subaddress, and the account is within its quota |
| `Reports.QuotaExact` | src/db/storage.cpp:2346-2377 | For requests whose ranges reach no stored range past the first they touch, the whole request is refused if and only if the stored subaddresses and the new ones together exceed the quota, repeated major indexes included |
| `Reports.RepeatedMajors` | src/db/storage.cpp:2338-2344 | The report of a sorted request is canonical if and only if of two entries with one major index the later one is charged for ranges above all those of the earlier one |
| `Subaddresses.FailedUpsert` | src/db/storage.cpp:2595-2605 | When a failing request is committed in spite of the quota error, as the lookahead callers do, ranges and indexes agree afterwards if and only if the failing entry was malformed or its major index held nothing |
| `Balance.NeverBothSpentAndSpendable` | src/rest_server.cpp:1843-1857 | For every snapshot, spendable plus sent amounts never exceed what was received, and no output is both spent and spendable |
| `Balance.SpentAndSpendableAreEverything` | src/rest_server.cpp:2693-2776 | Without missing sources, active pending spends and filters, spendable plus sent is exactly the sum of the stored outputs, whatever is unconfirmed |
| `Balance.TransactionsConserve` | src/rest_server.cpp:1968-2128 | Per transaction hash, received and spent amounts of the list equal the sums over outputs and spends |
| `Threads.AssignGreedy` | src/scanner.cpp:1213-1272 | Every account is placed once and in order; with k threads, target T and largest depth D even threads carry at most T + D, odd ones at most max(T, D), the last at most T + (k-1) + ((k-1)/2)(D-1) |
| `Threads.AssignByDepth` | src/scanner.cpp:1122-1274 | Every account is placed on exactly one thread if and only if not all threads were set aside while accounts of both kinds exist; otherwise exactly the unsynced ones are dropped |
| `ResizeLock.ResizeExclusion` | src/lmdb/lws_database.cpp:51-61 | In every interleaving `active` is the number of held contexts, one thread at most is resizing, and no thread holds a context meanwhile, kept read transactions included |
| `ResizeLock.WriteCommitsOnce` | src/lmdb/lws_database.h:113-139 | `try_write` commits its callback exactly once on success and never on failure, and runs it at most once per attempt |
| `ResizeLock.DeadlockExactly` | src/lmdb/lws_database.cpp:51-135 | The threads are stuck if and only if a resizing thread waits for contexts that only waiting threads keep |
| `RequestQueue.ResumedExactlyOnce` | src/rest_server.cpp:4064-4257 | In every interleaving no request is resumed twice, and every accepted one has been resumed once all coroutines closed |
| `RequestQueue.OneExchange` | src/rest_server.cpp:4149-4186 | The exchange under way belongs to the front of the only serving queue; a socket returns to the pool only with an empty queue and no unanswered message |
| `KeyImages.AtMostOneSource` | src/db/storage.cpp:3667-3729 | After any sequence of imports every key image has at most one exact source |
| `KeyImages.ImportBalances` | src/db/storage.cpp:3622-3746 | Each call satisfies candidates = known + unknown, known = matched + missing, matched = inserted + present, and the table grows by inserted minus replaced |
| `Recompute.StepKeepsInv` | src/db/storage.cpp:1940-2330 | Each single transaction, succeeding or failing, keeps tables, cache and chain in the state `Inv` describes, and the blocks at or below the last checkpoint |
| `Recompute.NewDatabaseInv` | src/db/storage.cpp:559-600 | A new database, genesis and last checkpoint only, is in the state `Inv` describes |
| `Recompute.ForkAligned` | src/db/storage.cpp:1981-2009 | The cursor walk stops exactly at the first stored height whose hash differs, or at the end of either list |
| `Recompute.AgreeBelow` | src/db/storage.cpp:3338-3344 | Two hash-linked chains that agree at one height agree at every height below, down to the last checkpoint |
| `Recompute.ExtendChainKeepsInv` | src/db/storage.cpp:3323-3387 | The chain part of `update` adds only the scanner's blocks above the last checkpoint and keeps the invariant |
| `Recompute.StoreExact` | src/db/storage.cpp:3456-3480 | Storing what the scanner found since an older scan height makes the account's rows equal to the recomputation up to the new height, duplicates included |
| `Recompute.UpdateKeepsInv` | src/db/storage.cpp:3306-3493 | A successful `update` keeps the cache equal to the recomputation for every account |
| `Recompute.RollbackKeepsInv` | src/db/storage.cpp:1852-1891 | A chain rollback keeps the cache equal to the recomputation on the shortened chain |
| `Recompute.ChangeHeightsKeepInv` | src/db/storage.cpp:2688-2742 | A rescan of any list of addresses from their start heights or below succeeds and keeps the invariant |
| `Recompute.AddAccountKeepsInv` | src/db/storage.cpp:2279-2330 | A new account starts with the empty cache the recomputation asks for |
| `Recompute.ChangeStatusKeepsInv` | src/db/storage.cpp:2161-2229 | Status changes keep the cache exact and the blocks unchanged |
| `Agreement.RollbackConsistent` | src/db/storage.cpp:1747-1814 | The account indexes, the key image table and the row bounds agree after a rollback |
| `Agreement.NextIdHeld` | src/db/storage.cpp:2298-2305 | The next account id is in use if and only if the largest 32-bit id is in use and id zero as well |
| `Agreement.AddAccountSucceeds` | src/db/storage.cpp:2233-2276 | With a free id, adding an account fails only for a wrong view key or a known address |
| `Agreement.AddAccountConsistent` | src/db/storage.cpp:2233-2276 | Adding an account keeps the three account tables, images and bounds in agreement |
| `Agreement.ChangeOneConsistent` | src/db/storage.cpp:2176-2225 | Moving an account to another status keeps all tables in agreement |
| `Agreement.ChangeHeightConsistent` | src/db/storage.cpp:2652-2681 | For a height not above the scan height all tables agree afterwards |
| `Agreement.AddImagesAgree` | src/db/storage.cpp:3131-3145 | While no two spends share source and key image, `add_spends` leaves exactly one key image row per stored spend |
| `Agreement.UpdateUserConsistent` | src/db/storage.cpp:3424-3488 | One account's check-in keeps all tables in agreement |
| `Agreement.SpendAfterLastOutputAborts` | src/db/storage.cpp:3489-3490 | A spend above all outputs of an account with a spend hook aborts the update of every account |
| `Agreement.StoreIsCheckIn` | src/db/storage.cpp:3479-3489 | A check-in on the tables is one step of the webhook protocol for its account, errors included, and fails besides exactly when a spend source is missing |
| `Agreement.StoreSparesOthers` | src/db/storage.cpp:3479-3488 | A check-in changes no scan height, output, hook or event of any other account |
| `Agreement.ChangeOneTakesEffect` | src/db/storage.cpp:2176-2225 | The account has the new status and is otherwise the same, and no other account moves |
| `Agreement.ChangeBackRestores` | src/db/storage.cpp:2176-2225 | Changing the status back restores every table |
| `Storage.Database.RollbackOutputs` | src/db/storage.cpp:1724-1745 | Deletes exactly the account's outputs from the height up |
| `Storage.Database.RollbackSpends` | src/db/storage.cpp:1686-1721 | Deletes exactly the account's spends from the height up with their key image rows; the lookups cannot fail and the image table still agrees |
| `Storage.Database.RollbackAccounts` | src/db/storage.cpp:1747-1814 | The walk over the height index resets every account at or above the height, once, with its rows, and files it again just below |
| `Storage.Database.InsertHeights` | src/db/storage.cpp:485-505 | Bulk insertion files every lookup under the height |
| `Storage.Database.RollbackEvents` | src/db/storage.cpp:1816-1850 | The backward walk that stops at the first older event of each account deletes every event from the height up and no other |
| `Storage.Database.RollbackChain` | src/db/storage.cpp:1852-1891 | Block, proof-of-work, account and event rollback compose to the specified effect |
| `Storage.Database.Rollback` | src/db/storage.cpp:1940-1959 | Nothing happens for a height that is not stored |
| `Storage.Database.AppendBlockHashes` | src/db/storage.cpp:1894-1914 | Writing in batches of 25 equals writing all hashes at once |
| `Storage.Database.AppendPowRows` | src/db/storage.cpp:1917-1938 | Proof-of-work rows that are stored already win |
| `Storage.Database.Walk` | src/db/storage.cpp:1981-2009 | The loop computes the fork point of stored and supplied hashes |
| `Storage.Database.SyncChain` | src/db/storage.cpp:1961-2013 | Every error condition and the resulting tables of `sync_chain`; an error changes nothing |
| `Storage.Database.FindLastId` | src/db/storage.cpp:797-825 | The result is the largest account id over all statuses |
| `Storage.Database.AddAccount` | src/db/storage.cpp:2233-2330 | Error conditions, new rows and the id of a new account; an error changes nothing |
| `Storage.Database.ChangeStatusOf` | src/db/storage.cpp:2176-2225 | One address: all three account tables move together |
| `Storage.Database.ChangeStatus` | src/db/storage.cpp:2161-2229 | A list of addresses in order; the known ones are returned |
| `Storage.Database.ChangeHeight` | src/db/storage.cpp:2614-2684 | The height move with its error conditions; a failed lookahead at or above the height is forgotten |
| `Storage.Database.Rescan` | src/db/storage.cpp:2688-2742 | Heights above the tip are refused, unknown addresses skipped, other errors abort |
| `Storage.Database.AddSpends` | src/db/storage.cpp:3131-3145 | Spend rows and key image rows, existing rows winning |
| `Storage.Database.FindRows` | src/db/storage.cpp:3479-3488 | Rows, remaining events and the complete list of notifications of one accepted account |
| `Storage.Database.StoreUser` | src/db/storage.cpp:3456-3490 | One accepted account is written; its confirmations are exactly the due ones, its spend notes name every spend with its source, and a missing source is an error |
| `Storage.Database.CompareHash` | src/db/storage.cpp:3323-3387 | The one hash comparison of `update`, above and below the last checkpoint |
| `Storage.Database.ExtendChain` | src/db/storage.cpp:3323-3387 | Error conditions and new blocks of the chain part of `update` |
| `Storage.Database.CheckInUser` | src/db/storage.cpp:3424-3490 | Skipped, refused and stored accounts, which ones are counted as updated, and what each one sends |
| `Storage.Database.UpdateUsers` | src/db/storage.cpp:3403-3491 | Filing the height rows in batches of 127 equals filing each at once; the number of updated accounts, and for every account and event the numbers sent |
| `Storage.Database.Update` | src/db/storage.cpp:3306-3493 | Every error condition, the resulting tables, the number of updated accounts and the confirmations sent to every event; an error changes nothing |
| `Webhooks.ConfirmedExactlyOnce` | src/db/storage.cpp:3147-3252 | However the scanned blocks are batched, an event sends 1, 2, ... in order, each number once, up to the larger of one and the requested count, and is then removed |
| `Webhooks.WholeHistory` | src/db/storage.cpp:3147-3252 | Seen from before the output, the notifications are exactly 1..max(1, count) and the event is gone |
| `Webhooks.CheckInAdvances` | src/db/storage.cpp:3482-3488 | One check-in at the stored height continues the numbers sent before it |
| `Webhooks.CheckInSucceeds` | src/db/storage.cpp:3218-3224 | The mandatory hook and output lookups never fail on tables where every event has its rows |
| `Webhooks.NumbersContinue` | src/db/storage.cpp:3213-3246 | The first number of a batch follows the last one of the previous batch |
| `Webhooks.StaleCheckIn` | src/db/storage.cpp:3450-3456 | A check-in that repeats old blocks notifies a finished event again if and only if its rows repeat the output and it brings at least one block after its first |
| `Webhooks.CheckHooks` | src/db/storage.cpp:3147-3188 | The events added are every pair of a new output and a hook with its payment id |
| `Webhooks.Notify` | src/db/storage.cpp:3232-3246 | The inner loop sends exactly the due numbers in order |
| `Webhooks.AddOngoingHooks` | src/db/storage.cpp:3191-3252 | On success every event sent exactly its due numbers and the finished ones are gone |
| `Confirmations.RunContinues` | src/db/storage.cpp:3306-3493 | At every point of a run the numbers sent so far are exactly those due at the account scan height |
| `Confirmations.UsersContinue` | src/db/storage.cpp:3424-3490 | The check-ins of one update, in any order and for any accounts, continue the numbers of every event |
| `SpendHooks.OlderSourceFound` | src/db/storage.cpp:3276-3295 | A source received below the height of the spend is found exactly when some output is at or above that height |
| `SpendHooks.LookupSource` | src/db/storage.cpp:3276-3295 | The backward walk finds the source exactly when there is one to find |
| `SpendHooks.CheckSpends` | src/db/storage.cpp:3254-3303 | Without a hook nothing is searched; otherwise every hook gets one note for every spend, in order, with its source, or the whole check fails |
| `Ranges.CheckRanges` | src/db/data.cpp:92-112 | The check accepts exactly the sorted, disjoint, non-adjacent lists |
| `Ranges.CheckMaxRange` | src/db/storage.cpp:2346-2353 | A range is charged if and only if it fits the quota, and the 32-bit sum never wraps |
| `Ranges.CheckMaxRanges` | src/db/storage.cpp:2354-2363 | A list is accepted if and only if its total length fits |
| `Ranges.MergePass` | src/db/storage.cpp:2409-2451 | One pass of the two-pointer loop fails exactly when what it reports does not fit |
| `Ranges.MergeRanges` | src/db/storage.cpp:2403-2461 | The loop stores the merged list and reports the delta, and fails exactly when the delta does not fit the quota |
| `Ranges.MergeDenotesUnion` | src/db/storage.cpp:2403-2461 | The stored list afterwards stands for stored plus requested indexes, whatever the lists look like |
| `Ranges.DeltaCovers` | src/db/storage.cpp:2411-2460 | The report covers everything requested but not stored, and nothing that was not requested |
| `Ranges.DeltaInside` | src/db/storage.cpp:2411-2460 | Every reported range lies inside one requested range |
| `Ranges.DeltaCanonical` | src/db/storage.cpp:2411-2460 | The report is sorted, disjoint and non-adjacent |
| `Ranges.TouchesOneSuffices` | src/db/storage.cpp:2411-2460 | On canonical lists the report is exact when each requested range touches at most one stored range |
| `Ranges.MergeLowsAscend` | src/db/storage.cpp:2403-2461 | The merge keeps the lower bounds of the stored list ascending, whatever it overlaps |
| `Ranges.OverlappingListExample` | src/db/storage.cpp:2434-2449 | From [0,1],[5,6] and [0,10] it stores the overlapping list [0,10],[5,6] |
| `Reports.QuotaCharges` | src/db/storage.cpp:2346-2377 | An upsert succeeds if and only if every entry is well formed and everything charged fits |
| `Reports.ChargedIsNew` | src/db/storage.cpp:2346-2460 | Where no requested range reaches a stored range past the first it touches, exactly the new subaddresses are charged |
| `Reports.UpsertKeepsOrder` | src/db/storage.cpp:2379-2486 | Every successful upsert keeps the stored lists ordered by lower bound |
| `Reports.ReportJoins` | src/db/storage.cpp:2338-2344 | The report of a sorted request has one list per major index, the join of what its entries are charged for |
| `Reports.RepeatedMajorExample` | src/db/storage.cpp:2338-2344 | Both cases occur: [0,5] with [3,9], and [0,5] with [10,12] |
| `Subaddresses.EntryKeeps` | src/db/storage.cpp:2379-2486 | One entry: union stored, index exact, and the running count still bounds the number of index rows |
| `Subaddresses.WrittenExact` | src/db/storage.cpp:2463-2486 | Writing ranges and index rows together keeps the two tables in step |
| `Subaddresses.FailedEntry` | src/db/storage.cpp:2404-2437 | After a failed entry ranges and indexes agree if and only if the entry was malformed or its major index held nothing |
| `Subaddresses.ReportCovers` | src/db/storage.cpp:2338-2344 | The report of a request covers what is new under every major index and nothing else than the request |
| `Subaddresses.ReportCanonical` | src/db/storage.cpp:2338-2344 | With one entry per major index every reported list is canonical |
| `Subaddresses.ReportIsDelta` | src/db/storage.cpp:2338-2344 | With one entry per major index the report of an entry is the delta against the table before the upsert |
| `Reports.ReportExact` | src/db/storage.cpp:2338-2460 | With one entry per major index the report is exactly what is new if and only if no requested range leaks past the first stored range it touches |
| `Subaddresses.Account.PutIndexes` | src/db/storage.cpp:2463-2477 | One index row is put for every minor index of the ranges |
| `Subaddresses.Account.UpsertEntry` | src/db/storage.cpp:2379-2486 | One entry with its error conditions; a quota failure in a merge has already deleted the stored ranges |
| `Subaddresses.Account.DoUpsert` | src/db/storage.cpp:2333-2489 | The whole request, entry by entry, up to the first error |
| `Subaddresses.Account.UpsertSubaddresses` | src/db/storage.cpp:3496-3511 | An error leaves the tables as they were |
| `Balance.SpentAndSpendableAccount` | src/rest_server.cpp:2693-2776 | With one id per stored output, spendable, sent and neither add up to the stored outputs, and unconfirmed ones come on top |
| `Balance.SentIsNotClean` | src/rest_server.cpp:2638-2649 | An output that `get_address_info` counts as sent is never offered by `get_unspent_outs` |
| `Balance.SpentOrClean` | src/rest_server.cpp:2693-2772 | With no missing source, no active pending spend and no filter, every output is offered or reported as sent |
| `Balance.RelayedSpendIsWithheld` | src/rest_server.cpp:2661-2771 | A relayed transaction lowers the offered amount by exactly the output it spends for one day, and changes no offer outside that day |
| `Balance.SentIsOwned` | src/rest_server.cpp:1843-1857 | Each reported spend names an output of the account through a confirmed and imported key image, and no output is reported twice |
| `Balance.KnownIsSent` | src/rest_server.cpp:1746-1802 | Every confirmed spend whose output is known is counted |
| `Balance.NeverReplaced` | src/rest_server.cpp:813-826 | The replacement rule never applies: all candidates of one key image are the same output |
| `Balance.MissingNone` | src/rest_server.cpp:1784-1796 | No source is missing exactly when every confirmed spend finds its output |
| `Balance.FirstIdentified` | src/rest_server.cpp:837-856 | The search returns an output that matches id, index, key and transaction, if there is one |
| `Balance.GroupedConserves` | src/rest_server.cpp:1968-2010 | Grouping outputs by transaction conserves what each transaction received, up to the 64-bit wrap |
| `Balance.ChargeConserves` | src/rest_server.cpp:2092-2128 | Charging spends to transactions conserves what each transaction spent and leaves received amounts alone |
| `Balance.ListAddsUp` | src/rest_server.cpp:1968-2128 | The transaction list adds up to the totals `get_address_info` reports for the same snapshot |
| `Handlers.ReadOutputs` | src/rest_server.cpp:1705-1716 | The received and the locked total are the wrapped sums of all and of the locked outputs |
| `Handlers.LockedIsReceived` | src/rest_server.cpp:1705-1732 | Locked funds are part of what was received |
| `Handlers.AddOverlay` | src/rest_server.cpp:1718-1732 | Unconfirmed outputs are added once each, to the received and the locked total; the request fails exactly when their sum overflows |
| `Handlers.ImportedMap` | src/rest_server.cpp:1738-1740 | Exactly the listed key images have a source, and it is the first one listed |
| `Handlers.FindOutput` | src/rest_server.cpp:837-856 | The loop finds the first identified output |
| `Handlers.ChooseForInfo` | src/rest_server.cpp:1742-1804 | Choices, missing and unconfirmed sources of the spend loop, and its overflow error |
| `Handlers.SumUnspent` | src/rest_server.cpp:1806-1841 | Imported sources without a spend fail the request exactly when their sum overflows |
| `Handlers.SumChoices` | src/rest_server.cpp:1843-1857 | Each output is counted once, in the order of the key images; overflow is the only failure |
| `Handlers.GetAddressInfo` | src/rest_server.cpp:1701-1861 | The answer equals the snapshot functions, and fails exactly when one of four sums overflows |
| `Handlers.GroupOutputs` | src/rest_server.cpp:1968-2010 | The grouping loop, the wrapped total and the order check |
| `Handlers.SortedRowsPass` | src/rest_server.cpp:1971-1979 | Rows in table order never trip the order check |
| `Handlers.ChooseForTxs` | src/rest_server.cpp:2039-2090 | The separately written spend loop makes the same choices |
| `Handlers.ChargeTx` | src/rest_server.cpp:2100-2126 | A spend is charged to the first entry of its transaction, or to a new entry; failure means an overflow |
| `Handlers.ChargeChoices` | src/rest_server.cpp:2092-2128 | The list is charged with exactly the picked choices |
| `Handlers.GetAddressTxs` | src/rest_server.cpp:1952-2128 | The transaction list and total, and exactly when the request fails |
| `Handlers.ReadConfirmedSources` | src/rest_server.cpp:2638-2649 | Sources of confirmed spends: the imported one, else the spend's own |
| `Handlers.ReadPending` | src/rest_server.cpp:2653-2671 | Pending spends younger than a day and not from the future |
| `Handlers.Decide` | src/rest_server.cpp:2693-2771 | The chain of checks gives each output exactly one verdict |
| `Handlers.Accumulate` | src/rest_server.cpp:2695-2777 | Each accumulator is the sum of its class and fails exactly on overflow |
| `Handlers.GetUnspentOuts` | src/rest_server.cpp:2594-2850 | The offered outputs, amount and fee, and exactly when the request succeeds or is short of funds |
| `Handlers.AskAll` | src/rest_server.cpp:1752-1857 | The three answers for one snapshot fit together whenever the sums fit in 64 bits |
| `Threads.DepthsOf` | src/scanner.cpp:1108-1115 | Depths with the unsigned wrap and the minimum |
| `Threads.LastLoad` | src/scanner.cpp:1218-1262 | The closed threads carry enough to bound what is left for the last one |
| `Threads.DealSynced` | src/scanner.cpp:1164-1181 | Round robin places every synced account once, in sizes at most one apart |
| `Threads.SyncedThreadsFit` | src/scanner.cpp:1161-1163 | The threads set aside are at least one and never more than there are |
| `Threads.SplitEvenly` | src/scanner.cpp:1297-1310 | Every account is on one thread, in order, in sizes N/q or N/q + 1 |
| `ResizeLock.OnlyResizeGrows` | src/lmdb/lws_database.cpp:119-135 | The map grows only in a step of a thread that excludes all transactions, by at most 1 GB |
| `ResizeLock.NoDeadlock` | src/lmdb/lws_database.cpp:51-135 | The threads are never stuck while no waiting thread keeps a read transaction and the flag has not leaked |
| `ResizeLock.LeakExactly` | src/lmdb/lws_database.cpp:119-135 | A step leaves the flag set without an owner if and only if it is a resize that fails to read the size of the map |
| `ResizeLock.RunLeaksExactly` | src/lmdb/lws_database.cpp:119-135 | In every run the flag is leaked if and only if some resize failed to read the size of the map |
| `ResizeLock.LeakIsForever` | src/lmdb/lws_database.cpp:119-135 | After a leak no context is ever acquired and the map never grows again |
| `ResizeLock.NextKeepsInv` | src/lmdb/lws_database.cpp:77-180 | Every step of every thread keeps the lock invariant |
| `RequestQueue.FrameResumesInOrder` | src/rest_server.cpp:4095-4109 | A coroutine resumes the requests it accepted in their order, all of them before it closes, each success with the answer to its own message |
| `RequestQueue.ClosesInTime` | src/rest_server.cpp:4140-4240 | Without further arrivals a coroutine closes within a bounded number of its steps, whatever goes wrong, and has then resumed every request it accepted |
| `RequestQueue.RunKeeps` | src/rest_server.cpp:2214-2309 | All interleavings of arrivals, answers, timeouts and errors keep the queue invariant |
| `KeyImages.LastCandidateWins` | src/db/storage.cpp:3622-3746 | The last usable candidate of an image decides its source; other images are untouched |
| `KeyImages.SourcesIdentifyOutputs` | src/db/storage.cpp:3656-3669 | Every stored source identifies an output of the account whose spend is known |
| `KeyImages.ReplaceOne` | src/db/storage.cpp:3709-3729 | Replacing a source removes at most one row and always inserts the new one |
| `KeyImages.Images.Confirm` | src/db/storage.cpp:3558-3585 | imported + already confirmed + unconfirmed = unique inputs, each count the size of its class |
| `KeyImages.Images.FindMatch` | src/db/storage.cpp:3656-3669 | The first output that the candidate names, compared by the low half of the id |
| `KeyImages.Images.DeleteSources` | src/db/storage.cpp:3709-3722 | Exactly the sources of the image are deleted, and counted |
| `KeyImages.Images.ImportSources` | src/db/storage.cpp:3622-3746 | The candidate loop with all its counts |
| `KeyImages.Images.ImportKeyImages` | src/db/storage.cpp:3514-3746 | The whole call: confirmed images, sources and counts |

## Left out

- LMDB pages, cursors as byte positions, on-disk migration and allocation failures: tables are maps and sets, and any other LMDB error aborts the transaction.
- Cryptography, block and transaction parsing, and the scan loop: the scanner is a parameter that returns the rows an account owns in a block; duplicate keys inside the scanner are its own business.
- ZMQ, HTTP, JSON, TLS, options, logging and clocks: plumbing; a timeout or a broken answer is an arbitrary outcome of a step.
- Block heights are unbounded; the wrap at 2^64 of a height is not modelled. Amounts, account ids, confirmation counts, quotas and thread depths keep their widths.
- Storage.Database.Update: the spend notes are stated per account by Storage.Database.StoreUser, and the order of confirmations between accounts is not.
- Storage.Database.RollbackChain: tables are in agreement before it, as every transaction leaves them; how its mandatory lookups fail on other tables is stated for key images only (Agreement.SharedPairFails).
- Recompute.CacheIsRecomputation: accounts that started below the last checkpoint, regtest runs, rollbacks at or below the last checkpoint, and rescans above the start height are outside the run; the last of these has its exact condition in Recompute.ChangeHeightExact. That no two spends share source and key image is assumed of each update, as the key image table cannot tell them apart.
- Storage.Database.AddAccount: access and creation times, key bytes and flags other than the administrator's are one opaque field; whether the view key matches the address is a parameter.
- Storage.Database.ChangeHeight: without a lookahead, as `rescan` calls it; growing a lookahead and delayed creation or import requests are not modelled.
- `sync_pow`, difficulty and the gap filling below the last checkpoint: the run model starts from a chain contiguous above the last checkpoint.
- Subaddresses.UpsertHoldsUnion: derived keys are an injective function; sorting the request (assumed sorted where it matters, in Reports.RepeatedMajors) and growing the lookahead are not modelled.
- Handlers.GetAddressInfo: counters and samples that are only logged, and fields copied from the account, are not modelled; whether an output is locked is a field of its row.
- Handlers.GetAddressTxs: the final `std::sort` of the transactions, mempool flags and time fields are not modelled.
- Handlers.GetUnspentOuts: any failure of the daemon is one error; the additional keys themselves are not modelled, only whether their transactions were returned.
- Threads.AssignByDepth: `std::sort` is left to the caller (any order is accepted), and the share of threads is a real number instead of a `double`.
- ResizeLock.WriteCommitsOnce: LMDB's own writer lock is not modelled; aborting a dropped transaction and releasing its context is taken from the transaction handles of Monero, which are not part of this model.
- RequestQueue.RunKeeps: `daemon_status` and the exchange-rate cache, which follow the same pattern, are not modelled separately.
- KeyImages.Images.ImportSources: the per-image summaries that are only logged, and the reserved bytes of a source row, are not modelled.
- Multisig store, key-exchange registry, the in-memory `account` vectors, block locators, authentication, environment tokens, exchange rates and version endpoints: they neither read nor write the tables and protocols modelled here.
