# The Unlock paywall: protocols and state machines, verified

A Dafny model of the parts of the paywall and of unlock-js that hold state or do
arithmetic, with proofs of what they keep over every run.

| file | what it models |
|---|---|
| `Web3Messages.dfy`, `Web3ProxyProvider.dfy`, `Wallet.dfy` | the two ends of the wallet proxy: an iframe that borrows the main window's wallet by messages |
| `RpcProtocol.dfy`, `RpcDelivery.dfy` | the two ends together: every interleaving, with lost, repeated and reordered packets, then over channels that deliver |
| `KeyStore.dfy`, `KeyStatus.dfy` | transactions and keys in the redux store, and the status that is shown for a key |
| `TransactionTracking.dfy`, `PurchaseProgress.dfy` | polling the chain for a transaction, and what the page shows of a purchase meanwhile |
| `LockUpdates.dfy` | lock updates that arrive out of order |
| `Mailbox.dfy`, `MainWindowHandler.dfy`, `VerdictChannel.dfy` | the data iframe's snapshot, the main window's modals and lock status, and the channel between them |
| `CacheKey.dfy` | the cache key of a configuration |
| `Durations.dfy`, `Dates.dfy`, `OwnerPages.dfy`, `AbiVersions.dfy` | durations as text, dates of a form, key owners by page, memoised contract versions |
| `Prelude.dfy` | options, sequences and ASCII case folding |

Objects whose methods update their fields are classes; each method is proved against a
function of the old state, and the properties are proved of those functions. An `await`
splits a method in two: what runs before it and what runs after it are separate atomic
steps, between which any other step may happen. Chains, wallets, users, clocks and storage
are arbitrary inputs.

What the proofs found about the code:

- With an enabled wallet, a call with an empty method name or without a parameter array is
  never answered: the main window drops it after the provider has registered it. A call
  whose answer is a bare primitive instead of a response object loses its callback. Every
  other call is answered, and without an enabled wallet every call is refused
  (`CallsAreAnswered`, `MalformedCallsHang`, `BareAnswersAreLost`).
- Updates of a lock that set only some properties converge only if none of them changes a
  property that the newest one does not set (`OrdersAgreeExactlyWhenCovered`). The transaction
  that created a lock is lost if the lock's data arrives first (`CreationConvergesExactly`).
- The purchase shown on the page can go back from mined to pending as soon as two trackers
  follow it (`ForwardExactlyWhenTrackedOnce`), and from failed to mined as long as it is still
  polled (`FailureIsFinalExactlyWhenUntracked`).
- When a key is renewed, its status is undetermined from the dispatch to the first update,
  because the new transaction has no block number to sort by (`RenewalIsAmbiguous`); and a
  second purchase that is still unmined hides a mined one (`KeyForwardExactlyForFirstPurchases`).
- Dispatching a tracked transaction again overwrites its status
  (`RestartIsForwardExactlyAtTheBeginning`).
- The comparator of the key selector is inconsistent on equal block numbers
  (`ComparatorIsConsistent`); the status is then well-defined only if the tied transactions
  agree (`OrderIrrelevantExactlyWhenTopsAgree`).
- The memo table of contract versions is shared by two kinds of lookup and folds the case
  of addresses that are compared unfolded elsewhere (`TransparentExactlyWhenAgreed`,
  `OtherCaseCanSpoil`).
- The form's calendar is right from the year zero on, the whole range of RFC 3339, and
  wrong around some years before it (`FormOffersExactlyTheUpcomingDates`).
- With a new snapshot the data iframe posts the new keys and transactions even when it
  keeps the old snapshot for everything else (`AnnouncedAreOfOneSnapshotExactly`).

## Model

| member | source | states |
|---|---|---|
| ProxyProvider.Web3ProxyProvider.constructor | paywall/src/providers/Web3ProxyProvider.js:20-70 | starts waiting, without a wallet, and posts the ready message |
| ProxyProvider.Web3ProxyProvider.HandleWalletInfo | paywall/src/providers/Web3ProxyProvider.js:31-40 | a wallet description sets the three flags and ends the wait; anything else changes nothing |
| ProxyProvider.Web3ProxyProvider.HandleWeb3 | paywall/src/providers/Web3ProxyProvider.js:43-63 | a reply takes exactly the callback registered under its id out of the table and calls it once, unless writing the id of a primitive throws; other replies change nothing |
| ProxyProvider.Web3ProxyProvider.SendAsync | paywall/src/providers/Web3ProxyProvider.js:76-79 | gives out the next id |
| ProxyProvider.Web3ProxyProvider.ResumeSendAsync | paywall/src/providers/Web3ProxyProvider.js:80-91 | refuses, or registers the callback and posts the request under its id |
| WalletProxy.Wallet.constructor | paywall/src/unlock.js/Wallet.ts:37-88 | user accounts are used exactly if asked for and there is no wallet |
| WalletProxy.Wallet.UpdateAccount | paywall/src/unlock.js/Wallet.ts:107-109 | replaces the user account's address and nothing else |
| WalletProxy.Wallet.UpdateNetwork | paywall/src/unlock.js/Wallet.ts:110-112 | replaces the user account's network and nothing else |
| WalletProxy.Wallet.HandleReady | paywall/src/unlock.js/Wallet.ts:154-172 | answers at once without a crypto wallet, otherwise marks it present and asks to enable it |
| WalletProxy.Wallet.ResumeReady | paywall/src/unlock.js/Wallet.ts:173-187 | reports whether the user declined |
| WalletProxy.Wallet.HandleWeb3 | paywall/src/unlock.js/Wallet.ts:194-221 | hands a request to the crypto wallet, answers it from the user account, or reports that there is no wallet |
| RpcProtocol.KeepsInv | paywall/src/providers/Web3ProxyProvider.js:20-91 | every event, faulty ones included, keeps ids, table, logs and packets consistent with each other and with what the wallet answered |
| RpcProtocol.CallbacksFireOnceWithTheirOwnAnswer | paywall/src/providers/Web3ProxyProvider.js:43-91 | in every reachable state each callback was called at most once; an answer was given by a wallet to that very call, with only its own id set to 42; a missing-wallet error is given exactly when there is no wallet, and a not-enabled error only after the user declined |
| RpcProtocol.RequestsFindAWallet | paywall/src/unlock.js/Wallet.ts:154-204 | while a request is under way the main window has a wallet, so the native proxy never replies that there is none |
| RpcProtocol.WalletIsAsConfigured | paywall/src/unlock.js/Wallet.ts:49-61 | in every run the crypto wallet stays, user accounts are used exactly if there is none and the configuration asks for them, and account and network are the ones announced last |
| RpcProtocol.RefusedExactlyWithoutWallet | paywall/src/providers/Web3ProxyProvider.js:80-84 | in every run a call is refused for lack of a wallet exactly if there is no crypto wallet and user accounts are not asked for |
| RpcProtocol.RequestsAreDroppedExactly | paywall/src/unlock.js/PostMessageEmitters/DataIframeMessageEmitter.ts:67-103 | a request without a method name or an array of parameters is dropped; for any other, one packet takes its place |
| RpcProtocol.RepliesAreTaken | paywall/src/providers/Web3ProxyProvider.js:43-63 | a reply without content or of an unknown id does nothing; any other calls its callback with its error, or null, and its result, of which only the id changes, or loses the callback over a bare primitive |
| RpcProtocol.DescriptionsAreBelieved | paywall/src/providers/Web3ProxyProvider.js:31-40 | a wallet description sets exactly the three flags and ends the wait; anything else does nothing |
| RpcProtocol.UserAccountsAnswerAtOnce | paywall/src/unlock.js/Wallet.ts:279-315 | the user-accounts wallet answers a request at once, under its id and with a response object of that id, with the account and network of that moment; an unknown method gets an error that names it |
| RpcDelivery.CallsAreConserved | paywall/src/providers/Web3ProxyProvider.js:65-91 | without losses or repeats each id issued is in exactly one of five places, and a registered call has exactly one packet under way unless it was malformed and dropped |
| RpcDelivery.AnswersComeHome | paywall/src/unlock.js/Wallet.ts:223-241 | what the crypto wallet answers is what the call's own callback is called with once the reply arrives: the error if there is one, else the result with its id set to 42; nothing else is under way for the call then |
| RpcDelivery.CallsAreAnswered | paywall/src/unlock.js/PostMessageEmitters/DataIframeMessageEmitter.ts:67-103 | when nothing is left to do, a call's callback has been called if and only if there is neither a crypto wallet nor a wish for user accounts, or the user declined, or the call has a method name and an array of parameters and its answer was no bare primitive |
| RpcDelivery.MalformedCallsHang | paywall/src/unlock.js/PostMessageEmitters/DataIframeMessageEmitter.ts:67-103 | for every malformed call there is a run with an enabled wallet after which it is never answered and stays in the table |
| RpcDelivery.BareAnswersAreLost | paywall/src/providers/Web3ProxyProvider.js:50-63 | for every well-formed call there is a run with an enabled wallet that answers a bare primitive, after which its callback is gone without having been called |
| RpcDelivery.WorkCanGoOn | paywall/src/providers/Web3ProxyProvider.js:76-91 | a packet under way, or a suspended call once the wallet is known, can always be handled |
| RpcDelivery.MeasureDecreases | paywall/src/unlock.js/Wallet.ts:154-243 | each step of the protocol lowers a weighted sum of waiting calls and packets |
| RpcDelivery.RunsAreShort | paywall/src/unlock.js/Wallet.ts:154-243 | without new calls a run has at most that many steps |
| LockUpdates.LocksReducer | paywall/src/reducers/locksReducer.js:8-70 | returns the reduced state in the given object or a new one; only deleting a lock changes the given object |
| LockUpdates.LockStore.OnLockUpdated | paywall/src/middlewares/web3Middleware.js:48-58 | dispatches only updates that are fresher than the stored lock, leaves the old state object as it was, and throws if the lock is not stored afterwards and an account is signed in |
| LockUpdates.ActionsReachOneLock | paywall/src/reducers/locksReducer.js:13-50 | adding stores the lock's properties under its address, updating overwrites the properties it brings and keeps the others; an action that names another address, adds a stored lock or updates a missing one changes nothing |
| LockUpdates.ActionsForgetOnly | paywall/src/reducers/locksReducer.js:8-70 | the other actions change no lock, and forget all, the deleted one, or the deleted transaction's |
| LockUpdates.UpdatesOnlyAdvance | paywall/src/middlewares/web3Middleware.js:48-58 | an event that names its own lock, in a store whose locks do, changes only that lock, keeps it under its own address, never lowers its asOf and never removes a property; one no fresher than the stored lock changes nothing, and a fresher one sets its own properties and keeps the others |
| LockUpdates.HandlerThrowsExactlyFor | paywall/src/middlewares/web3Middleware.js:171-177 | the handler throws exactly when an account is signed in and either a fresher event meets a lock stored under an address that no lock is stored under, or a new lock's event names another address; only the latter while locks are stored under their own address |
| LockUpdates.OnlyOwnAddressesAreUpdatable | paywall/src/middlewares/web3Middleware.js:48-58 | some event can change a stored lock if and only if it is stored under the address it names |
| LockUpdates.NewLocksAreUpdatable | paywall/src/reducers/locksReducer.js:13-50 | a new lock is stored if and only if its event names no other address, and can be updated later if and only if that address is not the empty one either |
| LockUpdates.OrdersAgreeExactlyWhenCovered | paywall/src/middlewares/web3Middleware.js:48-58 | whether the lock is stored already or not, all delivery orders of events with distinct block numbers end alike if and only if each that is fresher than the stored lock sets no property that the newest lacks, or only to its stored value; they then end as if the newest alone had been delivered |
| LockUpdates.NewLocksAgreeExactly | paywall/src/middlewares/web3Middleware.js:48-58 | for a lock that is not stored yet, the orders agree if and only if the newest event sets every property that any of them sets |
| LockUpdates.FullEventsConverge | paywall/src/middlewares/web3Middleware.js:48-58 | full events converge in every order to the newest merged into whatever is stored; a stored lock that is as fresh stays |
| LockUpdates.FullUpdateCanBeLost | unlock-js/src/web3Service.js:52-64 | a stored lock whose full update is lost if a later change of price, which sets nothing else, arrives first |
| LockUpdates.CreationConvergesExactly | unlock-js/src/web3Service.js:28-38 | a lock's creation and its data, read later, converge if and only if the creating transaction is stored already |
| KeyStore.Redux.Dispatch | paywall/src/middlewares/web3Middleware.js:105-246 | reduces an action, then copies a purchase for the page into its key; throws exactly for an update of an unknown transaction or a new purchase without a key |
| KeyStore.Redux.OnTransactionUpdated | paywall/src/middlewares/web3Middleware.js:82-90 | merges the update into the stored transaction; throws if and only if there is none |
| KeyStore.Redux.OnKeyUpdated | paywall/src/middlewares/web3Middleware.js:73-80 | the key, known or not, has every property that the update brings and keeps the others; no other key and no transaction changes |
| KeyStore.KeyUpdatesReachTheStore | paywall/src/reducers/keysReducer.js:29-61 | so it is for any store and update; an update that names another key changes nothing |
| KeyStore.TransactionUpdatesReachTheStore | paywall/src/middlewares/web3Middleware.js:82-90 | one transaction has every property that the update brings and keeps the others; if it was sent by the page's account to its lock or names the page's key, that key holds it, and is made with expiration 0 if it is missing |
| KeyStore.NewTransactionsReachTheStore | paywall/src/reducers/transactionsReducer.js:19-33 | a new transaction replaces what was stored under its hash and no other; the page's purchase shows in its key, whose other properties and transactions stay |
| KeyStore.ThrowsExactlyFor | paywall/src/middlewares/web3Middleware.js:188-220 | the middleware throws exactly for an update of an unknown transaction, which changes nothing, and for the page's purchase without its key, which is stored all the same |
| KeyStore.OtherActions | paywall/src/reducers/keysReducer.js:8-27 | resets forget everything, deleting forgets one transaction, and buying adds a missing key under its id or its lock and owner |
| KeyStore.ReducersKeepNames | paywall/src/reducers/keysReducer.js:8-64 | both reducers keep transactions under their hash and keys under their id |
| KeyStore.ActionsKeepNames | paywall/src/reducers/transactionsReducer.js:14-61 | so do actions with what the middleware adds to them |
| KeyStore.KeysSurvive | paywall/src/reducers/keysReducer.js:8-64 | no action but a reset removes a key, buying or adding an existing key changes nothing, and an action changes one key at most |
| KeyStore.UpdateReachesTheKey | paywall/src/middlewares/web3Middleware.js:211-246 | an update changes one transaction, and the page's key holds exactly that transaction afterwards |
| KeyStatus.ComparatorIsConsistent | paywall/src/selectors/keys.ts:35 | swapping the comparator's arguments swaps its verdict exactly when the block numbers differ |
| KeyStatus.SortByBlock | paywall/src/selectors/keys.ts:34-36 | the in-place sort permutes the transactions into descending block order |
| KeyStatus.KeyStatus | paywall/src/selectors/keys.ts:18-50 | the reported status is decided by a transaction of the key, than which none is newer if all have block numbers; throws exactly for an empty set of transactions |
| KeyStatus.StatusSpeaksOfALeader | paywall/src/selectors/keys.ts:38-49 | for any key, confirming, valid and expired are reported only of a mined transaction that may lead, by its confirmations and the clock; any other status is that transaction's own |
| KeyStatus.LeadersAreReported | paywall/src/selectors/keys.ts:38-49 | each transaction that may lead is reported, and one that is not mined as what it is |
| KeyStatus.KeysWithoutTransactions | paywall/src/selectors/keys.ts:28-33 | a key without transactions is valid exactly until it expires |
| KeyStatus.OrderIrrelevantExactlyWhenTopsAgree | paywall/src/selectors/keys.ts:34-49 | the status is independent of the order of enumeration if and only if the transactions with the greatest block number decide alike |
| KeyStatus.DistinctBlocksDecide | paywall/src/selectors/keys.ts:34-49 | with distinct block numbers the greatest comes first, whatever the order |
| KeyStatus.UnminedDecides | unlock-js/src/web3Service.js:320-325 | an unmined transaction decides over any number of mined ones |
| TransactionTracking.Web3Service.ParseTransactionFromInput | unlock-js/src/web3Service.js:310-344 | emits an unmined status with the sentinel block number, then the input handler's update |
| TransactionTracking.Web3Service.AfterReads | unlock-js/src/web3Service.js:432-510 | schedules a poll unless enough blocks are on top, and emits the status that the two reads mean |
| TransactionTracking.StaysAccounted | unlock-js/src/web3Service.js:437-502 | timers, polls and settled polls always add up to the trackers started |
| TransactionTracking.OneTimerUntilSettled | unlock-js/src/web3Service.js:437-502 | a transaction tracked once has exactly one timer or poll until a poll has seen enough blocks, and none afterwards |
| TransactionTracking.TrackingEnds | unlock-js/src/web3Service.js:495-502 | once the transaction is mined, tracking ends when a bounded number of polls have each read a greater height than the poll before, however many polls read the same height in between |
| TransactionTracking.ConfirmedEndsInTwoPolls | unlock-js/src/web3Service.js:350-354 | once the required blocks are on top, tracking ends with the second poll at the latest, whatever the chain does |
| PurchaseProgress.NewPurchaseIsTracked | paywall/src/middlewares/walletMiddleware.js:62-80 | the transaction that the wallet middleware dispatches, and the one known by its hash only, start a tracker and establish what the results on tracked purchases start from; the page's own purchase is shown at once |
| PurchaseProgress.LoadingReadiesTheKey | paywall/src/middlewares/web3Middleware.js:73-80 | loading the page's key replaces whatever expiration was stored, zero included, and adds the key if it is missing |
| PurchaseProgress.PurchasesOnlyMoveForward | unlock-js/src/web3Service.js:432-531 | under one tracker a successful purchase's status and confirmations never go back from its dispatch on; from the first update on its key's status only moves forward, if the key's other transactions were mined before |
| PurchaseProgress.ShownStatusIsTrue | paywall/src/selectors/keys.ts:38-46 | from the first update on, a key whose other transactions were mined before and that is shown as valid or expired really has the required blocks on top of its purchase, and is expired exactly when its time is over |
| PurchaseProgress.RivalsAreReported | paywall/src/selectors/keys.ts:34-49 | before the first update the key is reported as submitted or as any one of its other transactions decides, and as nothing else |
| PurchaseProgress.KeyForwardExactlyWithoutRivals | paywall/src/middlewares/web3Middleware.js:188-209 | if the key's other transactions were mined before, its status only moves forward from the dispatch on if and only if none of them has another status |
| PurchaseProgress.KeyForwardExactlyForFirstPurchases | paywall/src/selectors/keys.ts:34-49 | whatever the key's other transactions, its status only moves forward from the dispatch on if and only if they were mined by then and none has another status |
| PurchaseProgress.RenewalIsAmbiguous | paywall/src/selectors/keys.ts:35 | a renewal of an expired key is reported as expired and as submitted, depending on the sort |
| PurchaseProgress.SettledMeansValid | unlock-js/src/web3Service.js:495-510 | after the last poll the key whose newest transaction is the page's purchase is valid until it expires |
| PurchaseProgress.ForwardExactlyWhenTrackedOnce | unlock-js/src/web3Service.js:432-436 | whatever the node knows when tracking starts, the forward property holds if and only if one tracker was started |
| PurchaseProgress.RestartIsForwardExactlyAtTheBeginning | paywall/src/reducers/transactionsReducer.js:19-33 | starting another tracker overwrites the stored purchase, which is no step back exactly if nothing, or just the submission that is dispatched again, was stored |
| PurchaseProgress.FailureIsFinalExactlyWhenUntracked | unlock-js/src/web3Service.js:495-522 | a stored failure stays in every run without a new tracker if and only if no timer and no poll is left; with one tracker, if and only if a poll has seen enough blocks |
| PurchaseProgress.FailureShows | unlock-js/src/web3Service.js:518-522 | the receipt of a failure changes the told purchase's status and nothing else of it, and its key shows it |
| PurchaseProgress.FailedKeysStayFailed | paywall/src/selectors/keys.ts:47-48 | once tracking has ended, the key of a failed purchase is reported as failed and as nothing else in every run |
| PurchaseProgress.FailureIsTakenBack | unlock-js/src/web3Service.js:505-522 | a run in which a failed purchase that is still polled is stored as mined again |
| PurchaseProgress.PollsDo | unlock-js/src/web3Service.js:432-510 | what a poll that ends leaves: its timer unless enough blocks are on top, its receipt, the status, type and key that it read, and everything else as it was |
| PurchaseProgress.StartsDo | paywall/src/middlewares/web3Middleware.js:105-121 | a tracker is started with the transaction's own properties as defaults exactly if it is new or its input is known |
| PurchaseProgress.TimersAndTimeDo | unlock-js/src/web3Service.js:350-354 | a timer starts one poll without defaults |
| MainWindow.PerformRefinesWished | paywall/src/unlock.js/MainWindowHandler.ts:205-264 | each command keeps the three flags coherent and acts on them as on two plain variables |
| MainWindow.ModalsFollowTheLastCommands | paywall/src/unlock.js/MainWindowHandler.ts:205-264 | the checkout is visible exactly when it was shown last and the accounts modal is not open, never both, and a deferred show waits only while accounts is open |
| MainWindow.MainWindowHandler.constructor | paywall/src/unlock.js/MainWindowHandler.ts:35-51 | starts with both modals closed and announces a cached verdict |
| MainWindow.MainWindowHandler.ToggleLockState | paywall/src/unlock.js/MainWindowHandler.ts:77-90 | acts on a verdict only if it differs from the last one |
| MainWindow.MainWindowHandler.HideCheckoutIframe | paywall/src/unlock.js/MainWindowHandler.ts:205-209 | hides the checkout and cancels a deferred show |
| MainWindow.MainWindowHandler.ShowCheckoutIframe | paywall/src/unlock.js/MainWindowHandler.ts:215-228 | shows the checkout, or defers it while accounts is open |
| MainWindow.MainWindowHandler.ShowAccountIframe | paywall/src/unlock.js/MainWindowHandler.ts:236-247 | opens accounts and defers a visible checkout |
| MainWindow.MainWindowHandler.HideAccountIframe | paywall/src/unlock.js/MainWindowHandler.ts:254-264 | closes accounts and shows a deferred checkout |
| MainWindow.ChangesAlternate | paywall/src/unlock.js/MainWindowHandler.ts:83-84 | without consecutive repeats no two neighbours are equal, and the ends stay |
| MainWindow.StartupAnnouncesTheStoredVerdict | paywall/src/unlock.js/MainWindowHandler.ts:35-51 | at startup the page hears exactly the verdict whose flag is stored, and nothing if none is |
| MainWindow.PageHearsChanges | paywall/src/unlock.js/MainWindowHandler.ts:77-90 | the page hears the stored verdict, if there is one, and then the verdicts received without consecutive repeats; the status is the last verdict |
| MainWindow.CacheFollowsLastChange | paywall/src/unlock.js/MainWindowHandler.ts:92-118 | the stored flag is the last verdict if its last change could be written, and the next page then starts with that verdict; otherwise the flag is as before that change |
| Mailbox.Mailbox.GetUnlockedLockAddresses | paywall/src/data-iframe/Mailbox.ts:165-176 | returns the addresses of open locks in the snapshot's order |
| Mailbox.Mailbox.GetDataToSend | paywall/src/data-iframe/Mailbox.ts:295-310 | keeps the held snapshot exactly if the new one has fewer locks |
| Mailbox.Mailbox.EmitChanges | paywall/src/data-iframe/Mailbox.ts:315-333 | posts the kept snapshot's data and verdict, and the new keys and transactions |
| Mailbox.Mailbox.SendUpdates | paywall/src/data-iframe/Mailbox.ts:182-219 | posts the held snapshot's verdict and what was asked for, or an error |
| Mailbox.OpenUnlessClosed | paywall/src/data-iframe/Mailbox.ts:165-176 | a lock is closed to those without a key, with an expired one, or whose purchase failed, and open to all others |
| Mailbox.HeldIsLatestLargest | paywall/src/data-iframe/Mailbox.ts:295-310 | the held snapshot is the latest of those with the most locks, the starting cache among them |
| Mailbox.LatestLargestIsUnique | paywall/src/data-iframe/Mailbox.ts:295-310 | there is only one such snapshot |
| Mailbox.VerdictMessageCarries | paywall/src/data-iframe/Mailbox.ts:325-332 | unlocked with exactly the open locks if there are any, else locked if there are locks, else nothing |
| Mailbox.AnnouncedCarryTheHeldVerdict | paywall/src/data-iframe/Mailbox.ts:315-333 | what is posted for a new snapshot is the held snapshot's, apart from keys and transactions, and its verdict is the only one |
| Mailbox.AnnouncedInFull | paywall/src/data-iframe/Mailbox.ts:315-333 | each part of the larger or newer snapshot is posted once, with the new keys and transactions, and the verdict after them |
| Mailbox.AnnouncedAreOfOneSnapshotExactly | paywall/src/data-iframe/Mailbox.ts:315-333 | all of it, keys and transactions too, is the held snapshot's if and only if the new one has not fewer locks or brings the same keys and transactions |
| Mailbox.NewKeysWithOldLocks | paywall/src/data-iframe/Mailbox.ts:299-323 | a cached lock with no new locks yet: the old locks are posted with the new keys |
| Mailbox.UpdatesCarryTheHeldVerdict | paywall/src/data-iframe/Mailbox.ts:182-194 | a reply to a request carries the held snapshot's verdict |
| Mailbox.UpdatesAnswerTheRequest | paywall/src/data-iframe/Mailbox.ts:195-219 | the reply ends with the held value that was asked for, or with an error that names the request |
| VerdictChannel.PageHearsHeldVerdicts | paywall/src/unlock.js/MainWindowHandler.ts:56-61 | at any time the page has heard the stored verdict, if there was one, and a prefix of the held snapshots' verdicts without consecutive repeats, and all of them once the messages have arrived; the status is then the last verdict, and so is the stored flag if the storage works |
| Prelude.LowerFoldsCase | paywall/src/utils/normalizeAddresses.ts:4-7 | folding identifies exactly the strings that differ in the case of letters only, and leaves no capital |
| CacheKey.NormalizeAddressKeys | paywall/src/utils/normalizeAddresses.ts:17-29 | the loop builds the object whose keys are folded one after the other |
| CacheKey.NormalizedIs | paywall/src/utils/normalizeAddresses.ts:17-29 | its keys are the folded keys, each once, and the last value of a key wins |
| CacheKey.SortAscending | paywall/src/data-iframe/Mailbox.ts:440-442 | sorting different names gives the same names in strictly ascending order |
| CacheKey.AscendingIsUnique | paywall/src/data-iframe/Mailbox.ts:440-442 | there is only one such order, however it was sorted |
| CacheKey.ItemsAreInjective | paywall/src/data-iframe/Mailbox.ts:440-442 | the serialised list determines the addresses |
| CacheKey.AssignKeepsOrder | paywall/src/utils/normalizeAddresses.ts:17-29 | an existing property keeps its place and a new one comes last |
| CacheKey.LessIsLexicographic | paywall/src/data-iframe/Mailbox.ts:440-442 | the order of the sort: a proper prefix first, or else the string that is smaller where they first differ |
| CacheKey.KeyReads | paywall/src/data-iframe/Mailbox.ts:433-444 | the key is the prefix and the JSON array of the folded addresses in ascending order |
| CacheKey.SameKeyExactlyForSameLocks | paywall/src/data-iframe/Mailbox.ts:433-444 | two valid configurations have the same cache key if and only if they name the same lock addresses but for letter case, in whatever order |
| CacheKey.Configuration.SetConfig | paywall/src/data-iframe/Mailbox.ts:225-237 | stores the normalised locks of a valid configuration, on which the key then rests, and reports an invalid one without storing it |
| CacheKey.Configuration.GetCacheKey | paywall/src/data-iframe/Mailbox.ts:433-444 | fails without a configuration; otherwise the key is that of another valid configuration if and only if both name the same addresses but for letter case |
| Durations.DurationsAreMixedRadix | paywall/src/utils/durations.js:9-37 | the intervals are in mixed-radix form, none is zero, and they add up to the seconds |
| Durations.MixedRadixIsUnique | paywall/src/utils/durations.js:9-37 | they are the only such intervals |
| Durations.TextReadsBack | paywall/src/utils/durations.js:43-77 | a parser that accepts only falling units, positive numbers without leading zeros, singular for one, commas and a last "and" recovers the whole seconds from the printed text, for every nonnegative number of seconds |
| Durations.TextsAreDistinct | paywall/src/utils/durations.js:43-77 | equal texts stand for equal whole seconds |
| Durations.NegativeDurations | paywall/src/utils/durations.js:9-18 | a negative duration is one interval of seconds, rounded down and plural |
| Dates.GetDaysMonthsAndYears | tickets/src/utils/dates.js:8-49 | computes the offered days, months and years |
| Dates.LengthIsRight | tickets/src/utils/dates.js:25-42 | the code's month length is the calendar's, except in February of some centuries before the year zero |
| Dates.OfferedDaysAreValid | tickets/src/utils/dates.js:25-47 | the days offered for an offered month are exactly its valid days not before today, if and only if it is no such February and not a month of a year zero that is taken for a missing year; always from the year zero on |
| Dates.FormOffersExactlyTheUpcomingDates | tickets/src/utils/dates.js:8-49 | the offered triples are exactly the dates from today to the end of the third year, if and only if no such February and no year zero taken for a missing year is offered; never an issue from the year zero on |
| Dates.FirstCallOffersTheRestOfTheMonth | tickets/src/components/interface/DatePicker.js:33 | without a year and a month, what is left of this month and of this year is offered |
| OwnerPages.PagesCoverEachIndexOnce | unlock-js/src/web3Service.js:586-627 | whatever lookups fail, the pages put together are the successful lookups of all indices, each once and in order |
| OwnerPages.PagesComeFrom | unlock-js/src/web3Service.js:655-680 | the contract's own page counts, whatever its lookups by index say, unless it fails or is empty |
| OwnerPages.PageIsASlice | unlock-js/src/web3Service.js:655-680 | a page is a slice of the owners by either route, also if the contract wrongly answers with an empty page |
| OwnerPages.PagesListAllOwners | unlock-js/src/web3Service.js:586-680 | enough pages list every owner exactly once and in order, whichever pages the contract answers itself |
| OwnerPages.ListedKeysAre | unlock-js/src/web3Service.js:598-609 | each listed key names its lock, its owner and its expiration, and is named after the first two |
| AbiVersions.VersionsAreInOrder | unlock-js/src/unlockService.js:60-77 | the four known version numbers are in the order of their contract interfaces, and any other means the oldest |
| AbiVersions.UnlockService.ContractAbiVersion | unlock-js/src/unlockService.js:44-56 | answers from the table under the folded address, or starts a lookup |
| AbiVersions.UnlockService.ResumeContractAbiVersion | unlock-js/src/unlockService.js:56-77 | stores the version under the folded address and answers with it |
| AbiVersions.TransparentExactlyWhenAgreed | unlock-js/src/unlockService.js:44-93 | in every interleaving each call returns what it would without the table, if and only if calls for one address, in whatever letter case, agree however they look it up |
| AbiVersions.OtherCaseCanSpoil | unlock-js/src/web3Service.js:470-475 | the Unlock address in another letter case is looked up as a lock, which is harmless only if both lookups give the same version |
| AbiVersions.CallsInTurnQueryOnce | unlock-js/src/unlockService.js:52-58 | calls that do not overlap query each address exactly once, in whatever letter case, and all return |

## Left out

- ProxyProvider.Web3ProxyProvider.HandleWeb3: does not model message ids that are names of inherited object properties; ids are numbers here.
- KeyStatus.SortByBlock: the language leaves the order open for an inconsistent comparator, so for missing and for tied block numbers. For missing ones nothing but the permutation is described or assumed; that ties are left in descending order is an assumption about the engine.
- KeyStatus.OrderIrrelevantExactlyWhenTopsAgree: rests on that assumption where block numbers are tied.
- KeyStore.Redux.Dispatch: covers pages with a lock in the address and a signed-in account only, and not the reloads of locks, keys and balances that other actions trigger.
- PurchaseProgress.PurchasesOnlyMoveForward: provider errors, which end a tracker, are not modelled. The page's key is in the store with its expiration fixed; the code stores zero until it is fetched. The key's other transactions do not change meanwhile.
- PurchaseProgress.KeyForwardExactlyForFirstPurchases: the key's other transactions stay as they are while the purchase is tracked, and their block numbers are safe integers.
- Durations.TextReadsBack: seconds are real numbers, not floating-point ones, so the notation of numbers from 1e21 on is not modelled.
- AbiVersions.TransparentExactlyWhenAgreed: a failed lookup counts as version 0 in the code and is memoised as such; lookups do not fail here.
- CacheKey.Configuration.SetConfig: does not model that the held snapshot is then reloaded from the cache; that snapshot is an input of `Mailbox`.
- CacheKey.SameKeyExactlyForSameLocks: addresses are ASCII, as the validator's pattern demands; the rest of the validator is an input.
- `expirationAsText`, `expirationAsDate` and `getTimeString`: format single values and would add only easy members; the rounding in `expirationAsDate` is not monotone.
- Setting up the user accounts iframe and forwarding purchase requests in `Wallet.ts`: messages passed on unchanged.
- `setupPostOffice`: registering listeners and checking a message's source, origin and shape; delivery to the right handler is assumed.
- The contract objects cached by `getLockContract` and `getUnlockContract`: made by a library from the version that is modelled.
- Reading and checking the cached snapshot (`getBlockchainDataFromLocalStorageCache`, `sanitizeBlockchainData`): the starting cache is an input. Saving it is switched off in the code.
- `purchaseKey`, `init` and the storage listener of the data iframe: calls into the blockchain handler, which is not part of this model.
- The style of the page's body while modals are visible, and the definition of the `unlockProtocol` variable.
- Parsing of transaction input and logs, contract calls and balances: foreign code whose results are inputs.
