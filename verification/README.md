# Flowee the Hub: wallet view and Bitcore proxy, verified models

A Dafny model of the stateful and arithmetic core of two programs of the Flowee the Hub repository: the graphical
wallet `hub-qt` and the REST proxy `bitcore-proxy` with the asynchronous search engine below it
(`libs/apputils/Blockchain.cpp`). `dafny verify dfyconfig.toml` checks the whole project.

| files | what they model |
|---|---|
| `TransactionRecords`, `TransactionTable`, `NotificationQueue`, `TransactionTableRuns` | how a wallet transaction becomes rows, the cached row list with its two binary searches, the notification queue, and every interleaving of wallet changes, batching and delayed updates |
| `BitcoreSearch`, `BitcoreWebRequests` | the search engine and the callbacks of a web request, as a state machine over starts, replies and failures in any order |
| `BitcoreCoins`, `BitcoreCoinsRuns`, `BitcoreCoinsAnswer` | the coins of a transaction: the job list, every run, the answer |
| `BitcoreAddress`, `BitcoreBalance`, `BitcoreBalanceAnswer`, `BitcoreAddressTxs` | balance, unspent outputs and transactions of an address: every run, the table, the balance |
| `BitcoreListing`, `BitcoreUnspentListing`, `BitcoreTxsListing` | what is listed for an address, and how often |
| `BitcoreTermination`, `BitcoreAddressTermination` | that every search ends, and can end without failures |
| `FreespaceHandshake` | the two-thread handshake of the data directory dialog, statement by statement |
| `BitcoinUnits`, `AmountTexts`, `AmountField`, `PaymentUri` | amount text and all texts that are accepted, the amount entry field, payment URIs |
| `CommandLine` | the splitter of console command lines, against a quoting grammar |
| `SortKeys`, `AddressTable`, `CoinControl` | text keys that sort like numbers, the address list against the wallet's address book, the figures of the coin selection dialog |
| `Options`, `Sequences`, `Counting`, `KeySums`, `Decimals` | supporting definitions and facts |

Code that changes state step by step is a class or a method with the source's loops and branches, proved equal to a
specification function; the theorems are about these functions and about runs of them.

## Where the code differs from what it says or is for

Each of these is proved as an exact condition (if and only if).

- The row cache of the transaction view is said to be sorted by hash because it is built in wallet order
  (`hub-qt/transactiontablemodel.cpp:85-88`). The wallet's map is a hash table (`libs/server/wallet/wallet.h:630`).
  The searches find every row exactly when the list is sorted (`SearchesWorkIffSorted`), the list is consistent with the
  wallet over every run exactly when the transactions that have rows were iterated by ascending hash
  (`ConsistentIffIteratedInHashOrder`). From any other start there is a transaction that its own search misses as a whole
  (`AllOrNothing`), and when the wallet announces it once more, unchanged, all its rows are inserted a second time
  (`OtherStartGoesWrong`).
- The rows of a transaction add up to its net effect exactly when it gains without spending anything of the wallet, or does
  not gain and is not overspent, or is an immature coinbase whose owned outputs make up for its inputs
  (`RowsAddUpToNetIff`); a joint transaction is overstated (`JointGainIsOverstated`).
- The proxy fetches a transaction once per unspent output and then adds up all its unspent outputs each time. After every
  run, whatever failed in it, the balance is the sum of the outputs reported unspent, each as often as its transaction was
  delivered (`BalanceAfterAnyRun`). If all these transactions were delivered, that is the sum of the outputs reported unspent
  exactly when each transaction with some value was delivered once (`BalanceIsTheReportedIff`). Without failures it is the
  true balance exactly when no two entries of the indexer's list for unspent outputs worth something share a transaction
  (`ReportedBalanceIsTrueIff`).
- Each output reported unspent is listed once exactly when all fetches of its transaction but one failed
  (`ListedOnceIffAllButOneFailed`); without failures, when no two share a transaction (`ListedOnceIffNoSharedTransaction`).
- In the list of an address's transactions, a transaction that also spends an output of the address is delivered a second
  time without its data (`BitcoreTxsListing.ListingAfterAnyRun`). Without failures, outputs are listed once, and listed
  transactions are complete, exactly when there is no such transaction (`TransactionsAreListedOnceIff`).
- A coins request finishes with no answer exactly when the transaction is unknown to the indexer or the hub fails to deliver
  it (`NoAnswerIff`), and then reads the first answer (`bitcore-proxy/BitcoreProxy.cpp:742`). A failed fetch of another
  transaction leaves out exactly the value or the spender it was for (`ReportOmitsExactlyTheFailed`).
- The OK button of the directory dialog can be enabled by the result for an earlier path while the latest path is
  unchecked (`ImpatientUserCanSeeStaleOk`). Without a further entry that can come about exactly when it is so already or an OK
  for another path can still arrive (`StaleOkIff`), so over a whole run it cannot exactly when each path was entered while no
  such result was on its way (`HarmlessIffCareful`). In any case it does not last: a check of the latest path is still to
  come (`EnabledOkIsCurrentOrTransient`) and comes (`LatestPathIsChecked`).
- Printing and parsing an amount is the identity exactly below 10^17, or 10^18 where no sign is printed (`RoundTrip`). The
  parser removes ordinary and thin spaces but not other blanks, and fills the fraction with zeros before it reads. Its
  accepted texts are exactly those of four forms (`AcceptedForms`), and each of them denotes a decimal, with blanks between
  its parts, exactly when there is no sign in the fraction (`DenotesIffNoSignInFraction`). Such a text is read as that decimal
  exactly when its fraction is digits only or it denotes zero (`ExactIffDigitsOrZero`): each blank in the fraction takes
  the place of a digit (`TrailingTabMisreads`). A sign inside the fraction is accepted (`SignInFractionIsAccepted`).
- Renaming an address with an empty purpose keeps the stored purpose but announces none, so the list guesses. The list equals
  a rebuilt list exactly when no such guess differs from the stored kind (`ListEqualsRebuildIff`). Paying an own address twice
  under different labels moves it from the sending addresses to the receiving ones (`RenameCanMisplace`).
- The rows of a transaction with more than a thousand rows do not sort in row order (`RowsInOrderIffAtMostThousand`).

## Modelling decisions

- Hashes, transaction ids and addresses are numbers in the order the code compares them by. Amounts are unbounded integers.
- The chain that the hub and the indexer answer from is a value (`Chain`) with the consistency `ValidChain`: places are
  positive, ids determine transactions, found places exist. Every reply may be late, and block, transaction and
  unspent-output requests may fail; the results about answers hold after every run that finishes, failures included, unless
  they say otherwise. The coins report also assumes that the inputs of the transaction are not among its
  own spenders (`NoCycle`). The indexer may name an output of an address more than once.
- Wallet notifications arrive in order, every change of visibility is announced, and a transaction decomposes the same way
  whenever it is decomposed. Which addresses belong to the wallet does not change while the address list is open.

## Model

| member | source | states |
|---|---|---|
| `TransactionRecords.DecomposeTransaction` | hub-qt/transactionrecord.cpp:48-181 | the loops, running ownership minima and the fee that is zeroed once charged produce exactly the rows of `Decompose` |
| `TransactionRecords.CreditIsOwnedValue` | libs/server/wallet/wallet.cpp:1057-1067 | outside an immature coinbase the credit over spendable and watch-only outputs is the value of all owned outputs |
| `TransactionRecords.DebitIsOwnedValue` | libs/server/wallet/wallet.cpp:1044-1055 | the debit over spendable and watch-only inputs is the value of all inputs that are ours |
| `TransactionRecords.NetIsConserved` | hub-qt/transactionrecord.cpp:86-177 | for a transaction that does not gain, the rows add up to the net effect exactly when it is not overspent, and otherwise miss it by the negative fee |
| `TransactionRecords.GainIsCredit` | hub-qt/transactionrecord.cpp:59-85 | for a gain or a coinbase the rows add up to the owned outputs |
| `TransactionRecords.RowsAddUpToNetIff` | hub-qt/transactionrecord.cpp:48-181 | for every transaction, an immature coinbase included, exactly when the displayed rows add up to the net effect |
| `TransactionRecords.JointGainIsOverstated` | hub-qt/transactionrecord.cpp:59-85 | a concrete transaction whose rows show 3 although the net effect is 2 |
| `TransactionRecords.GainHasARowPerOwnedOutput` | hub-qt/transactionrecord.cpp:59-92 | a gain or coinbase has one row per owned output, in order: its value, kind and address by destination, owner and coinbase, and whether it is only watched |
| `TransactionRecords.SelfPaymentHidesChange` | hub-qt/transactionrecord.cpp:114-123 | a payment to ourselves is one row that credits what went to addresses of the address book and debits that and the fee |
| `TransactionRecords.FeeIsChargedOnceToTheFirstRecipient` | hub-qt/transactionrecord.cpp:124-170 | one row per foreign output, in order, with kind and address by its destination; only the first carries the fee |
| `TransactionRecords.MixedIsOneRow` | hub-qt/transactionrecord.cpp:171-178 | any other transaction is one row with the net effect |
| `TransactionRecords.RowsAreKeyed` | hub-qt/transactionrecord.cpp:48-181 | every row carries the transaction's hash and its own position as idx |
| `TransactionTable.BoundsAreOrdered` | hub-qt/transactiontablemodel.cpp:117-122 | on any list, sorted or not, the lower search never ends after the upper one |
| `TransactionTable.BoundsDelimitTheBlock` | hub-qt/transactiontablemodel.cpp:117-122 | on a sorted list the two searches delimit exactly the rows of the transaction |
| `TransactionTable.SearchesWorkIffSorted` | hub-qt/transactiontablemodel.cpp:56-70 | the searches find every row exactly when the list is sorted by hash |
| `TransactionTable.AllOrNothing` | hub-qt/transactiontablemodel.cpp:117-122 | on any list, sorted or not, in which the rows of a transaction stand together, the two searches enclose all of them or meet at a place outside them |
| `TransactionTable.SortedListIsItsBlocks` | hub-qt/transactiontablemodel.cpp:85-89 | two sorted lists with the same rows per transaction are equal |
| `TransactionTable.RefreshAgrees` | hub-qt/transactiontablemodel.cpp:93-105 | a rebuild holds, per transaction, exactly what should be displayed, in whatever order the map is iterated |
| `TransactionTable.RefreshIsContiguous` | hub-qt/transactiontablemodel.cpp:93-105 | a rebuild places the rows of each transaction together, in whatever order the map is iterated |
| `TransactionTable.RefreshSortedIffAscending` | hub-qt/transactiontablemodel.cpp:93-105 | a rebuild is sorted exactly when the transactions that have rows are iterated by ascending hash |
| `TransactionTable.SignalsTrackTheList` | hub-qt/transactiontablemodel.cpp:139-186 | on any list, a view that follows only the announced row ranges stays equal to the list |
| `TransactionTable.InsertsOnlyWhatIsShown` | hub-qt/transactiontablemodel.cpp:124-187 | rows are inserted only for a transaction that the wallet holds and that is to be shown, and removed only for one deleted or no longer shown |
| `TransactionTable.UpdateReplacesOneBlock` | hub-qt/transactiontablemodel.cpp:112-187 | on a sorted list an update keeps the order, replaces the transaction's rows as a whole and leaves all other rows alone |
| `TransactionTable.DecompositionIsWellKeyed` | hub-qt/transactionrecord.cpp:48-181 | the rows of every transaction are keyed by its hash and their position |
| `TransactionTable.TransactionTablePriv.RefreshWallet` | hub-qt/transactiontablemodel.cpp:93-105 | the loop leaves the list `Refresh` describes |
| `TransactionTable.TransactionTablePriv.FindLower` | hub-qt/transactiontablemodel.cpp:117-118 | the halving loop returns the lower bound, on any list |
| `TransactionTable.TransactionTablePriv.FindUpper` | hub-qt/transactiontablemodel.cpp:119-120 | the halving loop returns the upper bound, on any list |
| `TransactionTable.TransactionTablePriv.UpdateWallet` | hub-qt/transactiontablemodel.cpp:112-187 | list and announced range become those of `Update` |
| `NotificationQueue.FlushDelivers` | hub-qt/transactiontablemodel.cpp:732-751 | a flush delivers every held notification once, in order, all but the last ten suppressed, and leaves suppression off |
| `NotificationQueue.FlushBalloons` | hub-qt/transactiontablemodel.cpp:740-748 | of n flushed notifications exactly the last min(n, 10) arrive with balloons |
| `NotificationQueue.Notifier.NotifyTransactionChanged` | hub-qt/transactiontablemodel.cpp:714-730 | the queues become those of `Announce`, the step of the runs: held back while batching and posted otherwise |
| `NotificationQueue.Notifier.ShowProgress` | hub-qt/transactiontablemodel.cpp:732-751 | the queues become those of `Advance`, the step of the runs: progress 0 starts batching, progress 100 ends it and posts the flush |
| `TransactionTableRuns.NothingIsLostOrReordered` | hub-qt/transactiontablemodel.cpp:711-751 | in every reachable state, what the view received, will receive and what is held back is what the wallet announced, in order |
| `TransactionTableRuns.HeldBackSinceProgressStarted` | hub-qt/transactiontablemodel.cpp:714-751 | over every run, from its steps alone: notifications are held back exactly when the last progress of 0 or 100 was one of 0, and those held back are what was announced since |
| `TransactionTableRuns.WhatAStepPosts` | hub-qt/transactiontablemodel.cpp:714-751 | while they are held back no wallet change is posted, otherwise each is posted at once, and progress 100 posts what was held back |
| `TransactionTableRuns.RowsAreWholeBlocks` | hub-qt/transactiontablemodel.cpp:112-187 | in every reachable state the list is sorted and each transaction's rows are one contiguous block, empty or whole |
| `TransactionTableRuns.RowsAreUnique` | hub-qt/transactiontablemodel.cpp:112-187 | no two rows of a reachable list share hash and idx |
| `TransactionTableRuns.QuiescentConsistency` | hub-qt/transactiontablemodel.cpp:107-187 | however changes, batching and delayed updates interleave, once nothing is pending the list equals a rebuild from the current wallet |
| `TransactionTableRuns.AscendingStartStaysConsistent` | hub-qt/transactiontablemodel.cpp:85-105 | a start in hash order is consistent after every run |
| `TransactionTableRuns.MissedRowsAreDoubled` | hub-qt/transactiontablemodel.cpp:112-172 | a transaction one of whose rows its search misses gets all its rows a second time when it is announced as still shown |
| `TransactionTableRuns.OtherStartGoesWrong` | libs/server/wallet/wallet.h:630 | from any other start there is a shown transaction whose plain update leaves all its rows on display twice |
| `TransactionTableRuns.ConsistentIffIteratedInHashOrder` | hub-qt/transactiontablemodel.cpp:85-105 | consistency over all runs holds exactly for starts in hash order |
| `BitcoreSearch.RunKeepsRows` | bitcore-proxy/BitcoreProxy.cpp:585-662 | over every run of every request no transaction or output is dropped from the table and a resolved output never becomes unknown again |
| `BitcoreCoins.ScanAppendsPairs` | bitcore-proxy/BitcoreProxy.cpp:505-571 | scanning a delivered transaction appends one lookup and one waiting fetch per input and per output, each naming the job after it |
| `BitcoreCoins.DeliveryLoads` | bitcore-proxy/BitcoreProxy.cpp:505-571 | delivery of the transaction establishes the invariant on jobs, rows, answers and heights |
| `BitcoreCoinsRuns.CoinsNeverCrash` | bitcore-proxy/BitcoreProxy.cpp:505-611 | no run of a coins request fails an assertion, whatever the order of replies and failures, and every reachable job list has the described shape |
| `BitcoreCoinsRuns.SpentLookupNamesRow` | bitcore-proxy/BitcoreProxy.cpp:585-611 | in every reachable state the answer to a spent-lookup finds its row |
| `BitcoreCoinsAnswer.BuildReport` | bitcore-proxy/BitcoreProxy.cpp:740-819 | the loop over the raw transaction builds the report of `Scan` |
| `BitcoreCoinsAnswer.ScanReports` | bitcore-proxy/BitcoreProxy.cpp:740-819 | the report lists every looked-up input and every output once, in order |
| `BitcoreCoinsAnswer.FinishedPairs` | libs/apputils/Blockchain.cpp:725-940 | when the engine reports the end, every lookup is done and every fetch that had something to fetch |
| `BitcoreCoinsAnswer.NoAnswerIff` | bitcore-proxy/BitcoreProxy.cpp:740-743 | a finished search has no answer exactly when the id is unknown or the fetch of the transaction failed |
| `BitcoreCoinsAnswer.CoinsReportAfterAnyRun` | bitcore-proxy/BitcoreProxy.cpp:740-819 | after every run that finishes, whatever failed, the report fails exactly then, and otherwise is what the chain says but for what the failed fetches leave out |
| `BitcoreCoinsAnswer.ReportOmitsExactlyTheFailed` | bitcore-proxy/BitcoreProxy.cpp:745-819 | after every run that finishes and delivered the transaction: every input and output once, in order, with position, value and resolved height; the value of an input is missing exactly when the chain has none or all fetches for it failed, a spender exactly when the output is unspent or all fetches of the spender failed |
| `BitcoreCoinsAnswer.CoinsReportIsTheChains` | bitcore-proxy/BitcoreProxy.cpp:740-819 | the special case without failures: nothing is left out |
| `BitcoreAddress.UsesAreListed` | bitcore-proxy/BitcoreProxy.cpp:613-649 | reporting any list of uses never fails and leaves exactly the described table and jobs |
| `BitcoreBalance.BalanceNeverCrashes` | bitcore-proxy/BitcoreProxy.cpp:613-676 | no run of a balance or unspent-outputs request fails an assertion or names a missing row |
| `BitcoreBalanceAnswer.AddUpBalance` | bitcore-proxy/BitcoreProxy.cpp:866-876 | the nested loops compute the balance of `BalanceOf` |
| `BitcoreBalanceAnswer.DeliveriesMatchReported` | bitcore-proxy/BitcoreProxy.cpp:651-676 | once finished, each transaction was fetched once per report of an unspent output of it, and delivered by the fetches that did not fail |
| `BitcoreBalanceAnswer.BalanceAfterAnyRun` | bitcore-proxy/BitcoreProxy.cpp:866-883 | after every run that finishes, however often the indexer names an output, the loops neither fail the assertion nor follow a missing row, and the balance is the distinct outputs reported unspent, each as often as its transaction was delivered |
| `BitcoreBalanceAnswer.BalanceIsTheReportedIff` | bitcore-proxy/BitcoreProxy.cpp:866-883 | if every transaction reported unspent was delivered, the balance is the sum of the distinct outputs reported unspent exactly when each transaction worth something was delivered once |
| `BitcoreBalanceAnswer.ReportedBalance` | bitcore-proxy/BitcoreProxy.cpp:866-883 | the special case without failures: each distinct unspent output, as often as its transaction is named with an unspent output |
| `BitcoreBalanceAnswer.WeightedAtLeastTrue` | bitcore-proxy/BitcoreProxy.cpp:866-876 | with every transaction delivered at least once the sum is never too small, and exact exactly when those worth something were delivered once |
| `BitcoreBalanceAnswer.ReportedBalanceIsTrueIff` | bitcore-proxy/BitcoreProxy.cpp:866-883 | after every run without failures the balance is never too small, and true exactly when no two entries of the indexer's list for unspent outputs worth something share a transaction |
| `BitcoreAddressTermination.SharedTransactionIsCountedTwice` | bitcore-proxy/BitcoreProxy.cpp:866-876 | a concrete address with outputs of 5 and 7 and a run of its request that finishes with the balance 24 |
| `BitcoreAddressTxs.AddressTxsNeverCrashes` | bitcore-proxy/BitcoreProxy.cpp:505-649 | no run of an AddressTxs request fails an assertion |
| `BitcoreAddressTxs.OneFullFetchPerTransaction` | bitcore-proxy/BitcoreProxy.cpp:613-649 | in every reachable state there is exactly one full fetch per transaction of the table, and no other |
| `BitcoreAddressTxs.TableAfterAnyRun` | bitcore-proxy/BitcoreProxy.cpp:585-611 | at the end an output carries its true spender, or -2 when it is unspent, exactly when the full fetch of its transaction did not fail, and is unknown otherwise |
| `BitcoreListing.ListingIsCounted` | bitcore-proxy/BitcoreProxy.cpp:820-865 | in that list an output occurs as often as its transaction was delivered, if it is shown at all |
| `BitcoreListing.ListOutputs` | bitcore-proxy/BitcoreProxy.cpp:820-865 | the nested loops build the list of `Listing`: per delivery of a transaction of the table, its rows by ascending output index, each with its value, spent height and spender; so an output is listed once per delivery |
| `BitcoreUnspentListing.ListingAfterAnyRun` | bitcore-proxy/BitcoreProxy.cpp:820-865 | after every run that finishes exactly the outputs reported unspent can be listed, each once per fetch of its transaction that did not fail |
| `BitcoreUnspentListing.RowsShowTheChain` | bitcore-proxy/BitcoreProxy.cpp:820-865 | after every run that finishes every listed row is an output reported unspent, with the id of its transaction, its value on the chain, -2 and no spender |
| `BitcoreUnspentListing.ListedOnceIffAllButOneFailed` | bitcore-proxy/BitcoreProxy.cpp:651-676 | each output reported unspent is listed once exactly when all fetches of its transaction but one failed |
| `BitcoreUnspentListing.ListedOnceIffNoSharedTransaction` | bitcore-proxy/BitcoreProxy.cpp:651-676 | the special case without failures: exactly when no two entries for unspent outputs share a transaction |
| `BitcoreTxsListing.RunMatches` | libs/apputils/Blockchain.cpp:528-672 | over every AddressTxs run, each fetch that finished without failing has delivered exactly one answer, and there are no others |
| `BitcoreTxsListing.DeliveriesAtTheEnd` | libs/apputils/Blockchain.cpp:528-672 | at the end a transaction was delivered by its full fetch and once per output of the address that it spends, as far as these fetches did not fail |
| `BitcoreTxsListing.ListedRow` | bitcore-proxy/BitcoreProxy.cpp:829-861 | what a delivery shows of an output: the value if it carries data, the height in the table, the spender id if that was delivered |
| `BitcoreTxsListing.ListingAfterAnyRun` | bitcore-proxy/BitcoreProxy.cpp:820-865 | after every run that finishes, how often each output is listed, which spender its row has, and exactly when all listed transactions carry their data |
| `BitcoreTxsListing.TransactionsAreListedOnceIff` | bitcore-proxy/BitcoreProxy.cpp:820-865 | the special case without failures: an output is listed once exactly when its transaction spends no output of the address, and all listed transactions carry their data exactly when no transaction does |
| `BitcoreTermination.RunsAreBounded` | libs/apputils/Blockchain.cpp:725-940 | for every request and every order of answers a run has at most two events per job created |
| `BitcoreTermination.UnfinishedIffEnabled` | libs/apputils/Blockchain.cpp:725-940 | nothing is in flight or startable exactly when no step is possible |
| `BitcoreTermination.CoinsTerminate` | bitcore-proxy/BitcoreProxy.cpp:505-611 | no run of a coins request has more than 8 + 4 (inputs + outputs) events |
| `BitcoreTermination.CoinsAreNotRejected` | libs/apputils/Blockchain.cpp:926-934 | in every reachable state of a coins request no startable job has a definition that the engine rejects |
| `BitcoreTermination.CoinsRequestCanFinish` | libs/apputils/Blockchain.cpp:725-940 | every coins request has a run that finishes without failures |
| `BitcoreAddressTermination.AddressRequestsTerminate` | bitcore-proxy/BitcoreProxy.cpp:613-676 | no run of a balance, unspent or transactions request has more than 2 + 6 n events, where n outputs pay the address |
| `BitcoreAddressTermination.AddressJobsAreNotRejected` | libs/apputils/Blockchain.cpp:926-934 | the same as for coins: no startable job is rejected |
| `BitcoreAddressTermination.AddressRequestCanFinish` | libs/apputils/Blockchain.cpp:725-940 | every address request has a run that finishes without failures |
| `BitcoreWebRequests.BitcoreWebRequest.ForCoins` | bitcore-proxy/BitcoreProxy.cpp:355-382 | the request starts with the two jobs of `CoinsRequest` |
| `BitcoreWebRequests.BitcoreWebRequest.ForAddress` | bitcore-proxy/BitcoreProxy.cpp:385-429 | the request starts with the lookup of `AddressRequest` |
| `BitcoreWebRequests.BitcoreWebRequest.PlaceholderRows` | bitcore-proxy/BitcoreProxy.cpp:505-535 | one placeholder row per output of the raw transaction, and no other |
| `BitcoreWebRequests.BitcoreWebRequest.TransactionAdded` | bitcore-proxy/BitcoreProxy.cpp:505-571 | the in-place updates have the effect of the specification callback |
| `BitcoreWebRequests.BitcoreWebRequest.TxIdResolved` | bitcore-proxy/BitcoreProxy.cpp:573-583 | likewise: the height of an id is remembered once |
| `BitcoreWebRequests.BitcoreWebRequest.SpentOutputResolved` | bitcore-proxy/BitcoreProxy.cpp:585-611 | likewise: the row of the output gets the spender, or -2 |
| `BitcoreWebRequests.BitcoreWebRequest.AddressUsedInOutput` | bitcore-proxy/BitcoreProxy.cpp:613-649 | likewise: a row is added unless present, and the job of the mode |
| `BitcoreWebRequests.BitcoreWebRequest.UtxoLookup` | bitcore-proxy/BitcoreProxy.cpp:651-676 | likewise: an unspent output is marked and its transaction fetched |
| `BitcoreWebRequests.BitcoreWebRequest.ProcessRequests` | libs/apputils/Blockchain.cpp:725-940 | the engine's loop over the jobs is a run of start events after which nothing can be started, and it reports the end exactly when it started or rejected nothing and nothing was in flight |
| `FreespaceHandshake.AtMostOneRequest` | hub-qt/intro.cpp:293-313 | over all interleavings at most one request is unread, and outside the critical section one is exactly when `signalled` is set |
| `FreespaceHandshake.MutualExclusion` | hub-qt/intro.cpp:293-313 | the two critical sections exclude each other |
| `FreespaceHandshake.QuiescentStatusIsForLatestPath` | hub-qt/intro.cpp:42-51 | when nothing is queued, running or in transit, the status shown is for the path entered last |
| `FreespaceHandshake.EnabledOkIsCurrentOrTransient` | hub-qt/intro.cpp:221-258 | an enabled OK button is for the path entered last, or the check of that very path is still to come |
| `FreespaceHandshake.QuietRunsAreBounded` | hub-qt/intro.cpp:42-51 | without further entries every run is bounded |
| `FreespaceHandshake.PendingCanGoOn` | hub-qt/intro.cpp:42-51 | while something is pending a step other than an entry is possible |
| `FreespaceHandshake.LatestPathIsChecked` | hub-qt/intro.cpp:42-51 | from every reachable state a run without entries leads to a state in which nothing is pending and the status shown is for the latest path |
| `FreespaceHandshake.StaleOkIff` | hub-qt/intro.cpp:221-258 | in every reachable state OK can become enabled for another path without a further entry exactly when it is so or an OK for another path can still arrive |
| `FreespaceHandshake.HarmlessIffCareful` | hub-qt/intro.cpp:221-258 | over every run, no state can lead to a stale OK exactly when each path was entered while no result for another path could still arrive |
| `FreespaceHandshake.PatientUserSeesNoStaleOk` | hub-qt/intro.cpp:221-258 | if each result is awaited before the next path, OK is never enabled by a stale result |
| `FreespaceHandshake.ImpatientUserCanSeeStaleOk` | hub-qt/intro.cpp:253-258 | a concrete run from the start that ends with OK enabled for another path than the one entered last |
| `FreespaceHandshake.DialogSectionIsCheckPath` | hub-qt/intro.cpp:293-303 | the statement-level section has the effect of `Intro.CheckPath` |
| `FreespaceHandshake.CheckerSectionIsGetPathToCheck` | hub-qt/intro.cpp:305-313 | the statement-level section has the effect of `Intro.GetPathToCheck` |
| `FreespaceHandshake.Intro.CheckPath` | hub-qt/intro.cpp:293-303 | the path is stored and a request sent unless one is unread |
| `FreespaceHandshake.Intro.GetPathToCheck` | hub-qt/intro.cpp:305-313 | the path is handed out and the flag cleared |
| `BitcoinUnits.InsertSeparators` | hub-qt/bitcoinunits.cpp:112-118 | inserting from the right at positions of the original digits groups the digits by three |
| `BitcoinUnits.FormatAmount` | hub-qt/bitcoinunits.cpp:97-125 | the text is sign, grouped whole part, dot and padded fraction |
| `BitcoinUnits.UngroupedDigits` | hub-qt/bitcoinunits.h:124-132 | removing spaces undoes the grouping |
| `BitcoinUnits.AcceptedValueIsBounded` | hub-qt/bitcoinunits.cpp:149-186 | any accepted text denotes less than 10^18, which fits 63 bits |
| `BitcoinUnits.DecimalTextIsExact` | hub-qt/bitcoinunits.cpp:149-186 | decimal text with spaces anywhere is accepted exactly when short enough, with the exact value |
| `BitcoinUnits.RoundTrip` | hub-qt/bitcoinunits.cpp:97-186 | for every unit, style, sign choice and amount, exactly when parsing returns the printed amount; otherwise it refuses |
| `BitcoinUnits.SmallAmountsRoundTrip` | hub-qt/bitcoinunits.cpp:97-186 | every amount below 10^17 survives in every unit and style |
| `BitcoinUnits.OneSatoshiIsPrinted` | hub-qt/bitcoinunits.cpp:74-125 | one satoshi, and minus one, as printed in the units, with and without the plus sign |
| `BitcoinUnits.NothingIsPrinted` | hub-qt/bitcoinunits.cpp:97-125 | nothing is printed without a sign |
| `BitcoinUnits.GroupsAreSeparated` | hub-qt/bitcoinunits.cpp:105-118 | four to six digits in each style: thin spaces always, never, or from five digits on |
| `BitcoinUnits.OneUnitIsRead` | hub-qt/bitcoinunits.cpp:149-186 | the text "1", with spaces or not, is so many satoshis in each unit |
| `AmountTexts.AcceptedIff` | hub-qt/bitcoinunits.cpp:149-186 | for every text and amount, exactly when the text is accepted as that amount |
| `AmountTexts.AcceptedForms` | hub-qt/bitcoinunits.cpp:149-186 | for every text and amount: the accepted texts are exactly those of four forms of whole part and fraction, each with its value |
| `AmountTexts.DenotesIffNoSignInFraction` | hub-qt/bitcoinunits.cpp:149-186 | an accepted text denotes a decimal, with blanks before the sign, before and after the dot and at the end, exactly when there is no sign in its fraction |
| `AmountTexts.ExactIffDigitsOrZero` | hub-qt/bitcoinunits.cpp:149-186 | an accepted text that denotes a decimal is read as that decimal times the factor of the unit exactly when its fraction is digits only or it denotes zero |
| `AmountTexts.DecimalTextIsRead` | hub-qt/bitcoinunits.cpp:149-186 | for every text that denotes a decimal, blanks between any of its parts: it is accepted exactly when it is short enough and its sign, its digits and the zeros filled in stand together, and its value is the digits without the blanks |
| `AmountTexts.TrailingTabMisreads` | hub-qt/bitcoinunits.cpp:149-186 | a concrete text: 1.5 and a tab, in units of 100, is read as 15 |
| `AmountTexts.SignInFractionIsAccepted` | hub-qt/bitcoinunits.cpp:149-186 | a dot, a sign and any digits are accepted exactly when they fit the decimals, with the digits behind the place of the sign as value |
| `AmountTexts.MinusFiveInFraction` | hub-qt/bitcoinunits.cpp:149-186 | a concrete text: ".-5" is read as minus five |
| `AmountField.ReadIff` | hub-qt/bitcoinamountfield.cpp:151-163 | the field holds an amount exactly when its text denotes one from 0 to 2100000000000000 |
| `AmountField.SetThenRead` | hub-qt/bitcoinamountfield.cpp:70-79 | an amount in range that was set is read back |
| `AmountField.RunsTrackTheAmount` | hub-qt/bitcoinamountfield.cpp:59-101 | any run of unit changes, fixups and steps leaves exactly the amount the steps alone give |
| `AmountField.RunsStayInRange` | hub-qt/bitcoinamountfield.cpp:81-101 | over every run the field stays between 0 and the maximum |
| `AmountField.StepMovesTheAmount` | hub-qt/bitcoinamountfield.cpp:81-88 | stepping adds the steps to the amount, or to 0 if there is none, and is cut off at 0 and 2100000000000000 |
| `AmountField.FixupIsCanonical` | hub-qt/bitcoinamountfield.cpp:59-68 | tidying writes the one text that an amount has in its unit |
| `AmountField.OtherTexts` | hub-qt/bitcoinamountfield.cpp:59-101 | a text that is no amount is left alone by tidying, stepped from 0, and cleared by a change of the unit |
| `AmountField.UnitChangeKeepsAmountIffKnown` | hub-qt/bitcoinamountfield.cpp:90-101 | a unit change keeps a valid amount exactly when the unit is known |
| `AmountField.AmountSpinBox.StepAmount` | hub-qt/bitcoinamountfield.cpp:81-88 | the text becomes that of the clamped step |
| `AmountField.AmountSpinBox.ChangeDisplayUnit` | hub-qt/bitcoinamountfield.cpp:90-101 | a valid amount is rewritten in the new unit, anything else is cleared |
| `PaymentUri.ParseUri` | hub-qt/guiutil.cpp:150-209 | the item loop returns the recipient of `ReadUri` or rejects |
| `PaymentUri.ItemsMeanTheirLastValues` | hub-qt/guiutil.cpp:170-203 | items are rejected exactly when one of them is, and otherwise each field is its last value |
| `PaymentUri.UnknownRequiredRejects` | hub-qt/guiutil.cpp:174-202 | an unknown required item rejects wherever it stands |
| `PaymentUri.UnknownOptionalIsIgnored` | hub-qt/guiutil.cpp:170-203 | an unknown optional item changes nothing wherever it stands |
| `PaymentUri.RequiredKnownIsRead` | hub-qt/guiutil.cpp:170-203 | the prefix of a required item makes no difference for a known field |
| `PaymentUri.SlashIsIgnored` | hub-qt/guiutil.cpp:157-161 | one slash at the end of the path is ignored |
| `PaymentUri.OrderDoesNotMatter` | hub-qt/guiutil.cpp:170-203 | with one item per field any permutation gives the same recipient |
| `PaymentUri.UriRoundTrip` | hub-qt/guiutil.cpp:225-251 | reading a written URI gives the recipient exactly when the amount fits the parser and the address does not end in a slash |
| `CommandLine.ParseCommandLine` | hub-qt/rpcconsole.cpp:137-205 | the character loop computes `Split`, appending to the given list |
| `CommandLine.SplitConcat` | hub-qt/rpcconsole.cpp:137-205 | an accepted line, a blank and any line give the arguments of both |
| `CommandLine.GrammarIsUnderstood` | hub-qt/rpcconsole.cpp:123-136 | every line written by the quoting grammar splits into its words |
| `CommandLine.AcceptsExactlyTheGrammar` | hub-qt/rpcconsole.cpp:123-205 | a line is accepted with given arguments exactly when the grammar derives it with these words |
| `CommandLine.SplitInvertsQuoting` | hub-qt/rpcconsole.cpp:123-205 | any list of arguments, double-quoted and separated by any blanks, splits back into that list |
| `SortKeys.SortKeyOrders` | hub-qt/transactionrecord.cpp:190-195 | text order of the keys is the order by height, coinbase, time and row, for rows below 1000 |
| `SortKeys.RowsInOrderIffAtMostThousand` | hub-qt/transactionrecord.cpp:190-195 | the rows of a transaction sort in row order exactly when there are at most 1000 |
| `SortKeys.StrPad` | hub-qt/coincontroldialog.cpp:187-193 | the loop pads on the left to the width and never cuts |
| `SortKeys.ColumnInOrderIffFits` | hub-qt/coincontroldialog.cpp:760-772 | a column of width w sorts all numbers below a bound exactly when the bound is at most 10^w |
| `AddressTable.ListIsItsView` | hub-qt/addresstablemodel.cpp:93-114 | a strictly sorted list is determined by what it shows per address |
| `AddressTable.RebuiltKinds` | hub-qt/addresstablemodel.cpp:69-82 | the kind a rebuilt list shows, for each purpose and owner |
| `AddressTable.AddressTablePriv.RefreshAddressTable` | hub-qt/addresstablemodel.cpp:93-114 | in whatever order the book is iterated, the list becomes the one sorted list of the book |
| `AddressTable.UpdateListRepresents` | hub-qt/addresstablemodel.cpp:116-161 | an update of a sorted list keeps it sorted and does to its contents add-if-absent, update-if-present, remove-if-present |
| `AddressTable.UnexpectedIsIgnored` | hub-qt/addresstablemodel.cpp:116-161 | an addition of a listed address, and a change or removal of an unlisted one, change nothing |
| `AddressTable.AddressTablePriv.UpdateEntry` | hub-qt/addresstablemodel.cpp:116-161 | the list found by the two searches becomes that of `UpdateList`, the step of the runs |
| `AddressTable.OneRecordChanges` | libs/server/wallet/wallet.cpp:2577-2614 | setting an address changes its name, and its purpose if one is given; the stored purpose stays otherwise and is "unknown" for a new record |
| `AddressTable.RunDisplays` | libs/server/wallet/wallet.cpp:2577-2614 | in every reachable state of book, queue and list, the list is sorted, and after delivery it is the list of the book's addresses and names, with the stored kind unless the last change left the purpose out |
| `AddressTable.ListEqualsRebuildIff` | hub-qt/addresstablemodel.cpp:116-161 | after any run, once delivered, the list equals the rebuilt list exactly when no address last renamed without a purpose is guessed wrongly |
| `AddressTable.RenameCanMisplace` | hub-qt/walletmodel.cpp:362-377 | a concrete run: an own address paid twice under different labels is shown as receiving, and as sending after a rebuild |
| `CoinControl.UpdateLabels` | hub-qt/coincontroldialog.cpp:476-599 | spent coins are unselected and not counted; the fee is the one due for 148 bytes per coin, 32 more per uncompressed key, 34 per output and 10, plus only dust change that is swallowed; the selected amount is payments, fee and change; no dust change is shown |
| `CoinControl.Calculate` | hub-qt/coincontroldialog.cpp:548-598 | the same for the branches: the size that is costed, the fee due for it, and the fee, change and size that are shown |

## Left out

- Widgets, menus, themes, notifications, translations, option storage, the traffic graph and all drawing.
- The JSON text of all answers.
- FreespaceHandshake.QuiescentStatusIsForLatestPath: what the checker finds on disk is an input; the loop over parent directories is not modelled.
- CoinControl.Calculate: the minimum fee and the dust threshold are parameters, the priority label is not modelled, and amounts do not wrap at 64 bits.
- TransactionRecords.DecomposeTransaction: the exceptions the wallet throws for sums out of the money range and 64-bit wrap-around are not modelled; destination, ownership and address book are inputs.
- The confirmation state of a row (`updateStatus` beyond its sort key) and the filter proxy of the view: each depends on one row at a time.
- PaymentUri.ParseUri: splitting a URL into path and items, percent-encoding and the `bitcoincash:` prefix are the URL library's.
- AmountTexts.AcceptedIff: digits are ASCII; the number parser of Qt also accepts nothing else in the C locale.
- TransactionTableRuns.ConsistentIffIteratedInHashOrder: whether a transaction is shown is an input that may change at any time.
- The other request kinds of the proxy (blocks, fees, daily transactions), the wire format of hub and indexer messages, reconnects and aborted requests.
- The Qt and Boost libraries: queued calls are first in, first out, and mutexes exclude.
