# Wallet service model

This project models the in-memory e-wallet service of `pkg/wallet/service.go`.
The service holds a counter of account IDs and three lists: accounts, payments and favorite payments.
Its operations are:

- registering accounts by phone;
- depositing money;
- paying, which debits an account and records an in-progress payment;
- rejecting a payment, which marks it failed and refunds it;
- repeating a payment;
- saving a payment as a favorite and paying from one;
- looking records up by ID.

It also exports and imports its lists as text dump files, writes a payment history into numbered files, and sums or filters payments in blocks handled by concurrent workers.

Layout:

- `types.dfy` (Types): the account, payment and favorite records, the error values, and `Option`/`Result`.
- `seqs.dfy` (Seqs): first-match search, filtering, flattening and summing over sequences.
- `text.dfy` (Text): decimal formatting and parsing, splitting on one separator, the CR/LF trim, and reading `'\n'`-terminated lines.
- `ledger.dfy` (Ledger): the service's fields as a value `State`, with one function per operation returning the new state and the result or error, and the lemmas stating what each operation guarantees.
- `wallet.dfy` (Wallet): the class `Service`.
  - Its fields are updated in place.
  - Its lookups are the search loops of the Go code.
  - Each method is proved to produce exactly the state and result of the matching Ledger function.
  - The block-wise sum and filter are loops over worker blocks.
- `partition.dfy` (Partition): how `len(payments) / goroutines` divides the list into blocks, and the order in which the workers' results are merged.
- `dump.dfy` (Dump): the `accounts.dump`, `payments.dump` and `favorites.dump` line formats, importing a directory, and the single-file `|`-separated account format.
- `history.dfy` (History): the files HistoryToFiles writes.

Two kinds of outside input become parameters:

- Fresh payment and favorite IDs, which the service takes from `uuid.New()`.
- The order in which the goroutines take the mutex (`order`, a permutation of the worker indices).

A pointer returned by a `Find*ByID` method is modelled as an index into the list.

The model follows the code, including these behaviours:

- Reject does not look at the payment's status.
- AddAccountWithBalance keeps the registered account when the deposit fails.
- A favorite read back as new keeps the trailing `"\n"` on its category (line 443).
- HistoryToFiles with `records <= 0` writes every line to `payments1.dump`.

## Model

| member | source | states |
|---|---|---|
| Ledger.AccountIndex | pkg/wallet/service.go:99-106 | The index found holds the account with that ID and no earlier account has it; no index means no account has the ID |
| Ledger.PaymentIndex | pkg/wallet/service.go:108-115 | The index found holds the payment with that ID and no earlier payment has it; no index means no payment has the ID |
| Ledger.FavoriteIndex | pkg/wallet/service.go:191-198 | The index found holds the favorite with that ID and no earlier favorite has it; no index means no favorite has the ID |
| Ledger.AccountIndexAppend | pkg/wallet/service.go:99-106 | Appending an account does not change an existing search result; the appended account is found when its ID was absent |
| Ledger.PaymentIndexAppend | pkg/wallet/service.go:108-115 | Appending a payment does not change an existing search result; the appended payment is found when its ID was absent |
| Ledger.FavoriteIndexAppend | pkg/wallet/service.go:191-198 | Appending a favorite does not change an existing search result; the appended favorite is found when its ID was absent |
| Ledger.AccountIndexCredit | pkg/wallet/service.go:67 | Changing a balance through the found pointer moves no account in a later search |
| Ledger.Register | pkg/wallet/service.go:35-49 | A refusal leaves the state unchanged; payments and favorites are never touched |
| Ledger.Deposit | pkg/wallet/service.go:51-69 | A refusal leaves the state unchanged; no account is added or removed, and the ID counter, payments and favorites are never touched |
| Ledger.Pay | pkg/wallet/service.go:71-97 | A refusal leaves the state unchanged. A payment made is in progress with a positive amount; no account is added and the ID counter and favorites are never touched |
| Ledger.Reject | pkg/wallet/service.go:117-132 | A refusal leaves the state unchanged; no account or payment is added, and the ID counter and favorites are never touched |
| Ledger.AddAccountWithBalance | pkg/wallet/service.go:134-145 | A taken phone leaves the state unchanged; any other outcome, even a refused deposit, leaves one more account. Payments and favorites are never touched |
| Ledger.Repeat | pkg/wallet/service.go:147-159 | A refusal leaves the state unchanged, and the favorites are never touched |
| Ledger.FavoritePayment | pkg/wallet/service.go:161-176 | A refusal leaves the state unchanged, and accounts and payments are never touched |
| Ledger.PayFromFavorite | pkg/wallet/service.go:178-189 | A refusal leaves the state unchanged, and the favorites are never touched |
| Ledger.AccountHistory | pkg/wallet/service.go:482-493 | The only error is AccountNotFound; a history found holds at least one and at most all of the payments |
| Ledger.AccountHistoryMeaning | pkg/wallet/service.go:482-493 | The history holds exactly the account's payments: every payment it holds is the account's and taken from the list, and every payment of the account is in it. It fails exactly when no payment belongs to the account |
| Ledger.RegisterOutcome | pkg/wallet/service.go:35-49 | Registration succeeds exactly for an unused phone. It appends a zero-balance account whose ID is the incremented counter and changes nothing else. A refusal is PhoneRegistered and leaves the state alone |
| Ledger.DepositOutcome | pkg/wallet/service.go:51-69 | A non-positive amount is refused before the lookup, and an unknown account is refused next. A refusal changes nothing. Success adds the amount to that one account's balance, keeping its ID and phone; the other accounts, the ID counter, the payments and the favorites are unchanged |
| Ledger.PayOutcome | pkg/wallet/service.go:71-97 | Errors in order: non-positive amount, unknown account, balance below the amount; each leaves the state alone. Success debits the account, leaves its balance non-negative, appends an in-progress payment with the given ID, and leaves the ID counter and the favorites unchanged |
| Ledger.RejectOutcome | pkg/wallet/service.go:117-132 | PaymentNotFound exactly for an unknown payment, and AccountNotFound exactly for a known payment whose account is missing; success exactly when both exist, on any ledger. A refusal changes nothing. Success marks that payment FAIL and credits its amount back to its account |
| Ledger.FavoritePaymentOutcome | pkg/wallet/service.go:161-176 | An unknown payment is refused with no change. Otherwise the favorite copies the payment's account, amount and category and is appended |
| Ledger.EmptyIsValid | pkg/wallet/service.go:28-33 | The zero-value service satisfies the ledger invariant: positive distinct IDs up to the counter, non-negative balances, and records that name existing accounts with positive amounts |
| Ledger.RegisterPreservesValid | pkg/wallet/service.go:35-49 | Registration keeps the invariant, and the new account is what a lookup of the new ID finds |
| Ledger.DepositPreservesValid | pkg/wallet/service.go:51-69 | A deposit keeps the invariant |
| Ledger.PayPreservesValid | pkg/wallet/service.go:71-97 | A payment keeps the invariant; in particular no balance goes negative |
| Ledger.RejectPreservesValid | pkg/wallet/service.go:117-132 | A rejection keeps the invariant |
| Ledger.FavoritePaymentPreservesValid | pkg/wallet/service.go:161-176 | Saving a favorite keeps the invariant |
| Ledger.AddAccountWithBalancePreservesValid | pkg/wallet/service.go:134-145 | Registering and then depositing keeps the invariant, including when the deposit is refused after the registration |
| Ledger.RepeatPreservesValid | pkg/wallet/service.go:147-159 | A repeat keeps the invariant |
| Ledger.PayFromFavoritePreservesValid | pkg/wallet/service.go:178-189 | Paying from a favorite keeps the invariant |
| Ledger.AddAccountWithBalanceOnValid | pkg/wallet/service.go:134-145 | CannotRegisterAccount exactly for a taken phone, and CannotDepositAccount exactly for a free phone with a non-positive balance. Success appends exactly the account with the next ID, the phone and the balance |
| Ledger.RejectOnValid | pkg/wallet/service.go:117-132 | On a valid ledger a rejection fails only for an unknown payment |
| Ledger.RepeatOnValid | pkg/wallet/service.go:147-159 | An unknown payment is refused with no change. For a known payment the account exists, and the repeat succeeds exactly when the balance covers the amount. The new payment copies the account, amount and category and is in progress |
| Ledger.PayFromFavoriteOnValid | pkg/wallet/service.go:178-189 | An unknown favorite is refused with no change. For a known favorite the account exists, and the payment succeeds exactly when the balance covers the amount. It copies the favorite's account, amount and category |
| Ledger.CreditTotal | pkg/wallet/service.go:67 | Adding a delta to one balance adds that delta to the sum of balances |
| Ledger.DepositAddsAmount | pkg/wallet/service.go:51-69 | A successful deposit adds exactly its amount to the money held (balances plus in-progress payments) |
| Ledger.PayConservesHoldings | pkg/wallet/service.go:71-97 | A payment moves its amount from a balance into an in-progress payment; the money held is unchanged |
| Ledger.RejectConservesHoldings | pkg/wallet/service.go:117-132 | Rejecting an in-progress payment moves its amount back into the balance; the money held is unchanged |
| Ledger.RejectTwiceRefundsTwice | pkg/wallet/service.go:117-132 | The status is not checked, so a second rejection of the same payment succeeds and refunds the amount again |
| Ledger.PayThenRejectRestoresBalances | pkg/wallet/service.go:71-132 | Paying and then rejecting the new payment restores every account and leaves the payment recorded as FAIL |
| Wallet.Service.constructor | pkg/wallet/service.go:28-33 | A new service is the zero ledger |
| Wallet.Service.FindAccountByID | pkg/wallet/service.go:99-106 | The search loop returns the first account with the ID, or AccountNotFound |
| Wallet.Service.FindPaymentByID | pkg/wallet/service.go:108-115 | The search loop returns the first payment with the ID, or PaymentNotFound |
| Wallet.Service.FindFavoriteByID | pkg/wallet/service.go:191-198 | The search loop returns the first favorite with the ID, or FavoriteNotFound |
| Wallet.Service.RegisterAccount | pkg/wallet/service.go:35-49 | The fields after the call and the result are those of Ledger.Register on the old fields |
| Wallet.Service.Deposit | pkg/wallet/service.go:51-69 | The fields after the call and the result are those of Ledger.Deposit on the old fields |
| Wallet.Service.Pay | pkg/wallet/service.go:71-97 | The fields after the call and the result are those of Ledger.Pay on the old fields |
| Wallet.Service.Reject | pkg/wallet/service.go:117-132 | The fields after the call and the result are those of Ledger.Reject on the old fields |
| Wallet.Service.AddAccountWithBalance | pkg/wallet/service.go:134-145 | The fields after the call and the result are those of Ledger.AddAccountWithBalance on the old fields |
| Wallet.Service.Repeat | pkg/wallet/service.go:147-159 | The fields after the call and the result are those of Ledger.Repeat on the old fields |
| Wallet.Service.FavoritePayment | pkg/wallet/service.go:161-176 | The fields after the call and the result are those of Ledger.FavoritePayment on the old fields |
| Wallet.Service.PayFromFavorite | pkg/wallet/service.go:178-189 | The fields after the call and the result are those of Ledger.PayFromFavorite on the old fields |
| Wallet.Service.ExportAccountHistory | pkg/wallet/service.go:482-493 | The copied payments all belong to the account and come from the list; the result is an error exactly when the account has no payment |
| Wallet.Service.SumBlock | pkg/wallet/service.go:548-552 | One worker's loop sums the amounts of its block |
| Wallet.Service.SumWorkers | pkg/wallet/service.go:544-571 | Worker i sums block i, with the last worker taking the rest of the list |
| Wallet.Service.SumPayments | pkg/wallet/service.go:532-574 | Whatever order the workers add their sums in, the result is the total of all amounts |
| Wallet.Service.FilterBlock | pkg/wallet/service.go:659-673 | One worker keeps the payments of its block that pass the filter, in order |
| Wallet.Service.FilterWorkers | pkg/wallet/service.go:655-703 | Worker i filters block i, with the last worker taking the rest of the list |
| Wallet.Service.FilterPaymentsByFn | pkg/wallet/service.go:644-712 | The result is the workers' filtered blocks joined in mutex order; as a multiset it is exactly the filtered list |
| Wallet.Service.FilterPayments | pkg/wallet/service.go:576-642 | An unknown account is reported before any division. Otherwise the result is the account's payments from the blocks in mutex order, a permutation of the account's payments |
| Wallet.AppendInOrder | pkg/wallet/service.go:610-612 | Appending the workers' slices as each takes the mutex gives their concatenation in that order |
| Partition.ChunkBounds | pkg/wallet/service.go:538-549 | Every block start `i*count` lies within the list, and each full block ends within it |
| Partition.Lo | pkg/wallet/service.go:547 | A worker's first index `index*count` lies within the list |
| Partition.Hi | pkg/wallet/service.go:547-559 | A worker's end, `(index+1)*count` or the list's end for the last worker, lies between its start and the list's end |
| Partition.BoundsTile | pkg/wallet/service.go:544-563 | The blocks start at 0, each starts where the previous one ends, and the last one ends at the list's end |
| Partition.BlocksShape | pkg/wallet/service.go:544-563 | There is one block per worker: goroutines-1 full blocks and the tail |
| Partition.FlattenBlocks | pkg/wallet/service.go:544-563 | The blocks, joined in worker order, are the payment list: nothing is lost or repeated |
| Partition.MergePermutation | pkg/wallet/service.go:553-555 | Merging in two orders that are permutations of each other gives the same multiset |
| Partition.MergeSchedule | pkg/wallet/service.go:553-555 | In worker order the merge is the plain concatenation; in any schedule it is a permutation of it |
| Partition.ScheduledSumIsTotal | pkg/wallet/service.go:532-574 | The sum of the block sums, taken in any schedule, is the sum of all amounts |
| Partition.FlattenFilterEach | pkg/wallet/service.go:655-703 | Filtering each block and joining the results is filtering the whole list |
| Partition.ScheduledFilterIsPermutation | pkg/wallet/service.go:644-712 | The scheduled filter result is a permutation of the filtered list, and equals it in worker order |
| Text.FormatIntRoundTrip | pkg/wallet/service.go:280-282 | Every integer written in decimal is read back to the same value |
| Text.SplitJoin | pkg/wallet/service.go:387 | Splitting on `;` fields that were joined with `;` gives the fields back when none holds `;` |
| Text.RemoveEndLine | pkg/wallet/service.go:476-480 | The result is a prefix of the input, does not end in CR or LF, and only CR/LF characters were removed |
| Text.RemoveEndLineProperties | pkg/wallet/service.go:476-480 | The trim is idempotent and removes exactly one appended `"\n"` |
| Text.LinesOfConcat | pkg/wallet/service.go:374-385 | Reading a file of record lines with ReadString('\n') returns exactly those lines |
| Text.Split | pkg/wallet/service.go:257 | Splitting always gives at least one piece, as strings.Split does for a non-empty separator |
| Text.ParseInt | pkg/wallet/service.go:263-264 | A number is read only from a string of at least one character whose characters after the first are all digits |
| Text.FormatInt | pkg/wallet/service.go:280-282 | The decimal text is non-empty and made only of digits and `-` |
| Text.LinesAreLines | pkg/wallet/service.go:374-385 | Every line read with ReadString('\n') ends in its newline and holds no other |
| Dump.Export | pkg/wallet/service.go:276-323 | At most three files are written, and none is empty: a list without records writes no file |
| Dump.ExportWritesListing | pkg/wallet/service.go:276-323 | The files written under the directory are the three dump files of the listing |
| Dump.ConvertToAccount | pkg/wallet/service.go:414-430 | The account read from the line is what a lookup of its ID finds. A new ID appends it and increments the counter; a known ID overwrites the record at the found index, and every other account stays as it was. Payments and favorites are untouched |
| Dump.ConvertToPayment | pkg/wallet/service.go:454-474 | The payment read is what a lookup of its ID finds. A new payment is appended with the trimmed status; an existing one is overwritten at the found index with the untrimmed status, and every other payment stays as it was |
| Dump.ConvertToFavorite | pkg/wallet/service.go:432-452 | The favorite read is what a lookup of its ID finds. A new favorite is appended with the untrimmed category; an existing one is overwritten at the found index with the trimmed category, and every other favorite stays as it was |
| Dump.ImportLine | pkg/wallet/service.go:386-406 | A line of a known dump stops the import (the index panic, None) exactly when it has fewer `;` fields than that dump's records |
| Dump.Import | pkg/wallet/service.go:353-412 | Reads the listed dump files in order, each line by line; it has no contract of its own, and ImportPanics and ImportAppend state when it stops and how it composes |
| Dump.ImportLinesPanics | pkg/wallet/service.go:376-407 | The lines of one dump file stop the import exactly when one of them has fewer `;` fields than that dump's records, whatever the state they start from |
| Dump.ImportPanics | pkg/wallet/service.go:353-412 | Importing a directory ends with no state exactly when some line of some file is short for its dump |
| Dump.ParseAccountLine | pkg/wallet/service.go:280-283 | An account line splits into three fields that parse back to the account |
| Dump.ParsePaymentLine | pkg/wallet/service.go:294-299 | A payment line splits into five fields that parse back to the payment |
| Dump.ParseFavoriteLine | pkg/wallet/service.go:310-315 | A favorite line parses back to the favorite with `"\n"` left on its category |
| Dump.ImportAccountLines | pkg/wallet/service.go:386-393 | Importing the lines of fresh accounts appends them in order and bumps the counter once per account |
| Dump.ImportPaymentLines | pkg/wallet/service.go:399-403 | Importing the lines of fresh payments appends them unchanged, in order |
| Dump.ImportFavoriteLines | pkg/wallet/service.go:394-398 | Importing the lines of fresh favorites appends them in order, each category ending in `"\n"` |
| Dump.ImportDumpFile | pkg/wallet/service.go:361-408 | Importing a written dump file applies exactly its lines |
| Dump.ImportAccountsFile | pkg/wallet/service.go:353-412 | Importing `accounts.dump` into an empty service restores the accounts, with the counter at their number |
| Dump.ImportPaymentsFile | pkg/wallet/service.go:353-412 | Importing `payments.dump` into a service without payments restores the payments exactly |
| Dump.ImportFavoritesFile | pkg/wallet/service.go:353-412 | Importing `favorites.dump` into a service without favorites restores the favorites, each category with `"\n"` appended |
| Dump.ImportExport | pkg/wallet/service.go:276-412 | Exporting a service and importing the directory into an empty service gives back the accounts and payments. The counter equals the number of accounts, and favorite categories carry `"\n"` |
| Dump.ImportAppend | pkg/wallet/service.go:361-409 | Importing files one after another is importing the first and then the rest from the state it left; a panic stops the import |
| Dump.ParseRecords | pkg/wallet/service.go:257-271 | The accounts read are the leading non-empty pieces, each parsed; reading stops at the first empty piece |
| Dump.ParseRecord | pkg/wallet/service.go:262-264 | A piece stops the read (the index panic on `item[2]`) exactly when it has fewer than three `;` fields |
| Dump.ParseRecordsPanics | pkg/wallet/service.go:257-271 | Reading the pieces panics exactly when some piece with only non-empty pieces before it, itself non-empty, has fewer than three fields |
| Dump.ImportFromFile | pkg/wallet/service.go:229-274 | The read panics (None) exactly when reading the `|`-separated pieces panics. Otherwise the result is the accounts already held followed by the accounts read from the pieces |
| Dump.ImportFromFileRoundTrip | pkg/wallet/service.go:204-274 | Reading the `|`-separated file written by ExportToFile appends exactly the exported accounts |
| Dump.ImportFromFileStops | pkg/wallet/service.go:256-260 | Reading stops at the empty piece after the last `|`, so whatever follows it is ignored |
| Dump.ExportToFile | pkg/wallet/service.go:204-227 | The file is empty exactly when there are no accounts; otherwise it ends with the record separator `|` |
| History.ChunksShape | pkg/wallet/service.go:509-527 | The groups give back the lines in order. None is empty or larger than the group size, and all but the last are full |
| History.ChunksSnoc | pkg/wallet/service.go:512-525 | Writing one more line starts a new group when the last is full and otherwise extends it, which is the counter `k` of the loop |
| History.Chunks | pkg/wallet/service.go:509-527 | There are groups exactly when there are lines, and never more groups than lines |
| History.HistoryFiles | pkg/wallet/service.go:495-530 | Files are written exactly when there are payments, and never more files than payments |
| History.ChunkNamesDistinct | pkg/wallet/service.go:514 | The files made from the groups have pairwise distinct names |
| History.ChunkNameInjective | pkg/wallet/service.go:514 | Two numbered file names are equal only for equal numbers, so no file truncates another |
| History.HistoryText | pkg/wallet/service.go:501-504 | The accumulated string is the payment lines joined |
| History.WriteLine | pkg/wallet/service.go:513-524 | One step of the loop: open the next numbered file when `k` is 0, append the line, close after `records` lines |
| History.NumberedFiles | pkg/wallet/service.go:508-527 | The loop writes one numbered file per group of `records` lines, in order |
| History.HistoryToFiles | pkg/wallet/service.go:495-530 | The files written are those of HistoryFiles: none, one payments.dump, or the numbered groups |
| History.HistoryKeepsLines | pkg/wallet/service.go:495-530 | Files are written exactly when there are payments, and together they hold every payment line once, in order |
| History.HistoryOneFile | pkg/wallet/service.go:497-505 | A list that fits is written as the payments.dump of the dump directory, and importing it restores the payments |
| History.HistoryNumberedFiles | pkg/wallet/service.go:509-527 | A longer list writes at least two files named payments1.dump onwards. Each file but the last reads back as exactly `records` payment lines, and the last holds 1 to `records` lines |
| History.HistoryFileCount | pkg/wallet/service.go:509-527 | The number of numbered files k satisfies (k-1)*records < n <= k*records |
| History.HistoryNonPositiveRecords | pkg/wallet/service.go:509-527 | With `records <= 0` the counter never reaches `records`, so every line goes to payments1.dump |
| History.HistoryNamesDistinct | pkg/wallet/service.go:514 | The numbered files have pairwise distinct names |

## Left out

- File I/O is not modelled: creating, opening, appending and closing files, directory listing, the 4-byte read loop, and the `WriteToFile` helper with its directory creation.
  - Files are values `File(name, content)`, and Import takes the directory's files as a list in listing order.
  - I/O errors are not modelled.
- Logging is not modelled, because it does not change the service.
- Goroutines, the WaitGroup and the mutex are not modelled. Only their effect appears: each worker's result is merged in the order it takes the mutex, given as the `order` parameter.
- `uuid.New()` is not modelled. Fresh IDs are parameters, and lemmas that need a fresh ID require that it is unused.
- SumPaymentsWithProgress (pkg/wallet/service.go:714-749) is not part of this model, and neither is the `cmd` directory.
- Aliasing of pointers into the lists is not modelled. A returned pointer is the index of the record, and writes through it are updates of the list at that index.
- Wallet.Service.SumPayments: `Money` is an unbounded integer, so the int64 wrap-around of the sums (lines 551, 565) is not modelled.
- Wallet.Service.Deposit: the int64 overflow of the balance at line 67 is not modelled.
- Wallet.Service.Reject: the int64 overflow of the refund at line 129 is not modelled.
- Wallet.Service.SumPayments: `goroutines == 0` divides by zero at line 538 before the guard at line 540, so it panics; the method requires `goroutines != 0`. Negative counts are modelled as Go runs them: one worker takes the whole list.
- Wallet.Service.FilterPaymentsByFn: requires `goroutines != 0` for the same division-by-zero panic at line 648.
- Wallet.Service.FilterPayments: requires `goroutines != 0` only when the account exists, since the lookup returns before the division at line 586.
- Wallet.Service.FilterPayments: an empty result is Go's `nil, nil`, modelled as a success with an empty list.
- Text.ParseInt: numbers outside the int64 range are not rejected. Text.ParseIntOrZero models a discarded syntax error as the value 0.
- Dump.ImportExport: exported favorites do not come back unchanged, because a new favorite keeps `"\n"` on its category (line 443). The lemma states exactly what comes back.
- Dump.ConvertToPayment: an updated payment keeps `"\n"` on its status (line 472); no round trip is claimed for re-importing over existing payments.
- Dump.ImportExport requires text fields without `;` or newlines, because the dump lines have no escaping. `|` is allowed in them.
- Dump.ImportExport requires payment statuses that do not end in `'\r'`: `removeEndLine` (line 465) strips every trailing CR and LF, so a status such as `"OK\r"` comes back as `"OK"`.
- Dump.ImportExport requires distinct IDs in each list, because a repeated ID overwrites the earlier record instead of adding one (lines 417, 436, 458).
- Dump.ImportFromFileRoundTrip requires phones without `;` or `|`, the two separators of that format; newlines are allowed.
- History.HistoryNumberedFiles requires payment IDs, categories and statuses without newlines, because a newline would split a record into two lines; it counts lines and does not parse fields, so `;` is allowed.
- Dump.Import: a panic, such as an index out of range on a short line, is modelled as `None`, the end of the import with no state.
- Text.Lines: an unterminated last line, which ReadString returns together with io.EOF, is dropped as the loop at lines 376-381 drops it.
