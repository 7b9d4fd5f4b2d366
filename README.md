# Loyalty-points service core, modelled in Dafny

The modelled system is a Go/Gin HTTP service that keeps loyalty wallets,
transactions, contracts and identities as JSON documents in a Couchbase
collection. Points move through a settlement ledger that the service never
calls directly: it publishes messages on a NATS subject. Modelled here:

- the **transaction handlers** (issue, redeem, transfer). They validate a
  movement, write one transaction record, choose the applicable business
  contract, rate the amount and publish the settlement message;
- the **contract selection** that the rating step performs with
  `sort.Slice`. The tie-break comparator as the code writes it is modelled
  beside the evidently intended one;
- the **wallet handlers**: create, merge (a loop over source wallets), get
  with masking, soft delete, and filter-query building;
- the **identity and contract handlers** and the four **services**. Each
  service's writes are a spec function on the document map, plus a method on
  the `Store.Collection` class whose `ensures` equates the new state with
  that function;
- the **helpers**: `GenerateIdentifier` as an array loop, `ExtractToken`,
  `bearerAuth`, the NATS trace-context frame, `strings.Split` and `Join`,
  `strings.TrimSpace`, `html.EscapeString`, `strconv.Itoa`, and `int64`
  multiplication with wrap-around.

Modelling choices:

- **Documents.** The document store is `map<string, Doc>`. `Doc` is a union
  over the four record shapes. A record read into the wrong shape keeps only
  the JSON field names the two shapes share (`Models.AsWallet`,
  `Models.AsContract`).
- **Time.** Time is whole seconds (`Models.Time`). The clock is a parameter
  `now`.
- **Randomness.** `crypto/rand` bytes, the reference generator
  `common.NewRefID` and bcrypt are parameters. A draw that may fail has type
  `Result`.
- **Messages.** The NATS connection is an outbox that each publish appends
  to.
- **Background publishing.** Goroutines started by a handler are run to
  completion before the handler's postcondition is stated.

Behaviour worth noting:

- A contract applies strictly inside its window (`Before`/`After`). A
  contract whose window starts exactly now does not apply
  (`ContractController.StartingNowIsNotYetEligible`).
- A self-transfer is refused with the amount message. `ERR_SAME_FROM_AND_TO`
  is defined but unused.
- A soft-deleted or disabled wallet is still found by `Get` and passes
  `IsStructEmpty` (`WalletService.GetAfterDelete`).
- The NATS subject is always `create.loyyalchannel`, whatever the message.
- The shown `models/transaction.go` does not declare the fields that the
  controllers and services set (`ExtID`, `FromExtID`, `FromUUID`, `RefID`,
  `CreatedOn`, `Remarks`, ...). The model's `Transaction` holds the fields the
  code uses. It keeps that file's `json:"-"` on `Creator` and `Channel`.
- Likewise `models/wallet.go` declares no `IsCommitedOnBlockchain`, which
  `walletGet` sets (controllers/wallet.controller.go:161). The model's
  `Wallet` carries it as `isCommitedOnBlockchain`.
- The transaction handlers rate with the tie-break as the code writes it.
  `TransactionController.Move` and `MoveSpec` take the tie-break as a
  parameter: the code is `AsWritten`, the evidently intended variant is
  `Corrected`, and every lemma about them holds for both.

## Model

| member | source | states |
|---|---|---|
| Common.IdentifierOf | utils/common/common.go:5-15 | the identifier has the requested length, uses only the 62 letters and digits, and letter k is the alphabet at byte k mod 62 |
| Common.GenerateIdentifier | utils/common/common.go:5-15 | the in-place loop over the byte array yields exactly IdentifierOf of the random bytes |
| Common.BytesFor | utils/common/common.go:6-13 | for any identifier over the alphabet, bytes below 62 that index its letters |
| Common.EveryIdentifierIsReachable | utils/common/common.go:5-15 | every identifier of the alphabet is produced by some random input (the generator is onto) |
| Topic.Wrap | nats/topic.go:12-25 | refuses a span context over 255 bytes (the fatal exit); None exactly then; otherwise the frame is one length byte, the context, then the payload |
| Topic.Unwrap | nats/topic.go:20-24 | reads a frame back into span context and payload; the reader that Topic.UnwrapWrap proves inverse to Wrap |
| Topic.UnwrapWrap | nats/topic.go:12-25 | reading a frame back gives the span context and payload that were wrapped |
| Nats.Envelopes | nats/client.go:46 | one envelope per request, in order, all on the fixed subject |
| Nats.EnvelopesAppend | nats/client.go:30-47 | publishing two batches in turn equals publishing their concatenation |
| Nats.Client.Publish | nats/client.go:30-47 | appends exactly one envelope on subject create.loyyalchannel to the outbox |
| Numeric.WrapInt64 | controllers/transaction.controller.go:402 | the result is congruent to the input mod 2^64 and equals it when it fits in int64 |
| Numeric.MulInt64 | controllers/transaction.controller.go:402 | Go's int64 product: congruent to the exact product mod 2^64, and equal to it when no overflow occurs |
| Numeric.NatToStringDigits | services/wallet.service.go:158 | the decimal form of n is non-empty, all digits, and denotes n |
| Numeric.Itoa | services/wallet.service.go:158 | strconv.Itoa: a minus sign for negatives, then the decimal digits; its meaning is stated by NatToStringDigits and ItoaRoundTrip |
| Numeric.Atoi | services/wallet.service.go:158 | the decimal reader that ItoaRoundTrip proves inverse to Itoa on int64 |
| Numeric.ItoaRoundTrip | services/wallet.service.go:158 | parsing strconv.Itoa(i) back gives i for every int64 |
| GoStrings.Split | utils/token/token.go:78 | strings.Split yields one more part than there are separators, and no part holds the separator |
| GoStrings.Join | utils/token/token.go:78-79 | strings.Join with the separator, which JoinSplit proves inverse to Split |
| GoStrings.JoinSplit | utils/token/token.go:78-79 | joining the parts with the separator gives the original string back |
| GoStrings.SplitAtOnlySeparator | utils/token/token.go:78-79 | with exactly one separator the two parts are the text before and after it |
| GoStrings.SplitWithoutSeparator | utils/token/token.go:78 | without a separator the string is its only part |
| GoStrings.TrimLeft | services/identity.service.go:109 | only white space is cut from the front, and the result does not start with white space |
| GoStrings.TrimRight | services/identity.service.go:109 | only white space is cut from the back, and the result does not end with white space |
| GoStrings.TrimSpace | services/identity.service.go:109 | the result is a slice of the input with only white space before and after it, and it neither starts nor ends with white space |
| GoStrings.TrimSpaceIdempotent | services/identity.service.go:109 | trimming twice equals trimming once |
| GoStrings.EscapeString | services/identity.service.go:109 | the escaped text is no shorter and holds no HTML special character except the & of an entity |
| GoStrings.UnescapeEscape | services/identity.service.go:109 | unescaping the escaped username gives the original back (no information is lost) |
| GoStrings.EscapePlain | services/identity.service.go:109 | a name without special characters is stored unchanged |
| Token.ExtractToken | utils/token/token.go:72-82 | a non-empty query token wins; otherwise a header with exactly one space yields the text after it; anything else yields "" |
| Token.AnySchemeIsAccepted | utils/token/token.go:77-80 | the scheme is never checked: "Basic x" yields "x" |
| Token.MalformedHeaderGivesNoToken | utils/token/token.go:78-81 | "Bearer" and a token with a space in it both yield no token |
| Token.QueryParameterWins | utils/token/token.go:73-76 | the query parameter takes precedence over the header |
| JWTService.BearerAuth | services/JWTService.go:32-42 | "" unless the header starts with "Bearer "; otherwise the header is the prefix followed by the result |
| JWTService.BearerAuthRoundTrip | services/JWTService.go:37-41 | bearerAuth(prefix + t) == t for every t |
| JWTService.BearerAuthEdges | services/JWTService.go:33-40 | empty header, bare prefix, lower-case scheme and other schemes yield "" |
| JWTService.ExtractorsAgreeOnBearer | services/JWTService.go:32-42 | for a token without spaces both extractors return the token from "Bearer "+token |
| JWTService.ExtractorsDisagreeOnScheme | services/JWTService.go:38-40 | on "Basic x" ExtractToken returns "x" while bearerAuth refuses it |
| JWTService.ExtractorsDisagreeOnSpacedToken | services/JWTService.go:41 | on "Bearer a b" bearerAuth returns "a b" while ExtractToken returns "" |
| Query.Build | services/wallet.service.go:154-159 | the query starts with base, filter and order clause; it carries a limit clause exactly when limit != -1, and that clause reads back as the limit |
| Query.LimitClauseReadBack | services/wallet.service.go:157-159 | the appended " limit n" clause parses back to n |
| Models.WalletRecord | models/wallet.go:26-29 | the stored JSON form of a wallet drops creator and channel and keeps every other field |
| Models.TransactionRecord | models/transaction.go:13-18 | the stored JSON form of a transaction drops creator and channel and keeps every other field |
| Models.TypeField | models/wallet.go:14 | a record has a JSON field "type" exactly when it is a wallet or a contract; identities and transactions tag their document type docType (models/identity.go:69, models/transaction.go:9) |
| Models.AsWallet | services/contract.service.go:124-129 | a wallet record decodes as itself; a contract record decodes to a wallet with the shared fields, zero balance, no uuid and no links |
| Models.AsContract | services/contract.service.go:92-93 | the decode into models.Contract, as in DeleteContract and parseClusterRows (lines 168-172): a contract record decodes as itself; a wallet record decodes to a contract with zero priority and the zero-time window |
| Models.AsTransaction | services/transaction.service.go:73-78 | a transaction record decodes as itself |
| Models.AsIdentity | services/identity.service.go:139-161 | an identity record decodes as itself |
| Store.InsertInto | services/wallet.service.go:63-65 | Insert succeeds exactly when the key is free; then the key maps to the document, otherwise nothing changes and the error is "document exists" |
| Store.ReplaceIn | services/wallet.service.go:115 | Replace succeeds exactly when the key is present; the key set is unchanged |
| Store.Collection.Get | services/wallet.service.go:95 | returns the document exactly when the key is present |
| Store.Collection.Insert | services/wallet.service.go:63-65 | the collection changes as InsertInto says; the collection's `docs` field is the only state modified |
| Store.Collection.Replace | services/wallet.service.go:115 | the collection changes as ReplaceIn says |
| SortSlice.Sink | controllers/transaction.controller.go:364-366 | the inner insertion-sort pass permutes the slice and leaves the elements after position j alone |
| SortSlice.SortFrom | controllers/transaction.controller.go:364-366 | the outer pass is a permutation of its input |
| SortSlice.InsertionSort | controllers/transaction.controller.go:364-366 | sort.Slice returns a permutation of its input (same multiset, same members) |
| SortSlice.SinkSorts | controllers/transaction.controller.go:364-366 | one inner pass extends the sorted prefix by one element |
| SortSlice.SortFromSorts | controllers/transaction.controller.go:364-366 | the outer pass leaves the whole slice sorted by non-increasing key |
| SortSlice.InsertionSortSorts | controllers/transaction.controller.go:376-378 | with a comparator on the elements the result is sorted by non-increasing key |
| SortSlice.HeadIsMaximal | controllers/transaction.controller.go:376-380 | the first element after sorting has the largest key of the input |
| SortSlice.Sort | controllers/transaction.controller.go:364-366 | sorting the array in place leaves it equal to InsertionSort of its old contents |
| SortSlice.SinkInPlace | controllers/transaction.controller.go:364-366 | the adjacent-swap loop on the array computes Sink of its old contents |
| ContractSelection.Filtered | controllers/transaction.controller.go:368-373 | keeps exactly the contracts valid at now, never adding any |
| ContractSelection.WithPriority | controllers/transaction.controller.go:380-386 | keeps exactly the contracts of the given priority |
| ContractSelection.Eligible | controllers/transaction.controller.go:370 | a contract applies strictly after validFrom and strictly before validUntil |
| ContractSelection.Ranked | controllers/transaction.controller.go:364-378 | exactly the eligible contracts, sorted by non-increasing priority |
| ContractSelection.TieWinner | controllers/transaction.controller.go:392-396 | the winner is one of the tied contracts; with the corrected comparator it has the latest lastUpdatedAt among them |
| ContractSelection.Choose | controllers/transaction.controller.go:362-397 | a chosen contract is one of the inputs and applies at now; ChooseNoneIff and ChooseHasMaxPriority complete the contract |
| ContractSelection.PickAsWritten | controllers/transaction.controller.go:392-396 | the choice with the positional comparator of the code; TieBreakCounterexample shows it need not be the latest |
| ContractSelection.Pick | controllers/transaction.controller.go:392-396 | the choice with the element comparator; PickIsLatestAmongTop shows last edited wins |
| ContractSelection.ChooseNoneIff | controllers/transaction.controller.go:362-375 | no contract is chosen exactly when no contract is valid at now (with either comparator) |
| ContractSelection.ChooseHasMaxPriority | controllers/transaction.controller.go:375-397 | a chosen contract is an input, is valid at now, and has the highest priority among the valid ones |
| ContractSelection.RankedHeadIsMaximal | controllers/transaction.controller.go:376-380 | maxPriority, taken from the head of the ranking, is the largest priority among the valid contracts |
| ContractSelection.OnlyOneWithPriority | controllers/transaction.controller.go:389-390 | with one contract at the top priority, filteredContract[0] is that contract |
| ContractSelection.PickIsLatestAmongTop | controllers/transaction.controller.go:388-397 | with the corrected tie-break, the winner was updated no earlier than any valid contract of its priority ("last edited wins") |
| ContractSelection.AllWithPriority | controllers/transaction.controller.go:380-386 | when every contract has priority p, the tied slice is the whole slice |
| ContractSelection.AllEligible | controllers/transaction.controller.go:368-373 | when every contract is valid, filtering keeps the whole slice in order |
| ContractSelection.SampleSorted | controllers/transaction.controller.go:376-378 | a slice of four equally ranked contracts is left in place by the priority sort |
| ContractSelection.SampleFiltered | controllers/transaction.controller.go:368-373 | the four sample contracts are all valid at time 5 |
| ContractSelection.SampleRanked | controllers/transaction.controller.go:364-378 | the ranking of the sample is the sample itself |
| ContractSelection.SampleTop | controllers/transaction.controller.go:380-386 | all four sample contracts tie at the top priority |
| ContractSelection.SampleAsWrittenOrder | controllers/transaction.controller.go:392-394 | the positional comparator leaves the first contract first |
| ContractSelection.SampleLatest | controllers/transaction.controller.go:392-396 | the corrected tie winner has lastUpdatedAt 4 |
| ContractSelection.TieBreakCounterexample | controllers/transaction.controller.go:392-396 | on the sample the code picks the contract updated at 2 while the latest one was updated at 4 |
| ContractSelection.Rate | controllers/transaction.controller.go:399-409 | issue multiplies by the earn ratio, redeem by the burn ratio (with int64 wrap) and records the contract; other kinds, or no contract, leave the transaction unchanged |
| ContractSelection.RateWithoutOverflow | controllers/transaction.controller.go:402 | without overflow an issue settles at amount times earn ratio |
| ContractSelection.SettlementOf | controllers/transaction.controller.go:424-442 | an issuance message exactly when there is no source wallet, otherwise a transfer with update = not spend; fields copied from the transaction |
| ContractSelection.KeepEligible | controllers/transaction.controller.go:368-373 | the append loop computes Filtered |
| ContractSelection.KeepPriority | controllers/transaction.controller.go:380-386 | the append loop computes WithPriority for the maximum priority |
| ContractSelection.SortedCopy | controllers/transaction.controller.go:364-366 | sort.Slice on an array copy computes InsertionSort |
| ContractSelection.SelectContract | controllers/transaction.controller.go:362-397 | the handler's selection steps compute Choose for the given comparator |
| ContractSelection.ApplyBusinessContractAndPublish | controllers/transaction.controller.go:347-416 | the transaction is rated by the contract Choose picks with the given tie-break over the queried contracts (none when the query fails), and exactly one settlement message for it is appended |
| TransactionService.CreateOutcome | services/transaction.service.go:29-57 | stamps type tx, channel, creator, a 62-letter extID and the time; keeps the caller's fields; a failed reference draw writes nothing; otherwise one insert under tx/extID, refused when the key is taken |
| TransactionService.Create | services/transaction.service.go:29-57 | the method's result and new collection are CreateOutcome of the old collection |
| TransactionService.CreateThenGet | services/transaction.service.go:59-80 | after a successful create, Get of the extID returns the record minus creator and channel |
| TransactionService.Get | services/transaction.service.go:59-80 | an error exactly when the key is absent, with "error: no transaction found"; a stored transaction comes back as stored |
| TransactionService.GetMissing | services/transaction.service.go:66-70 | an absent key gives "error: no transaction found" |
| TransactionService.Filter | services/transaction.service.go:89-94 | the N1QL query over type='tx' with the caller's filter, order and optional limit, as in Query.Build |
| WalletService.KeyInjective | services/wallet.service.go:23-25 | two wallet keys are equal exactly when the identifiers are |
| WalletService.CreateOutcome | services/wallet.service.go:38-66 | a 30-letter identifier; type wallet, channel, status active, walletType regular, preloaded balance, linkedTo [identity], creator admin, times now; failed reference writes nothing; one insert of the JSON form |
| WalletService.Create | services/wallet.service.go:38-66 | the method's result and new collection are CreateOutcome of the old collection |
| WalletService.CreateThenGet | services/wallet.service.go:74-91 | a created wallet reads back as the stamped record without creator and channel |
| WalletService.Get | services/wallet.service.go:74-91 | an error exactly when the key is absent, with "error: no wallet found"; a stored wallet comes back as stored, whatever its status or deletion flag |
| WalletService.StatusUpdated | services/wallet.service.go:108-112 | only status and the audit fields differ from the wallet read |
| WalletService.SoftDeleted | services/wallet.service.go:135-139 | only the deletion flag and the audit fields differ from the wallet read |
| WalletService.UpdateOutcome | services/wallet.service.go:93-118 | an absent wallet gives "error: no wallet found" and no change; otherwise the record is replaced with the status updated and the key set kept |
| WalletService.Update | services/wallet.service.go:93-118 | the new collection and error are UpdateOutcome of the old collection |
| WalletService.DeleteOutcome | services/wallet.service.go:120-145 | an absent wallet gives the error and no change; otherwise the record is replaced with isDeleted set |
| WalletService.Delete | services/wallet.service.go:120-145 | the new collection and error are DeleteOutcome of the old collection |
| WalletService.GetAfterDelete | services/wallet.service.go:74-91 | a soft-deleted wallet is still returned by Get, with its flag set |
| WalletService.Filter | services/wallet.service.go:147-171 | the query over type='wallet' with filter, order and optional limit |
| ContractService.CreateContractOutcome | services/contract.service.go:35-59 | type contract, a 30-letter identifier, the given creator and channel, status active, times now, terms unchanged; one insert, refused when the key is taken |
| ContractService.CreateContract | services/contract.service.go:35-59 | the method's result and new collection are CreateContractOutcome of the old collection |
| ContractService.CreateThenGet | services/contract.service.go:61-76 | a created contract reads back as the stored contract document |
| ContractService.GetContract | services/contract.service.go:61-76 | an error exactly when the key is absent, with "error: no contract found"; otherwise the stored document itself |
| ContractService.DeleteContractOutcome | services/contract.service.go:78-108 | an absent contract gives "error: no contract found"; otherwise the record is replaced, key set kept, with isDeleted set |
| ContractService.DeleteContract | services/contract.service.go:78-108 | the new collection and error are DeleteContractOutcome of the old collection |
| ContractService.ExpireAsWritten | services/contract.service.go:110-140 | as written: an absent contract gives the error and no change; otherwise the record written back is wallet-shaped, and every other record is unchanged |
| ContractService.MarkContractAsExpired | services/contract.service.go:110-140 | the new collection and error are ExpireAsWritten of the old collection |
| ContractService.ExpiryLosesContractTerms | services/contract.service.go:124-137 | after expiry as written, the record no longer reads as a contract with its terms |
| ContractService.ExpiryDropsPriority | services/contract.service.go:124-137 | concretely, a contract of priority 5 and earn ratio 2 reads back with both zero |
| ContractService.ExpireCorrected | services/contract.service.go:110-140 | corrected: "error: no contract found" for a missing key, otherwise success with the key set kept; ExpiryKeepsContractTerms states that the record stays a contract with status expired and the audit fields updated, and that every other record is kept |
| ContractService.MarkContractAsExpiredCorrected | services/contract.service.go:110-140 | the new collection and error are ExpireCorrected of the old collection |
| ContractService.ExpiryKeepsContractTerms | services/contract.service.go:110-140 | corrected expiry changes status and audit fields and nothing else |
| ContractService.Filter | services/contract.service.go:142-166 | the query over type='contract' with filter, order and optional limit |
| IdentityService.CreateOutcome | services/identity.service.go:99-137 | username trimmed and escaped, a 30-letter identifier, type user, password hash, defaults consumer and admin, status active, times now; a failed hash writes nothing; one insert |
| IdentityService.CanonicalUsername | services/identity.service.go:109 | the stored username unescapes to the trimmed input, so escaping loses nothing |
| IdentityService.Create | services/identity.service.go:99-137 | the method's results and new collection are CreateOutcome of the old collection |
| IdentityService.Get | services/identity.service.go:139-161 | an error exactly when the key is absent; otherwise the stored identity with its password blanked and every other field kept |
| IdentityService.CreateThenGet | services/identity.service.go:139-161 | a created identity reads back whole except for the password |
| IdentityService.UpdateOutcome | services/identity.service.go:163-193 | absent gives "error: no user found"; otherwise personal details and audit fields replaced, key set kept |
| IdentityService.Update | services/identity.service.go:163-193 | the new collection and error are UpdateOutcome of the old collection |
| IdentityService.DeleteOutcome | services/identity.service.go:195-226 | absent gives "error: no identity found"; otherwise isDeleted set, key set kept |
| IdentityService.Delete | services/identity.service.go:195-226 | the new collection and error are DeleteOutcome of the old collection |
| IdentityService.GetAfterDelete | services/identity.service.go:139-161 | a soft-deleted identity is still readable, with its flag set |
| IdentityService.Filter | services/identity.service.go:228-252 | the query over type='user' with filter, order and optional limit |
| IdentityService.ParseIdentityRows | services/identity.service.go:254-272 | one identity per row, in order, each with its password blanked and otherwise unchanged |
| IdentityService.BootstrapOutcome | services/identity.service.go:38-55 | when the admin query returns rows nothing is written; otherwise Create of an admin with the given name and password |
| IdentityService.CreateBootstrapIdentity | services/identity.service.go:38-55 | the new collection and error are BootstrapOutcome of the old collection |
| IdentityService.BootstrapCreatesAdmin | services/identity.service.go:44-54 | a bootstrap that writes adds exactly one key, which was free, holding an admin of docType user under the canonical name; every earlier record is kept |
| IdentityService.AdminRowAsWritten | services/identity.service.go:39-42 | the admin query's row filter as written: an identity-shaped admin record with field type 'user' and the username as passed; AsWrittenQueryFindsNothing shows no record meets it |
| IdentityService.AdminRowCorrected | services/identity.service.go:39-42 | the same filter testing docType 'user' and the username in stored form; BootstrapIdempotent holds for it |
| IdentityService.AsWrittenQueryFindsNothing | services/identity.service.go:39-42 | as written, the admin query returns no row for any collection |
| IdentityService.BootstrapTwiceAddsSecondAdmin | services/identity.service.go:38-55 | as written, two bootstraps with free keys store two admins under two distinct keys |
| IdentityService.BootstrapIdempotent | services/identity.service.go:38-55 | with the corrected admin query (docType and the stored name), a second bootstrap after one that succeeded writes nothing |
| IdentityService.BootstrapStoresTrimmedName | services/identity.service.go:39-49 | for a name not in stored form, after the bootstrap the admin is on record under the stored name and none is under the name as given |
| IdentityService.PaddedNameIsTrimmed | services/identity.service.go:109 | " root" is stored as "root" |
| TransactionController.Validate | controllers/transaction.controller.go:66-104 | success exactly for a bound input with positive amount, distinct wallets, both wallets found and a sufficient source balance (strict for issue and redeem), returning both wallets; each refusal carries the message of the first check that fails, in the handler's order |
| TransactionController.SufficientBalance | controllers/transaction.controller.go:94 | the balance check: positive, and larger than the amount for issue and redeem, at least the amount for transfer |
| TransactionController.Lookup | controllers/transaction.controller.go:84-87 | the wallet read: a missing key gives the zero wallet, a stored wallet comes back as stored |
| TransactionController.NewMovement | controllers/transaction.controller.go:106-115 | the built transaction carries the request's wallets, amount, metadata, initiator, both UUIDs and the kind |
| TransactionController.CheckMovement | controllers/transaction.controller.go:66-104 | the handler's guard sequence computes Validate |
| TransactionController.MoveSpec | controllers/transaction.controller.go:60-129 | one handler call: validation, one record, then rating with the given tie-break and one message; its lemmas below state what it means |
| TransactionController.Move | controllers/transaction.controller.go:60-129 | reply, collection and outbox are those of MoveSpec on the old collection, for the tie-break passed in |
| TransactionController.Settle | controllers/transaction.controller.go:124 | transfer publishes the created transaction; issue and redeem publish it rated by the contract the given tie-break chooses; one message either way |
| TransactionController.EarlyRejectionIgnoresWallets | controllers/transaction.controller.go:72-80 | a non-positive amount or self-transfer is refused whatever the wallets, with the amount message |
| TransactionController.WholeBalance | controllers/transaction.controller.go:94 | a balance equal to the amount suffices for transfer and not for issue or redeem |
| TransactionController.FailureChangesNothing | controllers/transaction.controller.go:66-121 | a refused movement writes nothing and publishes nothing |
| TransactionController.SuccessWritesOneRecord | controllers/transaction.controller.go:88-117 | an accepted movement adds exactly one transaction record, under a fresh key, with the request's fields and kind, and sends one message |
| TransactionController.MoveAccepts | controllers/transaction.controller.go:66-129 | a movement that passes validation, with a reference drawn and a free key, is accepted with its new identifier and sends one message |
| TransactionController.SettlementShape | controllers/transaction.controller.go:424-432 | the message is a transfer between the two wallets' UUIDs with update set; a transfer keeps the requested amount |
| TransactionController.IssueIsRated | controllers/transaction.controller.go:400-403 | an issue settles at amount times the earn ratio (int64) of the contract chosen with the given tie-break, as written or corrected |
| WalletController.WalletCreate | controllers/wallet.controller.go:46-78 | reply, collection and outbox are those of the create specification |
| WalletController.CreateSpec | controllers/wallet.controller.go:46-78 | the create specification that WalletCreate computes; CreatedWalletIsRegular states its meaning |
| WalletController.CreatedWalletIsRegular | controllers/wallet.controller.go:58-73 | a created wallet is regular whatever type is requested, linked to the identity, with one create message of the preloaded amount; a failure changes nothing |
| WalletController.MergeMovement | controllers/wallet.controller.go:121-128 | the merge transaction moves the source's whole balance to the destination, type merge, with the remark |
| WalletController.MergeSettlement | controllers/wallet.controller.go:237-253 | always a transfer of the transaction's amount between the UUIDs; the ledger request of the transaction handlers when there is a source |
| WalletController.MergeSource | controllers/wallet.controller.go:110-141 | one source wallet: a failure sends nothing and writes nothing, a success sends exactly one message |
| WalletController.MergeStopsAtFailure | controllers/wallet.controller.go:111-133 | once an iteration fails, later iterations change nothing |
| WalletController.WalletMerge | controllers/wallet.controller.go:80-145 | reply, collection and outbox are those of the merge specification |
| WalletController.MergeSpec | controllers/wallet.controller.go:80-145 | the merge specification: guards, then MergeUpTo over all sources |
| WalletController.MergeUpTo | controllers/wallet.controller.go:109-143 | the loop state after the first k sources; MergeNeverRollsBack and MergeSendsOnePerSource state its meaning |
| WalletController.MergeStep | controllers/wallet.controller.go:110-141 | one iteration: nothing after a failure, otherwise MergeSource |
| WalletController.MergeAll | controllers/wallet.controller.go:109-143 | the loop's collection, messages and error are MergeUpTo after all sources |
| WalletController.MergeNext | controllers/wallet.controller.go:109-143 | one pass advances the loop state from MergeUpTo(i) to MergeUpTo(i+1) |
| WalletController.MergeOne | controllers/wallet.controller.go:110-141 | the loop body computes MergeSource on the old collection and publishes its messages |
| WalletController.MergeGuards | controllers/wallet.controller.go:92-106 | no sources, or an unreadable destination, stop the merge before any write or message |
| WalletController.DisableKeeps | controllers/wallet.controller.go:141 | disabling keeps every key, every balance, and every disabled wallet |
| WalletController.MovementKeeps | controllers/wallet.controller.go:130 | writing the merge transaction changes no wallet record |
| WalletController.SourceKeeps | controllers/wallet.controller.go:110-141 | merging one source keeps keys and balances and disables nothing back |
| WalletController.StepKeeps | controllers/wallet.controller.go:109-143 | one iteration keeps what merging its source keeps |
| WalletController.MergeNeverRollsBack | controllers/wallet.controller.go:109-143 | after any number of iterations every key is kept, every balance unchanged and every disabled wallet still disabled |
| WalletController.StepMerges | controllers/wallet.controller.go:121-141 | a successful iteration writes one merge record of the source's balance, sends one transfer of it, and disables the source |
| WalletController.MergeSendsOnePerSource | controllers/wallet.controller.go:109-143 | when every iteration succeeds, one message per source wallet |
| WalletController.DuplicateSourceMergedTwice | controllers/wallet.controller.go:109-143 | a source listed twice is merged twice with its full balance |
| WalletController.Masked | controllers/wallet.controller.go:160-164 | uuid and ref hidden; committed when the uuid was set or the stored flag was; other fields unchanged |
| WalletController.MaskedIdempotent | controllers/wallet.controller.go:160-164 | masking twice equals masking once |
| WalletController.WalletGet | controllers/wallet.controller.go:147-171 | an empty id is refused; otherwise the service's result, masked |
| WalletController.WalletDelete | controllers/wallet.controller.go:173-200 | an empty identifier gets two responses, the bare "identifier is required" and then the custom error, with no change; otherwise one response, the service delete's error or "wallet deleted" |
| WalletController.FilterQueryString | controllers/wallet.controller.go:208-222 | the query string holds the not-deleted clause and one clause per given filter |
| WalletController.FilterQuery | controllers/wallet.controller.go:208-222 | the filter clauses the handler appends; FilterQueryDistinguishes states its meaning |
| WalletController.FilterQueryDistinguishes | controllers/wallet.controller.go:216-222 | two requests give the same query string exactly when they give the same filters |
| WalletController.WalletFilter | controllers/wallet.controller.go:224-227 | the service query, ordered by createdAt, without limit |
| IdentityController.CheckFields | controllers/identity.controller.go:51-78 | no complaint exactly when username, password and type are present and a requested default wallet is named |
| IdentityController.IdentityCreate | controllers/identity.controller.go:39-99 | reply and collection are those of the create specification |
| IdentityController.IdentityCreateSpec | controllers/identity.controller.go:39-99 | the create specification that IdentityCreate computes |
| IdentityController.CreateChecksInOrder | controllers/identity.controller.go:51-78 | the first missing field decides the message, and nothing is written |
| IdentityController.NoWalletWithoutIdentity | controllers/identity.controller.go:80-84 | when the identity cannot be created no wallet is created |
| IdentityController.CreateAddsLinkedWallet | controllers/identity.controller.go:80-98 | a success writes the identity and a wallet linked to it holding the preloaded value |
| IdentityController.WalletCreateKeeps | controllers/identity.controller.go:86-94 | the wallet insert keeps the identity record and stores the wallet under its own key |
| IdentityController.IdentityKeptWhenWalletFails | controllers/identity.controller.go:90-94 | a failed wallet create is reported, but the identity stays written |
| IdentityController.IdentityGet | controllers/identity.controller.go:101-120 | an empty id is refused; otherwise success exactly when the user key exists, "error: no user found" when it does not, and the stored identity with its password blanked when it does |
| IdentityController.IdentityUpdate | controllers/identity.controller.go:122-152 | an empty identifier is refused without change; otherwise the service update; a failure gives its one error, a success two responses, the echoed body and then "identity updated" |
| IdentityController.IdentityDelete | controllers/identity.controller.go:154-180 | an empty identifier is refused without change; otherwise the service delete by admin and its reply |
| IdentityController.IdentityFilter | controllers/identity.controller.go:201-214 | the query string is the identity base query plus `AND isDeleted=false AND identityType!='admin'`, ordered by createdAt with no limit; each row the query returns comes back in order, unchanged except for its blanked password. The base's type='user' test matches no identity record (see Findings) |
| ContractController.ContractCreate | controllers/contract.controller.go:28-65 | responses and collection are those of the create specification |
| ContractController.ContractCreateSpec | controllers/contract.controller.go:28-65 | one or two responses, and two only for an error written twice (the bare message, then the custom error); CreateChecksDates states the rest |
| ContractController.CreateChecksDates | controllers/contract.controller.go:45-63 | the date error exactly when either end lies before now; past the date check, two responses exactly when the service create fails; on success one response, and the contract is stored by admin on loyyalchannel with its window and priority |
| ContractController.InvertedWindowAccepted | controllers/contract.controller.go:45-53 | a window ending before it starts passes the check, and the contract can never apply |
| ContractController.StartingNowIsNotYetEligible | controllers/contract.controller.go:45 | a window starting now is accepted, but does not apply at that instant |
| ContractController.ContractGet | controllers/contract.controller.go:67-86 | an empty id is refused; otherwise success exactly when the contract key exists, "error: no contract found" when it does not, and the stored document when it does |
| ContractController.ContractGetAfterCreate | controllers/contract.controller.go:67-86 | a created contract can be fetched as a contract document |
| ContractController.DeleteBody | controllers/contract.controller.go:102-112 | an empty identifier gets two replies, the first the guard error; the collection is the service delete's either way |
| ContractController.ContractDelete | controllers/contract.controller.go:88-113 | replies and collection are those of the delete specification |
| ContractController.ContractDeleteSpec | controllers/contract.controller.go:88-113 | the delete specification: an empty identifier is refused, otherwise DeleteBody |
| ContractController.DeleteGuardUnreachable | controllers/contract.controller.go:94-104 | since binding refuses an empty identifier, each call answers once and never with the guard error |
| ContractController.ContractFilter | controllers/contract.controller.go:115-133 | all non-deleted contracts, ordered by createdAt, without limit |

## Left out

- HTTP plumbing: Gin routing, JSON binding and encoding, status codes, the JWT middleware and OpenTelemetry spans. Binding is modelled only as its `required` checks. For strings, numbers and timestamps these refuse the zero value.
- Executing queries: Couchbase N1QL queries are not run. The rows a query returns are inputs: the contracts for rating, the admins for bootstrap, the rows for `parseIdentityRows`. `parseWalletRows`, `parseTransactionRows` and `parseClusterRows` are only copies of rows.
- The difference between `docType` and `type` for transactions: transaction records tag the field `json:"docType"`, while `TransactionService.Filter` tests `type='tx'`. No transaction query is executed, so the empty result is not modelled. For identities the admin query's row filter is modelled (`IdentityService.AdminRowAsWritten`), and the consequence is a finding below.
- WalletController.MergeSpec: a `seq` cannot tell a nil slice from an empty one. In Go, `binding:"required"` on `From` (controllers/wallet.controller.go:42) refuses a body without `from` with "error: invalid request body provided" (line 88), and only `"from": []` reaches the guard at line 92. The model treats a missing `from` as `[]`, so it answers with "error: atlest one wallet is reqired".
- ContractController.ContractGet: gives the data of the first success response, `{"message":"success","data":contract}`. The custom response "contract fetched" that follows it is not modelled.
- IdentityController.IdentityUpdate: the first success response echoes the whole bound body. The model keeps only its identifier.
- IdentityController.IdentityFilter: the rows are an input, so the model does not state that the as-written query returns none. The base test type='user' at services/identity.service.go:235 matches no identity record, so as written the handler lists no identity, and Login (services/identity.service.go:63) finds no user. Only the bootstrap consequence is proved (`AsWrittenQueryFindsNothing`).
- IdentityService.BootstrapIdempotent: holds for the corrected admin query only. As written, the query returns no row (`AsWrittenQueryFindsNothing`), and every bootstrap stores another admin (`BootstrapTwiceAddsSecondAdmin`).
- Login, bcrypt comparison, JWT signing and checking (`GenerateToken`, `TokenValid`, `ExtractTokenID`, `Login`): these are cryptography and library calls.
- `TransactionGet` and `TransactionFilter` handlers, `identityLinkedWallets`, `CustomFilterQuery`, `SendEmail`: these are read-only pass-throughs to queries that are not executed.
- `controllers/contractController.go` and `models/schema.go` `Encode`/`Decode`: these are a legacy handler set and JSON encoding.
- SortSlice.InsertionSort: models `sort.Slice` as Go's insertion sort, which is exact for slices of at most 12 elements. Longer slices use pattern-defeating quicksort, which is not modelled.
- Time: the clock is a parameter in whole seconds. `now` is truncated to RFC1123 before comparison. That truncation disappears, and so does the UTC conversion.
- Randomness: `crypto/rand`, `NewRefID` and bcrypt hashing are parameters. Their failure is a `Result` error.
- Concurrency: the goroutines that publish run to completion before the handler's postcondition. Interleavings, and the race between the balance check and the ledger update, are not modelled.
- NATS: the transport is an outbox of envelopes. Encoding is not modelled. The trace-context frame is modelled separately as `Topic.Wrap`.
- Topic.Wrap: `log.Fatalf` when the context is over 255 bytes is modelled as no frame.
- WALLET_STATUS_ACTIVE and WALLET_STATUS_EXPIRED: neither is defined in the shown files. They are taken to be "active" and "expired".
- IsStructEmpty: modelled as equality with the zero wallet. A failed read is the zero wallet.
- Publish errors: they are logged and ignored in the code. The model never fails a publish.

## Findings

| source | as written | input that shows it | evidently intended | confidence | as-written member | corrected member |
|---|---|---|---|---|---|---|
| controllers/transaction.controller.go:392-394 | the tie-break comparator sorts maxPriorityContract but reads lastUpdatedAt from filteredContract by position | four contracts of priority 1, all valid at time 5, whose lastUpdatedAt values in slice order are 2, 1, 4, 3: the code picks the one updated at 2 | "last edited wins": the tied contract with the latest lastUpdatedAt | high, not executed | ContractSelection.PickAsWritten (ContractSelection.TieBreakCounterexample) | ContractSelection.Pick (ContractSelection.PickIsLatestAmongTop) |
| services/contract.service.go:124-137 | MarkContractAsExpired decodes the contract document into a Wallet and replaces it with that wallet | a contract of priority 5 and earn ratio 2: the record written back reads as a contract with priority 0 and earn ratio 0 | the record stays a contract with status expired, its terms kept | high, not executed | ContractService.ExpireAsWritten (ContractService.ExpiryLosesContractTerms, ContractService.ExpiryDropsPriority) | ContractService.ExpireCorrected (ContractService.ExpiryKeepsContractTerms) |
| services/identity.service.go:235 | the base of every identity query tests type='user', a field identity records do not have (they store docType, models/identity.go:69). The same test empties identityFilter (controllers/identity.controller.go:206) and Login (services/identity.service.go:63). The bootstrap's admin query (services/identity.service.go:39-42) also compares the untrimmed username | an empty collection, bootstrapped twice with free keys: the second run finds no admin and stores a second one | an existing admin, stored under the trimmed and escaped name, stops the bootstrap | high, not executed | IdentityService.AdminRowAsWritten (IdentityService.AsWrittenQueryFindsNothing, IdentityService.BootstrapTwiceAddsSecondAdmin) | IdentityService.AdminRowCorrected (IdentityService.BootstrapIdempotent) |
