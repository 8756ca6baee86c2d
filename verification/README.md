# Wallet management: a verified model of the spend path

This project models the part of the wallet-management service that moves money: the
withdrawal saga, the in-memory store it runs on, coin selection, nonces, the EVM
transaction encoder, and the smaller protocols around them (address rotation, balance
events, the audit outbox, the derivation cache). Every service call exists twice: as a
function on the store's tables and as a method that carries it out on the store and is
proved to do what the function says. The properties are proved about the functions, for
all inputs, all interleavings and all runs.

| file | what it holds |
|---|---|
| `Text.dfy`, `Bytes.dfy` | decimal text, joined keys, big-endian bytes |
| `Rlp.dfy`, `EvmAddress.dfy`, `Eip155.dfy` | the EVM encoder with a strict decoder as its specification (RLP is Appendix B of the Ethereum Yellow Paper; signing is the "Specification" section of EIP-155; address case is EIP-55) |
| `Records.dfy`, `HeapTables.dfy`, `Books.dfy`, `Vaults.dfy`, `MemStore.dfy`, `Transactions.dfy`, `StoreLock.dfy` | the store: rows, maps and slices of pointed-to records, operations, snapshot and restore, the reentrant lock |
| `Greedy.dfy`, `UtxoSelection.dfy` | greedy selection and its exchange argument, then selection with 64-bit totals |
| `Nonces.dfy`, `MemLock.dfy`, `Rotation.dfy` | interleaved protocols over counters, locks and address rows |
| `Balances.dfy`, `Confirmations.dfy`, `Audit.dfy`, `Deriver.dfy` | balance events and where their amounts end up, outbox draining, cached derivation |
| `Withdrawals.dfy` | the withdrawal service, call by call |
| `Saga.dfy` and `Saga*.dfy` | all withdrawals at once: one state machine, `SagaReal.dfy` with the runs the code can make, one file for each property, and `SagaWitnesses.dfy` with runs that reach every failing case |

## How the saga is modelled

The world is the store's tables, the calls in progress, the withdrawals policy has
approved, what the signer was asked and answered, and a log of what the gateway received
and whether it took it. Policy, key lookup, lock replies, signer and gateway answer
through parameters, so every statement holds for every answer. A signing call is three
steps: choose coins, reserve, and finish. Everything else can happen between those steps,
on other withdrawals and on the same one: it can be failed or reorganised while its own
call is running. Only two signing calls on one withdrawal at the same time are left out.
`CallIsThreeSteps` shows that the three steps back to back are the call as the method
performs it.

The choosing step carries the choice, and the finishing step what building, signing and
assembling came to. A run in which these are what the code comes to, for some listing of
the free coins and some answer of the signer, is a real run (`SagaReal.RealRun`). Results
about coins, nonces, deduplication and approval hold for any choices and outcomes, so for
real runs in particular; results about bytes and coverage are about real runs, and every
run in `SagaWitnesses.dfy` is real.

`SagaEffects.dfy` says what every step does to counters, coin labels and row fields, one
field at a time, so that the functions behind a step can be read against plain statements.

Each property states what it asks of a run. Where a step can break it, an if-and-only-if
says exactly when, and a run from the empty store reaches that case.

- **Coins.** Every step keeps coins apart and correctly labelled if and only if it takes
  away no held coin (`StepKeepsSoundIff`); only reorganisation and pruning can
  (`HeldCoinIsReachable`). Every LOCKED coin belongs to somebody if and only if no step
  fails a signed withdrawal that has coins and no coin comes in locked
  (`StepKeepsOwnedIff`, `StrandingIsReachable`); a coin left behind stays LOCKED until a
  reorganisation names it or pruning deletes it (`StrandedStaysIff`).
- **Nonces.** Two things can go wrong, both with `Fail`. It can give back the latest nonce
  while somebody holds it, another withdrawal or the withdrawal's own running call
  (`FailKeepsOrderedIff`, `StolenNonceIsReissued`, `TheftIsReachable`). And it can give back
  the latest nonce after it was broadcast (`FailKeepsCappedIff`, `RecalledNonceIsReissued`,
  `RecallIsReachable`). A step keeps all that is proved about nonces if and only if it does
  neither (`StepKeepsSpotlessIff`); failing signed withdrawals does neither.
- **Deduplication.** The in-flight set stays exact if and only if a finished withdrawal is
  never brought back, and is finished again only while nobody else has its key
  (`StepKeepsTidyIff`, `SharedKeyIsReachable`, `DemotionIsReachable`).
- **FAILED.** Without a running call it is final. A running call overwrites it exactly when
  policy approves or the transaction is assembled (`FailedStaysIff`, `RevivalIsReachable`).
- **Coverage.** Reserved coins belong to the wallet that pays (`CoinsAreOwn`). They cover the
  amount if and only if their true total is not below the 64-bit range
  (`BitcoinCoveredIff`, `UncoveredIsReachable`), which holds whenever their values are not
  negative. Pruning keeps that exactly when it deletes no promised coin
  (`PruneKeepsSolventIff`).
- **Approval, broadcast counters.** No condition: every run.
- **Bytes.** Every real run.

## How the store is modelled

Wallets, addresses, balances, UTXOs, nonces and withdrawals are maps to heap records, and
the outbox is a slice of pointers to heap records; operations overwrite records in place.
Key mappings are a map of slices of pointers, and funding requests a map of records. A
snapshot copies every record; the outbox first copies the pointers and then points each
entry at a copy. `Snapshot` shows that no object of the copy is an old object, and `InTx`
that a failing outermost transaction therefore puts all twelve tables back. The sets and
counters whose entries are plain values live in one cell that is changed in place and
copied too. Each container states its representation behind a name (`Opened`), so that
proofs about callers do not look inside.

## Where code and comments disagree

The model follows the code.

- A comment in `internal/balance/balance.go` says a deposit's value moves from pending to
  confirmed once the threshold is met; the code ignores every event after the first. A
  deposit that reaches the threshold counts as confirmed if and only if it had reached it
  when first seen (`ConfirmedIffAtFirst`, `SecondSightingIsIgnored`).
- A failed broadcast gives its nonce back only when it is the latest one
  (`ComesBackIffLatest`).
- Recovery ids 2 and 3 pass the signature header check, although EIP-155 knows only 0 and
  1; the receiver then rebuilds another chain id (`RebuildIff`).
- A negative EVM amount is encoded by its magnitude (`NegativeValueCollides`).
- A comment in `internal/withdrawal/withdrawal.go` says `Fail` rolls back reserved
  resources; it frees no coin (`FailStrandsAll`, and `StepKeepsOwnedIff` says when that
  matters), and it has no stage guard.
- A rotation deprecates before it derives, so a failing derivation leaves the wallet without
  an active address (`StepKeepsCoveredIff`, `FailedRotationLoses`).

## Model

| member | source | states |
|---|---|---|
| SagaOutpoints.NoDoubleSpend | internal/withdrawal/withdrawal.go:127-303 | in every run that takes no held coin away, with any interleaving, `Fail` at any moment, also during the withdrawal's own call, and gateway or signer failures, no outpoint is held by two signed, broadcast or confirmed withdrawals; a held outpoint is LOCKED while signed and SPENT afterwards |
| SagaOutpoints.CalmIsSteady | internal/withdrawal/withdrawal.go:127-303 | runs without reorganisation and pruning are such runs |
| SagaOutpoints.StepKeepsSoundIff | internal/storage/memstore/memstore.go:467-527 | every step keeps the coins apart and correctly labelled, also for reservations in progress and when another selection ran between listing and locking, if and only if it takes away no held coin |
| SagaOutpoints.ReorgKeepsSoundIff | internal/storage/memstore/memstore.go:504-519 | a reorganisation naming any outpoints keeps that exactly when none of those it gets to free, up to the first unknown one, is held |
| SagaOutpoints.PruneKeepsSoundIff | internal/storage/memstore/memstore.go:521-527 | pruning keeps it exactly when no held outpoint is deleted |
| SagaStranded.StepKeepsOwnedIff | internal/withdrawal/withdrawal.go:281-303 | every step leaves each LOCKED coin with a holder if and only if it does not fail a signed withdrawal that has coins and brings no locked coin in |
| SagaStranded.LockedHasOneOwner | internal/storage/memstore/memstore.go:467-519 | in every run without such a step and without taking a held coin away, each LOCKED coin belongs to exactly one withdrawal, which is signed or has a call running that reserved it |
| SagaStranded.FailStrandsAll | internal/withdrawal/withdrawal.go:291-294 | failing a signed withdrawal leaves every one of its coins LOCKED with no holder |
| SagaStranded.StrandedStaysIff | internal/storage/memstore/memstore.go:504-527 | a coin left behind stays LOCKED and without holder if and only if the step neither frees it in a reorganisation nor deletes it |
| SagaStranded.StrandedForever | internal/storage/memstore/memstore.go:467-486 | so in every continuation that does neither it stays so |
| SagaNonces.NoncesAreUnique | internal/withdrawal/withdrawal.go:150-162 | in every run in which no `Fail` robs a holder, two withdrawals of one wallet and chain that are signed, out or in a running call carry different nonces, each below the counter |
| SagaNonces.FailKeepsOrderedIff | internal/withdrawal/withdrawal.go:282-303 | `Fail` keeps nonces distinct and below the counter if and only if it does not give back the latest nonce while another withdrawal, or its own running call, holds it |
| SagaNonces.StolenNonceIsReissued | internal/withdrawal/withdrawal.go:282-291 | in that case the next reservation makes two withdrawals hold the same nonce |
| SagaNonces.HoldersFailSafely | internal/withdrawal/withdrawal.go:322-336 | failing a signed, broadcast or confirmed withdrawal, or one without a nonce, takes no nonce from anybody |
| SagaNonces.RunningFailStealsIff | internal/withdrawal/withdrawal.go:150-156 | failing a withdrawal whose call holds a nonce robs the call exactly when the nonce is the latest |
| SagaNonces.SignedIsCareful | internal/withdrawal/withdrawal.go:282-303 | runs that fail only signed withdrawals rob nobody |
| SagaNonces.BitcoinRollbackIsIdle | internal/withdrawal/withdrawal.go:157-162 | the bitcoin path's rollback to -1 changes no counter |
| SagaNonces.RunKeepsOrdered | internal/withdrawal/withdrawal.go:228-244 | distinctness and bounds hold over every run in which no `Fail` robs another withdrawal |
| SagaAccepted.AcceptedNoncesDiffer | internal/withdrawal/withdrawal.go:225-244 | in every run in which no `Fail` gives back the latest nonce while somebody holds it or after it was broadcast, no two transmissions the gateway accepted for one wallet and chain carry the same nonce |
| SagaAccepted.BroadcastIsBelowPending | internal/storage/memstore/memstore.go:547-591 | there every broadcast counter is zero or one more than a nonce the gateway accepted, and never above pending |
| SagaAccepted.StepKeepsSpotlessIff | internal/withdrawal/withdrawal.go:225-303 | every step keeps all this (distinct held and accepted nonces, none held that was accepted for another, both counters right) if and only if it is not such a `Fail` |
| SagaAccepted.TopIsStillOut | internal/withdrawal/withdrawal.go:240-244 | runs that fail only signed withdrawals are such runs, and there the counter is zero or one more than the nonce of a withdrawal that is still broadcast or confirmed |
| SagaAccepted.FailKeepsCappedIff | internal/withdrawal/withdrawal.go:282-303 | `Fail` keeps broadcast within pending if and only if it does not give back the latest nonce after it was broadcast |
| SagaAccepted.RecalledNonceIsReissued | internal/withdrawal/withdrawal.go:282-291 | in that case the next reservation hands out a nonce that was broadcast |
| SagaCommits.BroadcastsAreCounted | internal/withdrawal/withdrawal.go:240-244 | in every run no broadcast counter falls, and each stays above the nonce of every broadcast or confirmed withdrawal of its account |
| SagaCommits.OutNoncesAreCounted | internal/storage/memstore/memstore.go:561-573 | from an empty store, the nonce of a broadcast or confirmed withdrawal is below the broadcast counter, whatever failed or was rolled back since |
| SagaDedup.InflightIsExact | internal/storage/memstore/memstore.go:593-692 | in every run whose steps keep the set, a key is in the in-flight set if and only if an unfinished withdrawal has it, and then exactly one does |
| SagaDedup.StepKeepsTidyIff | internal/storage/memstore/memstore.go:669-692 | every step keeps the set exact if and only if each stage it writes goes onto an unfinished withdrawal, or finishes again one whose key nobody else has |
| SagaDedup.FailIsTidyIff | internal/withdrawal/withdrawal.go:282-303 | `Fail` keeps the in-flight set exact if and only if the withdrawal is unfinished or no unfinished one shares its key |
| SagaDedup.ReorgIsTidyIff | internal/storage/memstore/memstore.go:669-692 | a reorganisation keeps the set exact if and only if it demotes nothing |
| SagaPayments.OnlyApprovedBytesLeave | internal/withdrawal/withdrawal.go:89-256 | in every run, signed, broadcast and confirmed withdrawals were approved and went through the signer; the gateway got only stored bytes of withdrawals that did, and no withdrawal twice |
| SagaPayments.ApprovalWasGiven | internal/withdrawal/withdrawal.go:89-122 | a withdrawal is marked approved only by a policy answer without error that approves it |
| SagaPayments.FailedIsFinal | internal/withdrawal/withdrawal.go:127-320 | FAILED is absorbing over every continuation of a run, reorganisations included, when no call on the withdrawal is running |
| SagaPayments.FailedStaysIff | internal/withdrawal/withdrawal.go:196-198 | one step overwrites FAILED if and only if it ends a running call of that withdrawal with policy approval or an assembled transaction |
| SagaBytes.BytesAreGenuine | internal/withdrawal/withdrawal.go:172-227 | in every real run, the bytes of signed, broadcast and confirmed withdrawals and all bytes the gateway received are assembled from the withdrawal's own request and reservation with the signer's answer to its preimage |
| SagaBytes.GatewayBytesDecode | internal/withdrawal/withdrawal.go:172-227 | in every real run, what the gateway received on an EVM chain decodes to the withdrawal's nonce, recipient and amount (up to sign), the configured price, the limit 21000 and the r, s and v of the signer's answer; what was hashed for the signer decodes to the same transaction with the chain id in the place of v |
| SagaBytes.GatewayRebuildsIff | internal/withdrawal/withdrawal.go:172-195 | in every real run, the bytes the gateway received on an EVM chain rebuild the preimage that was hashed for the signer if and only if the signer's answer carries recovery id 0 or 1 |
| SagaBytes.RunCounts | internal/storage/memstore/memstore.go:578-591 | in every run counters exist for EVM accounts only and never run below zero, so no rollback to -1 finds one |
| SagaCoverage.BitcoinCoveredIff | internal/withdrawal/txbuilder.go:119-126 | in every real run that deletes no promised coin, over any values, a signed, broadcast or confirmed bitcoin withdrawal has an amount that parses and is positive and distinct known outpoints, although the parse error is ignored when reserving; they cover the amount if and only if their true total is not below the 64-bit range |
| SagaCoverage.BitcoinIsCovered | internal/withdrawal/txbuilder.go:119-126 | in those runs outpoints whose values are not negative cover the amount |
| SagaCoverage.CoinsAreOwn | internal/storage/memstore/memstore.go:454-465 | in every real run that deletes no promised coin, each coin that a withdrawal is about to lock, holds in a call, or has recorded while signed, broadcast or confirmed belongs to the wallet of that withdrawal |
| SagaCoverage.PruneKeepsSolventIff | internal/storage/memstore/memstore.go:521-527 | pruning keeps this for all promises if and only if it deletes no promised coin |
| SagaCoverage.StepKeepsSolventIff | internal/withdrawal/withdrawal.go:157-170 | every step, of all kinds, keeps promised coins known, distinct, the wallet's own and worth what was said if and only if it deletes no promised coin, given that coins are chosen from a listing of the free ones |
| SagaWitnesses.TheftIsReachable | internal/withdrawal/withdrawal.go:172-176 | a real run after which failing a withdrawal gives back a nonce another one holds |
| SagaWitnesses.RecallIsReachable | internal/withdrawal/withdrawal.go:234-256 | a real run after which failing a broadcast withdrawal gives back its broadcast nonce |
| SagaWitnesses.EvmAssembles | internal/withdrawal/txbuilder.go:83-113 | a request and an answer with which these runs exist |
| SagaWitnesses.SharedKeyIsReachable | internal/withdrawal/withdrawal.go:102-116 | a real run after which failing a refused withdrawal takes the key of an unfinished one |
| SagaWitnesses.DemotionIsReachable | internal/withdrawal/withdrawal.go:260-320 | a real run after which a reorganisation demotes a confirmed withdrawal, with the same request and answer |
| SagaWitnesses.RevivalIsReachable | internal/withdrawal/withdrawal.go:172-198 | a real run in which a withdrawal failed during its own call becomes signed, with its nonce on offer again and its key gone |
| SagaWitnesses.StrandingIsReachable | internal/withdrawal/withdrawal.go:281-294 | for every recipient, outpoint and answer the bitcoin builder accepts, a real run that leaves the coin LOCKED without holder |
| SagaWitnesses.HeldCoinIsReachable | internal/withdrawal/withdrawal.go:157-170 | for every recipient and outpoint, a real run in which a held coin can be freed by a reorganisation or pruned |
| SagaWitnesses.UncoveredIsReachable | internal/utxo/utxo.go:38-46 | for every recipient, two outpoints and answer the bitcoin builder accepts, a real run that signs a withdrawal over coins that do not cover it |
| SagaSigning.CallIsThreeSteps | internal/withdrawal/withdrawal.go:127-207 | choose, reserve and finish with nothing in between are the whole signing call |
| SagaSigning.FailedCallInAnyRun | internal/withdrawal/withdrawal.go:147-195 | from every reachable state, a signing call that fails in selection, build, signing or assembly leaves every UTXO lock state and every pending and broadcast nonce as before |
| SagaSigning.RollbackUndoesReserve | internal/withdrawal/withdrawal.go:322-329 | rolling back right after reserving restores all locks and counters |
| SagaEffects.RefusedNonceComesBack | internal/withdrawal/withdrawal.go:228-232 | in every run, after a refused broadcast of an EVM withdrawal with nonce n the row is FAILED, the pending counter is n if it was n + 1 and unchanged otherwise, and no other counter changes |
| SagaEffects.RefusedCoinsComeBack | internal/withdrawal/withdrawal.go:228-232 | in every run that takes no held coin away, after a refused broadcast of a bitcoin withdrawal the row is FAILED, exactly its own coins went from LOCKED to FREE, and no counter changes |
| SagaEffects.RefusalGivesBack | internal/withdrawal/withdrawal.go:228-234 | in every world of a run, the whole effect of a refused broadcast on row, counters and coins, on every chain |
| SagaEffects.AcceptanceSettles | internal/withdrawal/withdrawal.go:235-247 | the same for an accepted one: hash and stage stored, broadcast counter raised to the nonce plus one if it was below, coins SPENT by the hash |
| SagaEffects.OnlySignedIsSent | internal/withdrawal/withdrawal.go:215-224 | nothing but a signed withdrawal with bytes is sent or touched |
| SagaEffects.CallEnds | internal/withdrawal/withdrawal.go:172-198 | a call stores the bytes and gives nothing back, or gives back exactly its nonce, if it is the latest, and its coins, with the reason of the failure on the row |
| SagaEffects.ReservesNonce | internal/withdrawal/withdrawal.go:150-156 | a granted reservation writes the pending nonce on the row and raises that counter by one; a refused one changes nothing |
| SagaEffects.ReservesCoins | internal/withdrawal/withdrawal.go:157-170 | the wanted coins become LOCKED and are written on the row if and only if all of them are free; otherwise nothing changes |
| SagaEffects.ReservesNothing | internal/withdrawal/withdrawal.go:147-170 | on Solana a call goes on without reserving anything |
| SagaEffects.StartsIff | internal/withdrawal/withdrawal.go:128-134 | a signing call starts if and only if the withdrawal is WHITELISTED, and none is running |
| SagaEffects.OpensIff | internal/withdrawal/withdrawal.go:55-79 | a request is stored, field by field, if and only if its wallet exists and is neither paused nor retired, its id is new and its key is not in flight |
| SagaEffects.DecidesIff | internal/withdrawal/withdrawal.go:102-122 | WHITELISTED if and only if policy answers without error with a decision that approves; otherwise FAILED with the reason policy gave, or "policy_error" |
| SagaEffects.ConfirmsIff | internal/withdrawal/withdrawal.go:260-268 | only a broadcast withdrawal is confirmed, with the hash |
| SagaEffects.FailGivesBack | internal/withdrawal/withdrawal.go:282-294 | `Fail` gives back the nonce on the row if it is the latest, and changes no coin |
| SagaEffects.ReorgFreesAndDemotes | internal/withdrawal/withdrawal.go:307-320 | exactly the named coins up to the first unknown one become FREE; a confirmed withdrawal is demoted if and only if all are known |
| SagaEffects.EveryWorldIsCounted | internal/storage/memstore/memstore.go:547-591 | every world of a run meets what these statements ask |
| Withdrawals.Create | internal/withdrawal/withdrawal.go:55-123 | refuses unknown, paused or retired wallets, known ids and duplicates without a trace, and nothing else; otherwise stores the row and the verdict, and returns the stored row |
| Withdrawals.ConstructAndSign | internal/withdrawal/withdrawal.go:127-207 | the new tables and the success flag, through every failure branch, given a correct listing of the free coins |
| Withdrawals.ReserveFor | internal/withdrawal/withdrawal.go:147-170 | reserves a nonce or coins and records it on the row, or reports failure |
| Withdrawals.FinishFor | internal/withdrawal/withdrawal.go:172-198 | stores the bytes and the signed stage, or rolls back and records the failure reason |
| Withdrawals.OutcomeIff | internal/withdrawal/txbuilder.go:119-206 | bitcoin is built exactly with coins, a 64-bit amount and a builder that accepts, and assembled only with 64 signature bytes for each coin; Solana needs exactly 64; other chains build nothing |
| Withdrawals.EvmOutcomeIff | internal/withdrawal/txbuilder.go:83-113 | an EVM transaction is built only when address and amount parse, and assembled only from 65 bytes with a header from 27 to 34; apart from size nothing else stops it |
| Withdrawals.Rollback | internal/withdrawal/withdrawal.go:322-329 | gives back an EVM nonce that is not negative and frees non-empty outpoints |
| Withdrawals.BroadcastTx | internal/withdrawal/withdrawal.go:210-256 | hands over exactly the stored bytes of a signed withdrawal, then settles or rolls back |
| Withdrawals.Confirm | internal/withdrawal/withdrawal.go:260-279 | confirms broadcast withdrawals and nothing else |
| Withdrawals.Fail | internal/withdrawal/withdrawal.go:282-303 | rolls the row's nonce back, frees no outpoint, marks FAILED whatever the stage was |
| Withdrawals.OnReorg | internal/withdrawal/withdrawal.go:307-320 | frees the outpoints up to the first unknown one; demotes a confirmed withdrawal only when all are known |
| UtxoSelection.SelectionIsBestIff | internal/utxo/utxo.go:29-54 | with 64-bit totals and values that are not negative: success exactly when some set of free outputs covers the amount, never more inputs than any such set, no input can be dropped, surplus below every chosen value; all this if and only if the ideal choice's total fits in 64 bits |
| UtxoSelection.SelectionIsBest | internal/utxo/utxo.go:29-54 | so for amounts and values up to 2^62, however many outputs there are |
| UtxoSelection.GreedyIffCovered | internal/utxo/utxo.go:38-46 | the same success criterion and minimality for unbounded totals and any values |
| UtxoSelection.GreedyIsTight | internal/utxo/utxo.go:38-46 | tightness for unbounded totals and any values |
| UtxoSelection.NoWrapIff | internal/utxo/utxo.go:38-46 | for values that are not negative the 64-bit loop makes the unbounded choice if and only if that choice's total fits |
| UtxoSelection.NoWrapUpTo62Bits | internal/utxo/utxo.go:38-46 | amounts and values up to 2^62 never wrap, however many outputs there are |
| UtxoSelection.WrapExample | internal/utxo/utxo.go:38-46 | above that the loop can refuse an amount the wallet covers |
| UtxoSelection.NegativeValueOverstates | internal/utxo/utxo.go:38-46 | a negative value can make the loop accept an amount that is not covered |
| UtxoSelection.ChoiceCoversIff | internal/utxo/utxo.go:29-54 | over any values, an accepted selection covers the amount if and only if its true total is not below the 64-bit range; a non-empty one means a positive amount |
| UtxoSelection.ChoiceIsOwn | internal/storage/memstore/memstore.go:454-465 | whatever is chosen from a listing is free and belongs to the wallet |
| UtxoSelection.ValueOfText | internal/utxo/utxo.go:82-88 | a coin's text counts as the number it spells when that is a 64-bit number, and as zero otherwise |
| UtxoSelection.ListFreeUTXOs | internal/storage/memstore/memstore.go:454-465 | lists an outpoint if and only if its row is the wallet's and free, each once |
| UtxoSelection.Pick | internal/utxo/utxo.go:38-46 | the selection loop with its early stop over wrapping totals |
| UtxoSelection.SelectForAmount | internal/utxo/utxo.go:29-54 | chooses by a largest-first listing; what it chose was the wallet's and free and is LOCKED afterwards; no other row changes, and none when it refuses |
| Greedy.TopKIsBest | internal/utxo/utxo.go:34-46 | no k listed keys are worth more than the first k (the exchange argument) |
| Greedy.SortByValue | internal/utxo/utxo.go:35-37 | a descending rearrangement of the input |
| Nonces.ReserveNonce | internal/nonce/nonce.go:32-53 | up to fifty lock attempts; reserves the pending value exactly when the deciding reply grants the lock; otherwise changes nothing |
| Nonces.GivesUpAfterFifty | internal/nonce/nonce.go:32-53 | a client that keeps finding the lock taken gives up after exactly fifty attempts without touching a counter; an error ends it at once |
| Nonces.ProtocolPartitions | internal/storage/memstore/memstore.go:547-591 | in every interleaving of clients that settle at most once, [0, pending) is the disjoint union of outstanding, committed and abandoned nonces and each outstanding one has one holder |
| Nonces.ProtocolBroadcast | internal/storage/memstore/memstore.go:561-573 | broadcast is one more than the largest committed nonce, or zero, and never above pending |
| Nonces.GapIsPermanent | internal/nonce/nonce.go:60-69 | a nonce rolled back while it was not the latest is never held, committed or handed out again in any continuation |
| Nonces.ComesBackIffLatest | internal/nonce/nonce.go:60-69 | a rolled back nonce can come back if and only if it was the latest |
| Nonces.DoubleSettleReissuesIff | internal/nonce/nonce.go:56-69 | settling one reservation twice hands a committed nonce out again if and only if it was still the latest |
| Rlp.ListRoundTrip | internal/withdrawal/txbuilder.go:316-365 | a strict decoder returns every encoded list and what follows it |
| Rlp.ListCanonical | internal/withdrawal/txbuilder.go:316-351 | whatever the decoder accepts is the encoding of what it returns |
| Rlp.ListPrefixFree | internal/withdrawal/txbuilder.go:316-326 | no encoding is a prefix of another one |
| Rlp.Forms | internal/withdrawal/txbuilder.go:316-351 | the bytes of every item and every list: a byte below 128 alone, 128 plus the length, 183 plus the length of the length, and 192 and 247 for lists |
| Rlp.EncodeInjective | internal/withdrawal/txbuilder.go:316-326 | equal encodings come from equal lists |
| Rlp.ItemRoundTrip | internal/withdrawal/txbuilder.go:328-351 | an encoded item decodes to itself and the rest |
| Rlp.ItemCanonical | internal/withdrawal/txbuilder.go:328-351 | only canonical items decode |
| Rlp.LengthBytes | internal/withdrawal/txbuilder.go:342-351 | a length of the length type takes at most eight bytes, so the prefix byte cannot overflow |
| Rlp.RlpEncodeLenPrefix | internal/withdrawal/txbuilder.go:342-351 | the length prefix in short and long form |
| Rlp.RlpEncodeItem | internal/withdrawal/txbuilder.go:328-337 | the item encoding with its single-byte case |
| Rlp.EvmEncodeList | internal/withdrawal/txbuilder.go:316-326 | the two-pass loop produces the list encoding |
| Bytes.BigUint | internal/withdrawal/txbuilder.go:353-365 | the big-endian bytes of a 64-bit number without leading zeros |
| Bytes.NatOfBig | internal/withdrawal/txbuilder.go:353-365 | reading those bytes back gives the number |
| Bytes.FirstByteWeighsMost | internal/withdrawal/txbuilder.go:353-365 | numbers are read with the first byte weighing most |
| Bytes.FixedOfNat | internal/withdrawal/txbuilder.go:308-309 | reading bytes as a number and writing it at the same width gives the bytes back |
| Eip155.RebuildIff | internal/withdrawal/txbuilder.go:239-313 | decoding the broadcast bytes and taking chain id (v - 35) / 2 rebuilds the signed preimage, whose fields `PreimageDecodes` states, if and only if the recovery id is 0 or 1 |
| Eip155.PreimageIff | internal/withdrawal/txbuilder.go:248-261 | two signing preimages agree exactly when all fields and the chain id agree up to sign |
| Eip155.PreimageInjective | internal/withdrawal/txbuilder.go:248-261 | with fields that are not negative the preimage determines every field and the chain id |
| Eip155.NegativeValueCollides | internal/withdrawal/txbuilder.go:248-261 | a negative amount signs the same preimage as its magnitude |
| Eip155.DecodeOfEncode | internal/withdrawal/txbuilder.go:276-289 | the broadcast bytes decode to the transaction and the signature |
| Eip155.PreimageDecodes | internal/withdrawal/txbuilder.go:248-261 | for every transaction and chain id the preimage decodes to the transaction, r and s zero and the chain id |
| Eip155.SigFromMpcIff | internal/withdrawal/txbuilder.go:297-313 | an answer is taken if and only if it has 65 bytes and a header from 27 to 34; then r is bytes 1 to 32, s is bytes 33 to 64, and v is twice the chain id plus 35 plus (header - 27) mod 4 |
| Eip155.AssembledCarriesRequest | internal/withdrawal/txbuilder.go:83-113 | assembled bytes decode to the reserved nonce, the configured price, the parsed recipient, the magnitude of the amount, the limit 21000, no data, and the r, s and v of the answer |
| Eip155.EncodeLegacyForSigning | internal/withdrawal/txbuilder.go:248-261 | the bytes hashed for the signer decode to nonce, price, limit, recipient, value, data, chain id and two empty fields, in that order, and to the transaction with the chain id in the place of v |
| Eip155.EncodeSignedTx | internal/withdrawal/txbuilder.go:276-289 | the bytes decode to nonce, price, limit, recipient, value, data, v, r and s, in that order |
| EvmAddress.ParseOfChecksum | internal/deriver/evm.go:123-145 | for every hash function, parsing a printed twenty-byte address returns its bytes |
| EvmAddress.ChecksumIdempotent | internal/deriver/evm.go:123-145 | printing a printed address changes nothing |
| EvmAddress.CapitalIffHigh | internal/deriver/evm.go:123-145 | every digit stands where it stood, and a letter is a capital if and only if its half-byte of the digest of the bare digits is 8 or more |
| EvmAddress.ParseIff | internal/withdrawal/txbuilder.go:374-401 | the parser accepts exactly 0x and forty hex digits in any case inside optional white space, and returns what they spell |
| EvmAddress.Eip55Checksum | internal/deriver/evm.go:123-145 | the printing loop |
| EvmAddress.ParseEvmAddress | internal/withdrawal/txbuilder.go:374-389 | the parsing loop |
| Transactions.Store.InTx | internal/storage/memstore/memstore.go:123-143 | when the outermost body fails after any operations, nested transactions included, each of the twelve tables equals its value on entry; otherwise it is what the body left, and the lock depth is restored |
| Transactions.NestedIsInlined | internal/storage/memstore/memstore.go:123-143 | inside a transaction a nested one, failing or not, is its body inlined |
| Transactions.Store.Snapshot | internal/storage/memstore/memstore.go:146-211 | all twelve tables with equal contents, in objects none of which is an old one |
| MemStore.Db.Snapshot | internal/storage/memstore/memstore.go:146-211 | the ten tables of the spend path with equal contents, in fresh objects only, so no live mutation reaches a record of the snapshot |
| HeapTables.Table.Copy | internal/storage/memstore/memstore.go:161-194 | a map of copies that shares no record with the original |
| HeapTables.Log.Copy | internal/storage/memstore/memstore.go:157-203 | copying the pointers and re-pointing each entry leaves no old record in the new slice |
| Books.Book.Copy | internal/storage/memstore/memstore.go:161-203 | the wallet, address, balance and outbox records together |
| Vaults.Vault.Copy | internal/storage/memstore/memstore.go:188-199 | key mappings and funding requests, copied record by record |
| HeapTables.Shelf.Copy | internal/storage/memstore/memstore.go:188-195 | a map of new slices whose entries all point at new records |
| Vaults.Vault.BindKeyMapping | internal/storage/memstore/memstore.go:731-747 | appends a mapping unless a second current one would appear |
| Vaults.Vault.RotateKeyMapping | internal/storage/memstore/memstore.go:765-791 | cools every current mapping in place, then makes the first mapping of the new key current or appends one |
| Vaults.Vault.ExpireCooling | internal/storage/memstore/memstore.go:793-804 | retires every cooling mapping whose time is over, in all slices |
| Vaults.KeysStayOne | internal/storage/memstore/memstore.go:731-804 | no operation gives a wallet a second current key, and a rotation leaves exactly one |
| Vaults.RotatesInPlace | internal/storage/memstore/memstore.go:765-791 | mapping by mapping: the first one of the new key is renewed, every other current one cools until now plus the cooling time, the rest stay, and a mapping is appended exactly when the key is new |
| Vaults.RetiresIff | internal/storage/memstore/memstore.go:793-804 | a mapping is retired exactly when it is cooling and its time is over |
| Vaults.Vault.CreateFundingRequest | internal/storage/memstore/memstore.go:806-821 | stores the request unless one for the wallet and asset is open |
| Vaults.Vault.UpdateFundingState | internal/storage/memstore/memstore.go:851-862 | changes the record in place and keeps the batch when none is passed |
| Transactions.Store.Restore | internal/storage/memstore/memstore.go:214-227 | installs the snapshot's tables |
| MemStore.Db.LockUTXOs | internal/storage/memstore/memstore.go:467-486 | locks all outpoints or none, succeeding exactly when all are free |
| MemStore.Db.MarkUTXOsSpent | internal/storage/memstore/memstore.go:488-502 | relabels in order and stops at the first unknown outpoint |
| MemStore.Db.RestoreUTXOs | internal/storage/memstore/memstore.go:504-519 | frees in order and stops at the first unknown outpoint |
| MemStore.Db.PruneUTXOs | internal/storage/memstore/memstore.go:521-527 | removes exactly the named rows |
| MemStore.Db.InsertUTXO | internal/storage/memstore/memstore.go:443-452 | inserts unless the outpoint is known |
| MemStore.Db.IncrementPendingNonce | internal/storage/memstore/memstore.go:547-559 | returns the old pending value and raises it |
| MemStore.Db.AdvanceBroadcastNonce | internal/storage/memstore/memstore.go:561-573 | raises broadcast to the nonce plus one and never lowers it |
| MemStore.Db.RollbackPendingNonce | internal/storage/memstore/memstore.go:578-591 | lowers pending only when the nonce is the latest, and reports whether it did |
| MemStore.Db.CreateWithdrawal | internal/storage/memstore/memstore.go:593-620 | inserts exactly when id and key are new, and enters the key |
| MemStore.Db.UpdateWithdrawalState | internal/storage/memstore/memstore.go:669-692 | sets the stage, keeps texts that are passed empty, and drops the key on terminal stages |
| MemStore.Db.UpdateWalletState | internal/storage/memstore/memstore.go:276-285 | overwrites the state in the record itself |
| MemStore.Db.InsertAddress | internal/storage/memstore/memstore.go:307-326 | refuses a taken id and a second active address |
| MemStore.Db.DeprecateAddress | internal/storage/memstore/memstore.go:357-365 | overwrites the state in the record itself |
| MemStore.Db.AppendAuditEvent | internal/storage/memstore/memstore.go:865-878 | appends a fresh record unless the event id is known |
| MemStore.Db.MarkAuditDelivered | internal/storage/memstore/memstore.go:896-908 | marks the first record with the id in place, or reports that there is none |
| Records.RelockAllAt | internal/storage/memstore/memstore.go:467-519 | with all outpoints known, relabelling changes those rows and no other |
| Records.DedupKeyUniqueIff | internal/storage/memstore/memstore.go:916-918 | a request's key belongs to no other request if and only if its recipient, amount and asset hold no separator |
| Records.BarGivesTwin | internal/storage/memstore/memstore.go:916-918 | otherwise another request on the same wallet has the same key |
| Records.EventKeyUniqueIff | internal/storage/memstore/memstore.go:433-441 | an event's key belongs to no other event if and only if no part of its asset but the first, and no part of its event id but the last, is a number |
| Records.CutGivesTwin | internal/storage/memstore/memstore.go:433-441 | otherwise another event of the same wallet has the same key |
| Records.RelockKnownPart | internal/storage/memstore/memstore.go:488-519 | relabelling a list is relabelling the part up to the first unknown outpoint |
| Records.RowKeyInjective | internal/storage/memstore/memstore.go:244-250 | the text keys of nonce and balance rows determine their parts |
| Records.AppendsIff | internal/storage/memstore/memstore.go:865-878 | a row is appended exactly when no row has its event id |
| Text.DecimalIff | internal/withdrawal/txbuilder.go:88-91 | a text is a number exactly when it is digits after an optional plus or minus |
| Text.SignedReads | internal/withdrawal/txbuilder.go:88-91 | digits read as their value, after a plus too, and negated after a minus |
| Text.FirstDigitWeighsMost | internal/withdrawal/txbuilder.go:88-91 | the first digit weighs most |
| Text.OutOfRange | internal/withdrawal/withdrawal.go:158-158 | a number outside 64 bits gives the nearest one inside, flagged as an error the caller ignores |
| Text.BadCharacter | internal/withdrawal/withdrawal.go:158-158 | digits followed by another character give the extreme of their sign when they pass 64 unsigned bits, and zero otherwise |
| StoreLock.MutualExclusion | internal/storage/memstore/memstore.go:87-116 | in every interleaving at most one goroutine has positive depth, it owns the mutex, none waits for its own, and only the owner is about to release |
| StoreLock.ReadDepthStays | internal/storage/memstore/memstore.go:123-143 | the depth a transaction reads is still right when it locks |
| StoreLock.OwnerCanRelease | internal/storage/memstore/memstore.go:87-116 | from every state of a run the owner alone can get to releasing the mutex |
| StoreLock.WaiterCanAcquire | internal/storage/memstore/memstore.go:87-116 | the lock cannot deadlock: whoever waits can still get it, after steps of its owner alone |
| MemLock.ReleaseUndoesAcquire | internal/lock/lock.go:64-82 | release undoes acquire with its own token and does nothing with another |
| MemLock.MemLocker.Acquire | internal/lock/lock.go:64-73 | grants a free name only |
| MemLock.MemLocker.Release | internal/lock/lock.go:75-82 | deletes the name only for the matching token |
| Rotation.FirstDerivationIsUnique | internal/wallet/rotation.go:36-55 | without rotation, any number of concurrent first callers insert at most one address and all that succeed return it |
| Rotation.OneActiveAlways | internal/wallet/rotation.go:58-129 | with forced and ordinary rotations in any interleaving, a wallet has at most one active address and at most one caller inside its lock |
| Rotation.LockedRowsStay | internal/wallet/rotation.go:186-219 | while a caller holds a wallet's lock no other caller's step touches that wallet's rows |
| Rotation.RotationReplaces | internal/wallet/rotation.go:51-53 | a caller that forces a rotation or finds the address aged gets a new active address when the lock is free and the derivation succeeds; the old one is deprecated, the lock is free again and nothing else changes |
| Rotation.FreshIsReturned | internal/wallet/rotation.go:54-55 | a caller that does neither returns the address it saw |
| Rotation.GivesUpAfterTwenty | internal/wallet/rotation.go:190-206 | a first caller that keeps finding the lock taken and no address gives up after exactly twenty attempts |
| Rotation.LoserReturnsWinner | internal/wallet/rotation.go:197-212 | in any attempt, a first caller that sees the winner's address returns it, whether the lock is taken or it gets the lock and gives it back |
| Rotation.StepKeepsCoveredIff | internal/wallet/rotation.go:112-118 | every step leaves a wallet with an active address, or with a caller on its way to inserting one, if and only if no derivation fails with no other address active and no new id is taken |
| Rotation.ActiveIsKept | internal/wallet/rotation.go:100-129 | in every run without such a step, a wallet that had an active address has one whenever its lock is free |
| Rotation.FailedRotationLoses | internal/wallet/rotation.go:112-118 | a forced rotation whose derivation fails leaves the wallet without one |
| Balances.Conservation | internal/balance/balance.go:77-235 | over every mix of confirmations, duplicates, reorganisations and lock changes, confirmed plus pending is the sum over distinct event keys |
| Confirmations.SplitInAnyRun | internal/balance/balance.go:77-188 | in every run, confirmed is the sum over keys that were new after the row's last reorganisation and whose first event was confirmed, plus the value at the start if there was none; the rest of the total is pending |
| Confirmations.SplitByFirstEvent | internal/balance/balance.go:104-108 | without reorganisation of the row, confirmed and pending grow by the amounts of the keys first seen confirmed and first seen unconfirmed |
| Confirmations.OnlyFirstEventCounts | internal/balance/balance.go:83-88 | however often a deposit is seen and whatever happens in between, the row differs from the row without it by the first event's amount on the first event's side |
| Confirmations.ConfirmedIffAtFirst | internal/balance/balance.go:74-109 | a deposit that reaches the threshold counts as confirmed, and not as pending, if and only if its first event had reached it |
| Confirmations.SecondSightingIsIgnored | internal/balance/balance.go:83-109 | every bitcoin deposit seen without confirmations and again with enough of them stays pending |
| Balances.OnlyEventsMatter | internal/balance/balance.go:77-235 | without reorganisation, runs with the same events in any order and number and with any lock changes in between agree on events, confirmed, pending and last block, when equal keys mean equal events |
| Balances.OrderIrrelevant | internal/balance/balance.go:77-143 | for confirmations alone the whole rows agree |
| Balances.ReorgCommutesIff | internal/balance/balance.go:147-188 | a confirmation and a reorganisation can be exchanged if and only if the event is a repetition, is for another row, only adds to pending, or adds nothing |
| Balances.LockedStaysNonNegative | internal/balance/balance.go:203-235 | the locked amount never falls below zero when amounts added are not negative |
| Balances.ApplyConfirmationEvent | internal/balance/balance.go:60-143 | a new event raises confirmed and leaves pending exactly when it is a bitcoin event with at least the bitcoin depth, a finalized Solana event, or another chain's event with at least the EVM depth, and otherwise raises pending and leaves confirmed; locked stays, the last block only rises, no other row changes, and a repeated event changes nothing |
| Balances.NewEventCredits | internal/balance/balance.go:60-72 | the same for every ledger, configuration and event |
| Balances.ApplyReorgEvent | internal/balance/balance.go:147-188 | demotes the whole confirmed amount of that row, keeping its locked amount and last block, and then frees the event's outpoints, reporting an unknown one with the demotion already made |
| Balances.ChangeLocked | internal/balance/balance.go:203-235 | adds the amount, or subtracts it down to zero at the lowest, and changes nothing else; or reports a missing row |
| Audit.DeliveryIsInOrder | internal/audit/audit.go:146-224 | in every run of emits and drains, with sink failures and marking stopped part-way, a wallet's delivered rows are numbers 1 to k, all reached the sink, and the sink saw numbers in order without gaps |
| Audit.DrainsEmptyBacklog | internal/audit/audit.go:205-224 | one successful drain for each started hundred empties the outbox |
| Audit.DrainShrinksBacklog | internal/storage/memstore/memstore.go:880-908 | a successful drain takes a hundred rows, or all, off the backlog |
| Audit.EmitEvent | internal/audit/audit.go:146-174 | takes the wallet's next number and appends the row |
| Audit.ListUndelivered | internal/storage/memstore/memstore.go:880-894 | every undelivered row once, lowest number first |
| Audit.DrainOnce | internal/audit/audit.go:205-224 | marks a first part of the batch after the sink accepted it, and nothing otherwise |
| Deriver.CacheIsTransparent | internal/cache/cache.go:80-105 | in every history of requests by both derivers, expiries, deletions and cache errors, each request is answered as without a cache, errors included |
| Deriver.KeyInjective | internal/deriver/btc.go:50-71 | requests share a cache key only when they are equal, whatever the extended key holds |
| Deriver.AnsweredAsAsked | internal/deriver/evm.go:43-64 | a call is answered exactly when chain, index and change suit the deriver and the key derives; the answer has the address of that change and index, both of them, and the path that spells them |
| Deriver.DeriveAt | internal/deriver/evm.go:43-64 | the answer is the uncached one, argument errors included, and the cache stays right |
| Deriver.MemCache.Get | internal/cache/cache.go:80-89 | serves an entry until its expiry has passed, and drops it afterwards |
| Deriver.MemCache.Del | internal/cache/cache.go:98-105 | deletes exactly the named keys |

## Left out

- Clocks, identifiers and foreign services: time, UUIDs, policy, key lookup, signer, gateway, sink and lock replies are parameters; every statement holds for all their answers.
- Overlapping signing calls: two `ConstructAndSign` calls on the same withdrawal do not run at the same time in the saga, and storing the bytes and the signed stage is one step.
- Foreign libraries: Keccak, elliptic curves, BIP-32, bech32, btcd serialisation and the Solana message are function parameters. The bitcoin builder keeps its own guards (outpoints, amount, signature length); its single output has no change, so coverage is claimed and not conservation of value.
- Counter width: pending nonces are unbounded integers; the int64 counter's wrap-around after 2^63 reservations is not modelled, and a nonce of 2^64 or more counts as not buildable.
- Block heights and times are unbounded integers; the 64-bit range of a block height narrows which texts `EventKeyUniqueIff` counts as numbers.
- Sort order among equals: coin listing and outbox listing leave the order of ties open, as an unstable sort does; the sorting algorithm itself is an insertion sort.
- Audit events of the withdrawal service: the outbox is modelled, the calls that the saga makes to it are not, nor is a missing sink.
- EmitEvent and DrainOnce run one at a time; the background ticker is not modelled.
- Derivation index allocation: the address lock is per wallet and the index per chain, so distinct indexes under interleaving are not claimed.
- Postgres backend, Redis locker and cache, REST and gRPC servers, configuration: not modelled.
- Funding and key mapping services: only their store operations are modelled; the services would add easy members.
- Solana address rows and wire layout: not modelled beyond the guard on the signature length.
