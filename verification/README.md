# A verified model of the luna-proxy control plane

luna-proxy signs SSH certificates and SSH authentication requests only after a person has approved
them. This project models, in Dafny, the state machines and codecs that decide when that may happen,
and proves what holds in every run of them. Verify it with `dafny verify dfyconfig.toml`.

## What is modelled

- **The approval protocol** (`Approval`, `Protocol`, `ProtocolTables`, `ProtocolHistory`,
  `ProtocolSafety`, `ProtocolRuns`, `DecisionRuns`). Every critical section of the approval store's mutex, every lease
  operation and every call of a signer is one event. A run is any sequence of events by any number of
  approvers, waiters, timers and lease holders; an event that is not enabled changes nothing. A world
  carries a log of everything that happened, and the main lemma says that each record was justified by
  the records before it. `Progress` adds what an undisturbed request gets. The store itself is a class whose methods are proved to do exactly the table
  operations the events use.
- **User-auth payload validation** (`Wire`, `UserAuth`): the payload of section 7 of RFC 4252 in the two
  layouts the code tries, over the data types of section 5 of RFC 4251.
- **The sign and wait handlers** (`SignHandler`, `SignRuns`, `WaitRuns`): which requests are taken, in
  which form they reach the store, which bytes a hosted key is asked to sign and what the CA is asked to
  certify in any run, and which client receives what.
- **Structures that must agree with a plain history**: the replay cache (`Replay`) and the request
  pipeline in front of it (`Pipeline`), the lease index (`Lease`), the sliding-window limiter
  (`RateLimit`), the unseal lockout (`Keystore`) and the queue of pending keys (`Pending`).
- **The Telegram poller and the small codecs**: `Poller`, `Callback`, `Fingerprint`, `Pop`, over
  `Base64`, `Decimal` and `Strings`.

## Assumptions

- Every clock reading is an input, in nanoseconds. Readings do not decrease in the order in which the
  locks are taken. Where one call reads the clock several times, each reading is a separate input.
- Transaction and pending ids are fresh: an event or call that would reuse one is not taken.
- Signature verification, key parsing, SHA-256 and passphrase decryption are arbitrary functions. What
  the CA and the hosted keys would answer to any question is an input of each signing step; the model
  determines the question.
- `ssh.Unmarshal` is written as the readers of section 5 of RFC 4251: any non-zero byte is a true
  boolean, trailing bytes are an error unless a rest field takes them, and the `sshtype` tag on a field
  that is not the first contributes no byte.
- Strings are sequences of characters; where the code compares strings with wire bytes the conversion
  is a parameter. Text the codecs accept is ASCII.
- The proxy is not in dev mode, where every request is approved at once.

## Where a promise does not hold as it stands

Each of these has a lemma with a concrete input and a lemma with the exact condition.

- `ValidateTimestampAt` subtracts in 64 bits. Besides the window it admits one more timestamp, the one
  whose distance overflows (`Pipeline.TimestampExact`, `Pipeline.TimestampException`).
- The deployed replay ttl of 60 s is a second short of covering a window of 30 s either way. When a body
  gets in again is `Pipeline.AdmittedAgain`; `Pipeline.DeployedResidual` bounds where in the window this
  can happen, for any delay between the two clock readings, `Pipeline.DeployedInstant` is the case without
  delay, and `Pipeline.DeployedReplay` reaches every point of the bound for delays of up to a minute.
- The typed payload layout is tried first, and an untyped print can be taken for a typed one. It parses
  back if and only if it is not confusable, which takes a user name whose length begins with the byte 50
  (`UserAuth.ParseUntyped`); acceptance has the same exception and no other (`UserAuth.AcceptanceExact`).
  `UserAuth.LongUserRefused` is a user name for which every untyped request is refused. Any other user
  name, and any payload below 0x3200001A bytes, is safe (`UserAuth.OrdinarilyAcceptable`), that bound is
  sharp (`UserAuth.BoundIsSharp`), and the handler's cap is far below it.
- With no allowed times configured the keyboard shows three default times, and the parser refuses every
  one of them (`Callback.KeyboardWorksIffConfigured`). The loaded configuration always fills the list
  (proxy/internal/config/load.go:100), so only a notifier and poller configured otherwise get there.
- The poller's offset wraps to the least integer after the update with the largest id
  (`Poller.OffsetExact`, `Poller.OffsetWraps`).
- A colon in a user name can move into the address without changing the challenge
  (`Pop.ChallengeExact`, `Pop.ColonCollides`).
- The comment on `Allowed` of the rate limiter calls it read-only, but it throws away what is an hour old
  (`RateLimit.AskPrunes`); it leaves the limiter alone exactly when there is nothing to prune
  (`RateLimit.AskLeavesLimiterIff`). What is true is that it changes no later answer
  (`RateLimit.AsksAreReadOnly`).
- The wait handler checks the client before it waits. The check keeps strangers out if and only if it is
  made after the transaction was created, or the transaction carries no certificate
  (`WaitRuns.CheckSufficesIff`); made before, it lets a stranger receive the credential
  (`WaitRuns.EarlyCheck`). A client learns the id no sooner than the transaction exists.

## Model

| member | source | states |
|---|---|---|
| `ProtocolRuns.RunInv` | proxy/internal/approval/store.go:271-303 | In every reachable world of every interleaving the tables, the log, the approvers in flight, the leases and the waiters agree with one another |
| `ProtocolRuns.RunJustified` | proxy/internal/approval/store.go:271-421 | In every run each claim, issuance, finish, grant, reissue, registration and receipt follows from what was recorded before it |
| `ProtocolRuns.OncePerTransaction` | proxy/internal/approval/store.go:356-409 | In every run a transaction is created, claimed, signed for, finished and granted a lease at most once each |
| `ProtocolRuns.ApprovalChain` | proxy/internal/approval/store.go:271-303 | A committed approval goes back to exactly one issuance and before it one claim by the same approver, and its lease runs from the signing for the approved time |
| `ProtocolRuns.GrantChain` | proxy/internal/approval/store.go:289-302 | A lease is put only after its own transaction committed Approved, under the request's lookup key and the approver, with leases on, approver and client known and the request lease-enabled |
| `Approval.LookupExact` | proxy/internal/lease/key.go:34-47 | Two requests have one lookup key if and only if client certificate, source address, user, target, hosted key and destination all agree |
| `ProtocolRuns.NoLeaseWithoutApproval` | proxy/internal/approval/store.go:289-302 | A transaction denied, expired, abandoned or still open has granted no lease in any run |
| `ProtocolRuns.LeasesAreGrants` | proxy/internal/lease/store.go:61-72 | Every lease in the store at any time was granted by such a commit, with its expiry unchanged |
| `ProtocolRuns.OnlyGrantsChangeLeases` | proxy/internal/approval/store.go:213-243 | No step but the grant of a commit adds or changes a lease; reusing one never extends it |
| `ProtocolRuns.ReissueChain` | proxy/internal/approval/store.go:213-243 | A credential issued from a lease goes back to an earlier grant of the same key and expiry, was found before that expiry, and outlives it by exactly the delay between its two clock readings |
| `ProtocolRuns.CredentialProvenance` | proxy/internal/approval/store.go:213-303 | Every credential any waiter receives is the issued result of one claimed and committed approval of its transaction with the end of the lease added, or was minted from a lease, found unexpired, that was granted after such a commit of a lease-enabled request that agrees with the reusing one in all six fields, and outlives it by exactly the delay between the two readings |
| `ProtocolRuns.MadeBy` | proxy/internal/approval/store.go:271-421 | Every record of a run was made by one event, on the world the run had reached |
| `ProtocolRuns.ReceiversAgree` | proxy/internal/approval/store.go:424-463 | Whatever a waiter receives is the one result of its transaction, then and ever after |
| `ProtocolRuns.EveryResultIsSent` | proxy/internal/approval/store.go:411-421 | In every run every finish puts its result in the channel; none is dropped by the default branch or meets a closed channel |
| `ProtocolRuns.WaitersAreCounted` | proxy/internal/approval/store.go:424-480 | While a transaction has no result its counter is the number of waits registered on it and not returned |
| `ProtocolRuns.LastWaiterDeletes` | proxy/internal/approval/store.go:465-480 | A cancelled wait deletes an unresolved transaction if and only if no other waiter is left |
| `Progress.RefusalDelivers` | proxy/internal/approval/store.go:380-397 | From any world, a request that is denied or times out delivers just that to its waiter, and puts no lease |
| `Progress.ApprovalDelivers` | proxy/internal/approval/store.go:271-303 | From any world, an approved request puts in its waiter's channel what the signer answered, ending the approved time or five minutes after signing, or the signer's error; a lease with that end is put under the six fields and the approver exactly when leases are on, both are known and the request allows it |
| `Progress.CommitAndGrant` | proxy/internal/approval/store.go:285-302 | A commit sets state, result and channel of its transaction and the lease, and nothing else |
| `Progress.CommitFailure` | proxy/internal/approval/store.go:278-282 | A failed signing denies the transaction with the signer's error and puts no lease |
| `Progress.ReuseExact` | proxy/internal/approval/store.go:213-243 | A longest-lived lease of the same six fields, running at both looks, is turned into the signer's answer for its remaining time |
| `Progress.LeaseDelivers` | proxy/internal/approval/store.go:213-269 | From any world, a request on a running lease is served at once, and the lease is as it was |
| `Progress.RegisterExact` | proxy/internal/approval/store.go:246-269 | The served request is entered as a finished transaction with its channel filled and closed |
| `Progress.CopyExact` | proxy/internal/approval/store.go:447-463 | A waiter that comes after the result receives it and leaves the channel alone |
| `Progress.EndWaitRemoves` | proxy/internal/approval/store.go:424-441 | A waiter that has its value takes the transaction out of the table |
| `Progress.PurgeExact` | proxy/internal/lease/store.go:39-48 | A purge at any point of a run drops the leases that have run out, no others, and touches nothing else |
| `DecisionRuns.LateDecision` | proxy/internal/approval/store.go:356-397 | In every interleaving, once an approver or the timer has found a transaction pending, every later decision about it changes nothing |
| `DecisionRuns.OneDecision` | proxy/internal/approval/store.go:356-397 | So at most one event of a run decides a transaction |
| `DecisionRuns.RefusalStands` | proxy/internal/approval/store.go:380-397 | A denial or timeout that finds a transaction pending is its result ever after, and in the whole run nobody claims it, signs for it or is granted a lease on it |
| `DecisionRuns.ClaimStands` | proxy/internal/approval/store.go:271-303 | A claimed transaction is finished, if at all, by the commit of the very approver that claimed it, whatever denials, timers and approvers come while it signs |
| `ProtocolTables.TransactionsOnlyAdvance` | proxy/internal/approval/store.go:356-421 | From any point of any run to any later one a transaction keeps its request, its state only moves along the diagram, and a result once set is final |
| `ProtocolTables.ResultsAreTerminal` | proxy/internal/approval/store.go:388-421 | In every reachable world a transaction has a result exactly in a terminal state and its channel holds nothing else |
| `ProtocolTables.StepMoves` | proxy/internal/approval/store.go:356-486 | Every step of the protocol loses no transaction and advances each by one step of the diagram or none |
| `ProtocolHistory.JobsStep` | proxy/internal/approval/store.go:271-303 | Every step keeps: each approver in flight holds its own claimed transaction, no two the same one, in the phase the log says |
| `ProtocolSafety.BackedStep` | proxy/internal/approval/store.go:213-243 | Every step keeps: every lease and every request on the fast path is backed by a recorded grant |
| `ProtocolSafety.WaitsStep` | proxy/internal/approval/store.go:424-463 | Every step keeps: every copy or received value a waiter holds is the result of its transaction |
| `ProtocolSafety.CountedStep` | proxy/internal/approval/store.go:447-480 | Every step keeps the waiter counters of unresolved transactions exact |
| `Approval.NeverDropped` | proxy/internal/approval/store.go:411-421 | A sound transaction without a result can always send, and the sent value is its result |
| `Approval.FinishEvolves` | proxy/internal/approval/store.go:388-409 | Finishing keeps every transaction sound and moves only the finished one, along the diagram |
| `Approval.CancelEvolves` | proxy/internal/approval/store.go:465-480 | Cancelling a wait can remove only the transaction waited on and keeps the rest as they were |
| `Approval.Store.CreateBound` | proxy/internal/approval/store.go:162-202 | Adds one pending transaction under a fresh id and leaves the others alone |
| `Approval.Store.CreateInstantApproved` | proxy/internal/approval/store.go:246-269 | Adds one transaction born approved, with its channel filled and closed |
| `Approval.Store.ClaimApproval` | proxy/internal/approval/store.go:356-365 | Claims exactly a pending transaction without a result and reports whether it did |
| `Approval.Store.FinishPending` | proxy/internal/approval/store.go:388-397 | Finishes exactly a pending transaction without a result |
| `Approval.Store.FinishClaimed` | proxy/internal/approval/store.go:399-409 | Finishes exactly a claimed transaction without a result and reports whether it did |
| `Approval.TxEntry.FinishLocked` | proxy/internal/approval/store.go:411-421 | Sets state and result and sends without blocking |
| `Approval.TxEntry.Receive` | proxy/internal/approval/store.go:424-441 | Takes the one value out of the channel, for one receiver only |
| `Approval.Store.Deny` | proxy/internal/approval/store.go:380-382 | Denies a pending transaction and no other |
| `Approval.Store.Expire` | proxy/internal/approval/store.go:384-386 | Expires a pending transaction and no other |
| `Approval.Store.WaitResult` | proxy/internal/approval/store.go:447-463 | Registers a waiter on an open transaction, copies the result of a finished one, reports a missing one |
| `Approval.Store.Cancel` | proxy/internal/approval/store.go:465-480 | Counts one waiter out and deletes the transaction with the last |
| `Approval.Store.Remove` | proxy/internal/approval/store.go:482-486 | Deletes one transaction from the table |
| `UserAuth.ReadIffEncoded` | proxy/internal/auth/session_binding.go:113-136 | A payload reads as a request in a layout if and only if it is that request's print with some boolean byte of the right truth |
| `UserAuth.Unambiguous` | proxy/internal/auth/session_binding.go:138-163 | A payload of any size reads in both layouts if and only if it is an untyped print whose user-name length begins with the message number and whose rest reads on |
| `UserAuth.BelowBound` | proxy/internal/api/sign_handler.go:97-101 | So no payload with a session id below the bound reads in both |
| `UserAuth.BoundIsSharp` | proxy/internal/auth/session_binding.go:138-163 | At the bound there is one that does, and it does not parse back |
| `UserAuth.ParseTyped` | proxy/internal/auth/session_binding.go:138-163 | Parsing the print of any request with a session id in the typed layout returns that request |
| `UserAuth.ParseUntyped` | proxy/internal/auth/session_binding.go:138-163 | Parsing its untyped print, of any size, returns it if and only if it is not confusable |
| `UserAuth.IntendedBytes` | proxy/internal/auth/session_binding.go:113-136 | An intended print is, spelled out field by field, session id, message number, user, "ssh-connection", method, true, algorithm, hosted key and bound host key |
| `UserAuth.CheckRequestExact` | proxy/internal/auth/session_binding.go:165-186 | The field checks pass exactly for an intended request of either method |
| `UserAuth.AcceptedIsIntended` | proxy/internal/auth/session_binding.go:89-98 | An accepted payload of any size is, byte for byte, a print of an intended request |
| `UserAuth.IntendedIsAccepted` | proxy/internal/auth/session_binding.go:89-98 | Every print of an intended request, of any size, is accepted unless it is an untyped one that the typed reading takes first |
| `UserAuth.AcceptanceExact` | proxy/internal/auth/session_binding.go:89-98 | Acceptance is exactly being such a print, for every payload, session, user and key |
| `UserAuth.OrdinarilyAcceptable` | proxy/internal/auth/session_binding.go:138-163 | For a user name whose length does not begin with byte 50, and for payloads below the bound, the exception does not arise |
| `UserAuth.LongUserRefused` | proxy/internal/auth/session_binding.go:138-163 | For one overlong user name every untyped print of an intended request is refused |
| `UserAuth.BoundAcceptanceExact` | proxy/internal/auth/session_binding.go:31-65 | A session-bound request passes if and only if it is not forwarded, the host's signature over the session verifies and the payload, of any size, is acceptable for that session and host; the approval carries that host's fingerprint |
| `UserAuth.PrintedProves` | proxy/internal/auth/session_binding.go:31-57 | A binding printed in base64 whose signature verifies proves its host key and session |
| `UserAuth.DirectAcceptanceExact` | proxy/internal/auth/session_binding.go:70-109 | A direct request passes and reports a session if and only if the host key parses and the payload, of any size, is acceptable for that host and session |
| `UserAuth.NoKeyNoAcceptance` | proxy/internal/auth/session_binding.go:165-169 | Without a hosted key nothing passes |
| `UserAuth.HandlerCapSuffices` | proxy/internal/api/sign_handler.go:97-101 | Sign data within the handler's cap decodes to a payload below the bound |
| `SignHandler.SanctionedIsVetted` | proxy/internal/api/sign_handler.go:85-142 | A hosted-key request with intended sign data is taken, naming the hosted key and the destination, with leases off unless the session is bound |
| `SignHandler.VettedIsSanctioned` | proxy/internal/api/sign_handler.go:85-142 | Nothing else is taken: the sign data of a taken request is intended for its user, a loaded key, and the destination it names |
| `SignHandler.VettedCarries` | proxy/internal/api/sign_handler.go:144-157 | Whatever is taken, in either mode, carries the user, target, key and sign data asked for, and the peer's address and certificate |
| `SignHandler.CaVetExact` | proxy/internal/api/sign_handler.go:85-101 | With a CA a request is taken if and only if the CA is loaded and the sign data within the cap; it names no hosted key and no destination, and leases are on |
| `SignHandler.RefusedEarly` | proxy/internal/api/sign_handler.go:85-101 | A request is refused as sealed, without sign data or too large exactly in these cases |
| `SignHandler.RefusedLate` | proxy/internal/api/sign_handler.go:103-141 | After that, hosted key, signer, sign data and binding are told apart in this order |
| `SignHandler.KeyNamesItself` | proxy/internal/keystore/resolve.go:14-30 | A public key names its own fingerprint unless the fingerprint beside it differs |
| `SignHandler.FormsNameTheKey` | proxy/internal/keystore/resolve.go:31-33 | A fingerprint alone, in any of its four forms, names the key with that digest |
| `SignHandler.SoleKeyIsMeant` | proxy/internal/keystore/resolve.go:37-44 | With neither, a key is meant if and only if it is the only one loaded |
| `SignHandler.PrintedIsVetted` | proxy/internal/api/sign_handler.go:113-142 | A client that prints an intended request in either layout and sends it in base64 within the cap is served |
| `SignHandler.CallIsProtocol` | proxy/internal/api/sign_handler.go:144-157 | A call of the handler is the protocol's find, measure, reissue, register and create: a lease hit registers a finished transaction, anything else opens a pending one |
| `SignHandler.HandleSign` | proxy/internal/api/sign_handler.go:85-178 | A refused request changes nothing; a taken one enters exactly one transaction, from the best lease where leases may be consulted |
| `SignRuns.SignatureExact` | proxy/internal/approval/store.go:323-334 | A hosted key is asked for the decoded sign data under the request's fingerprint, and the result is its answer in base64 or the signer's error |
| `SignRuns.UnaskedKey` | proxy/internal/approval/store.go:312-326 | What keeps it from being asked is told apart in this order |
| `SignRuns.OneQuestion` | proxy/internal/approval/store.go:312-334 | No other answer of any key makes a difference |
| `SignRuns.CertificateExact` | proxy/internal/approval/store.go:337-353 | The CA is asked to certify the request's key for its user, target and source address until the given end, and the result is its answer or the error |
| `SignRuns.ApprovedCertificatesAreAsked` | proxy/internal/approval/store.go:340-346 | In every run every certificate issued for an approval is the CA's answer about the key, user and target a client asked the handler for and the address it asked from, until the approved end |
| `SignRuns.LeasedCertificatesAreAsked` | proxy/internal/approval/store.go:213-243 | So is every certificate issued on a lease, and the granting approval agrees with it in all six fields |
| `SignRuns.ApprovedSignaturesAreSanctioned` | proxy/internal/approval/store.go:312-334 | In every run fed by the handler the bytes a hosted key was asked to sign for an approval are an intended payload for the approved user, that key and the destination, and the signature of the result decodes to the key's answer to them |
| `SignRuns.LeasedSignaturesAreSanctioned` | proxy/internal/api/sign_handler.go:144-155 | So are the bytes signed on a lease, for a session its host has signed, and the granting approval was for the same client, user, hosted key and destination |
| `WaitRuns.ReceiptCall` | proxy/internal/approval/store.go:424-463 | Every receipt is that of one call that found the transaction and has been waiting on it since |
| `WaitRuns.CheckSufficesIff` | proxy/internal/api/sign_handler.go:180-188 | In every run, whoever passes the handler's look may wait on the transaction found later if and only if it had been created by then or carries no client certificate |
| `WaitRuns.ReceivedByItsClient` | proxy/internal/api/sign_handler.go:180-188 | In every run fed by the wait handler a transaction that carries a client certificate is received only by that client, if the handler looked after it was created |
| `WaitRuns.DeliveredToItsClient` | proxy/internal/api/sign_handler.go:180-191 | If the handler looked after the transaction was created, its credential goes only to the client whose certificate the approved or reusing request carries; a request without a certificate has no such client |
| `WaitRuns.DeliveredToItsPeer` | proxy/internal/api/sign_handler.go:180-191 | Under the same condition the receiver is the peer, by its certificate, whose request the sign handler took |
| `WaitRuns.EarlyCheck` | proxy/internal/api/sign_handler.go:182-187 | Past a check made before the transaction exists, any stranger receives the credential issued for it |
| `Replay.AnswersFromHistory` | proxy/internal/auth/replay.go:39-74 | On a non-decreasing clock a key is refused if and only if its latest acceptance is less than ttl old and fewer than max keys were accepted since; the cache never exceeds max |
| `Replay.OrderSorted` | proxy/internal/auth/replay.go:39-87 | After every run the list is sorted by expiry |
| `Replay.AcceptancesApart` | proxy/internal/auth/replay.go:39-74 | Two acceptances of one key are at least ttl apart or max others lie between them |
| `Replay.ReplayLRU.AddIfNew` | proxy/internal/auth/replay.go:39-74 | List and map stay in step and the answer is that of the list specification |
| `Replay.ReplayLRU.EvictExpired` | proxy/internal/auth/replay.go:76-87 | Drops expired entries from the back, from list and map alike |
| `Pipeline.TimestampExact` | proxy/internal/auth/pipeline.go:80-90 | The check admits exactly the window and the one timestamp whose distance overflows |
| `Pipeline.TimestampException` | proxy/internal/auth/pipeline.go:80-90 | At every plausible reading that timestamp exists and lies outside the window |
| `Pipeline.WindowSpan` | proxy/internal/auth/pipeline.go:80-90 | One timestamp cannot pass at two readings 2·window+1 seconds apart |
| `Pipeline.AdmitExact` | proxy/internal/auth/pipeline.go:40-52 | Which check refuses which request, and what each leaves of the cache |
| `Pipeline.ValidateCLIKeysLoad` | proxy/internal/auth/pipeline.go:40-52 | MAC, window and cache in that order, the cache untouched by a request refused earlier |
| `Pipeline.ValidateSignRequest` | proxy/internal/auth/pipeline.go:55-77 | The same, then the key checks in order with their own errors, after the body has been spent |
| `Pipeline.AdmittedAreAccepted` | proxy/internal/auth/pipeline.go:40-52 | Over every run the admitted requests are, in order, the calls the cache accepted |
| `Pipeline.TwoAdmissions` | proxy/internal/auth/pipeline.go:40-52 | Two admissions of one body without capacity eviction are at least ttl apart in cache time and under 2·window+1 seconds apart in check time |
| `Pipeline.AtMostOnce` | proxy/internal/auth/pipeline.go:40-52 | So a body is admitted at most once whenever ttl covers 2·window+1 seconds and the delay between the readings |
| `Pipeline.AdmittedAgain` | proxy/internal/auth/pipeline.go:40-52 | In any run a body whose latest admission has not been pushed out is admitted again if and only if it passes MAC and window and ttl has gone by between the two looks into the cache |
| `Pipeline.DeployedResidual` | proxy/cmd/luna-proxy/serve.go:42 | With 60 s, and at most a given delay between the readings, a second admission needs a first check in the first second of the window or the delay after it, and a second check in the last second or the delay before it; an overflowing timestamp needs a delay of 59 s |
| `Pipeline.DeployedInstant` | proxy/cmd/luna-proxy/serve.go:42 | Without delay the second admission happens if and only if the MAC holds, the checks fall in the first and the last second, and 60 s lie between them |
| `Pipeline.BothAdmitted` | proxy/internal/auth/pipeline.go:40-52 | Two requests for one body on an empty cache are both admitted if and only if both pass their checks and ttl goes by between them |
| `Pipeline.DeployedReplay` | proxy/cmd/luna-proxy/serve.go:42 | From every reading in the first second of the window or the delay after it, for delays of up to 60 s, a body can be admitted twice |
| `Lease.Store.Put` | proxy/internal/lease/store.go:61-72 | Puts one lease and keeps every bucket exactly the non-empty set of full keys of its lookup |
| `Lease.Store.DeleteLocked` | proxy/internal/lease/store.go:50-58 | Deletes one lease, or nothing when it is not there, and keeps the index exact, dropping an emptied bucket |
| `Lease.Store.PurgeExpired` | proxy/internal/lease/store.go:39-48 | Leaves exactly the leases that are not past, with the index exact |
| `Lease.Store.FindActive` | proxy/internal/lease/store.go:75-95 | Returns an unexpired lease of the lookup with the greatest expiry, or none if there is none |
| `Lease.LiveFromHistory` | proxy/internal/lease/store.go:39-72 | A lease not past is in the store exactly when the last put of its key says so |
| `Lease.BestFromHistory` | proxy/internal/lease/store.go:75-95 | FindActive's answer is the naive maximum over the last puts of all matching keys |
| `Lease.BestPutUnique` | proxy/internal/lease/store.go:75-95 | That maximum is unique |
| `Lease.PurgesAreInvisible` | proxy/internal/lease/store.go:39-48 | Purges anywhere in a run change no later answer |
| `RateLimit.AnswersFromHistory` | proxy/internal/cli/ratelimit.go:25-52 | In every run a success is recorded, and Allowed says yes, if and only if fewer than ten successes lie in the last hour |
| `RateLimit.TenPerHour` | proxy/internal/cli/ratelimit.go:25-52 | The same, counted directly: fewer than ten successes are less than an hour old |
| `RateLimit.RememberAndForget` | proxy/internal/cli/ratelimit.go:36-80 | A recorded success joins the history; forgetting a device empties its history and no other's |
| `RateLimit.HourHoldsTen` | proxy/internal/cli/ratelimit.go:36-52 | Any eleven successes of a device since it was last forgotten span at least an hour |
| `RateLimit.AsksAreReadOnly` | proxy/internal/cli/ratelimit.go:25-33 | Calls of Allowed change no later answer, neither of TryRecordSuccess nor of Allowed |
| `RateLimit.AskLeavesLimiterIff` | proxy/internal/cli/ratelimit.go:25-33 | Allowed leaves the limiter's own state as it was if and only if the device is empty or unknown or all its successes are recent |
| `RateLimit.AskPrunes` | proxy/internal/cli/ratelimit.go:54-70 | An hour after a success Allowed throws it away |
| `RateLimit.CompactAfter` | proxy/internal/cli/ratelimit.go:54-63 | In-place compaction leaves the order-preserving filter of the slice in front |
| `RateLimit.LoadRateLimiter.PruneLocked` | proxy/internal/cli/ratelimit.go:54-70 | Keeps exactly the device's recent successes, on the device's own array, and touches no other device |
| `RateLimit.LoadRateLimiter.Allowed` | proxy/internal/cli/ratelimit.go:25-33 | Prunes and answers as specified |
| `RateLimit.LoadRateLimiter.TryRecordSuccess` | proxy/internal/cli/ratelimit.go:36-52 | Prunes, answers and appends as specified |
| `RateLimit.LoadRateLimiter.Forget` | proxy/internal/cli/ratelimit.go:73-80 | Drops one device's history |
| `Keystore.GuessesPerCooldown` | proxy/internal/keystore/keystore.go:154-199 | In every run every half-open 15-minute window with s successful loads holds at most 5+4s failed decryptions |
| `Keystore.AnswersFromHistory` | proxy/internal/keystore/keystore.go:154-233 | In every run an attempt is refused as locked if and only if it comes within fifteen minutes of the latest fifth failure in a row, and otherwise answered by what memory and passphrase say |
| `Keystore.CounterStaysBelowLimit` | proxy/internal/keystore/keystore.go:273-279 | In every run the fail counter stays below five and is zero while locked |
| `Keystore.FiveFailuresLock` | proxy/internal/keystore/keystore.go:224-233 | Five straight failures reach the bound and shut the keystore for exactly fifteen minutes; then the right passphrase loads |
| `Keystore.OnlySuccessLoads` | proxy/internal/keystore/keystore.go:154-199 | A locked or failing attempt leaves the signers alone; a success changes the CA slot or one pool entry |
| `Keystore.FailingRunLoadsNothing` | proxy/internal/keystore/keystore.go:154-199 | A run without a success ends with the signers it began with |
| `Keystore.Store.CheckUnsealLock` | proxy/internal/keystore/keystore.go:224-233 | Reports a running lock, and clears one that has run out together with the counter |
| `Keystore.Store.RecordUnsealFailure` | proxy/internal/keystore/keystore.go:273-279 | Counts a failure, and on the fifth locks and starts over |
| `Keystore.Store.LoadPEMBytes` | proxy/internal/keystore/keystore.go:154-199 | The lockout machine's step on what the buffer held, with the buffer wiped on every path but the locked one |
| `Keystore.ZeroBytes` | proxy/internal/keystore/mlock_linux.go:55-59 | Leaves only zeros |
| `Pending.Store.Add` | proxy/internal/keystore/pending.go:49-69 | Adds a private copy of the blob exactly when fewer than 32 entries and fewer than 4 of the device are queued; counters, limits and totals stay exact |
| `Pending.Store.PurgeExpired` | proxy/internal/keystore/pending.go:118-128 | Leaves exactly the live entries; entries added stay equal to live plus deleted plus purged |
| `Pending.Store.Get` | proxy/internal/keystore/pending.go:72-81 | Purges and returns the entry if it is live |
| `Pending.Store.Delete` | proxy/internal/keystore/pending.go:84-96 | Removes one entry, expired or not, and counts its device down |
| `Pending.Store.List` | proxy/internal/keystore/pending.go:99-108 | Lists every live entry once and nothing else |
| `Pending.GuardHolds` | proxy/internal/keystore/pending.go:91-94 | The guard before every decrement holds whenever the entry is there |
| `Pending.AddCounts` | proxy/internal/keystore/pending.go:59-67 | Adding one entry keeps every device counter exact |
| `Pending.DropCounts` | proxy/internal/keystore/pending.go:91-94 | Removing one entry keeps every device counter exact |
| `Pending.AnsweredExact` | proxy/internal/control/ops.go:155-161 | A confirmation succeeds exactly when the keystore is open and the blob decrypts, and is told apart from a locked keystore |
| `Pending.KeyConfirm` | proxy/internal/control/ops.go:141-166 | Refused untouched outside local-key mode; otherwise loads what the live entry's own blob decrypts to and then deletes the entry; a refusal wipes that blob and keeps the entry, a locked keystore leaves it whole, other blobs are never touched |
| `Poller.LongPoller.HandleUpdate` | proxy/internal/approval/poller.go:189-259 | An authorised, well-formed update acts on the stores as its decision says, any other does nothing |
| `Poller.LongPoller.PollOnce` | proxy/internal/approval/poller.go:155-160 | One batch moves offset and stores as its updates do in order |
| `Poller.Approve` | proxy/internal/approval/store.go:271-303 | An uninterrupted approval claims, signs, commits and grants as specified, and does nothing to a transaction that is not pending |
| `Poller.ApproveIsProtocol` | proxy/internal/approval/store.go:271-303 | That call is the protocol's claim, sign, commit and grant one after the other |
| `Poller.RefusalIsProtocol` | proxy/internal/approval/store.go:380-386 | A refusal and a timer are the protocol's deny and expire |
| `Poller.StrangersDecideNothing` | proxy/internal/approval/poller.go:211-224 | A press from another chat, by an unlisted user or without a message decides nothing |
| `Poller.DenyPress` | proxy/internal/approval/poller.go:249-251 | An authorised press refuses a transaction if and only if its data is deny: and that id |
| `Poller.ApprovePress` | proxy/internal/approval/poller.go:235-240 | An authorised press on an approve button approves that transaction for the seconds on it, in the name of the chat, and one with a time not allowed does nothing |
| `Poller.BareApprovePress` | proxy/internal/approval/poller.go:236-238 | Without a time the first configured one counts, or five minutes |
| `Poller.DeniedByPress` | proxy/internal/approval/poller.go:249-251 | A pending transaction whose Deny is pressed ends denied, with no credential and no lease |
| `Poller.ApprovedByPress` | proxy/internal/approval/poller.go:235-240 | One whose approval is pressed ends with the signer's answer for the chosen time |
| `Poller.OnlyDecisionsMatter` | proxy/internal/approval/poller.go:189-259 | Malformed and unauthorised updates might as well not be there |
| `Poller.OffsetStepExact` | proxy/internal/approval/poller.go:155-160 | One update keeps the offset from going back and puts it above its id exactly when that id is not the largest |
| `Poller.OffsetExact` | proxy/internal/approval/poller.go:155-160 | Over any batch with repeats in any order the offset does not go back and ends above every id exactly when none is the largest |
| `Poller.OffsetFrom` | proxy/internal/approval/poller.go:155-160 | The offset is the old one or one more than an id of the batch, so no update is skipped |
| `Poller.OffsetWraps` | proxy/internal/approval/poller.go:155-160 | The largest id sends the offset back to the least integer |
| `Poller.OffsetOverBatches` | proxy/internal/approval/poller.go:155-160 | How updates are batched does not matter to the offset |
| `Poller.FirstDecisionWins` | proxy/internal/approval/store.go:356-409 | Over any sequence of presses and timers, repeated and reordered, a pending transaction ends as the first decision about it says |
| `Poller.OneIssuance` | proxy/internal/approval/store.go:271-303 | However often its buttons are pressed a transaction has one credential made if its first decision approves and the signer agrees, and none otherwise |
| `Poller.ReplayChangesNothing` | proxy/internal/approval/store.go:356-409 | A repeated or late decision changes neither transactions nor leases |
| `Callback.ApprovalKeyboard` | proxy/internal/approval/telegram.go:113-132 | The row holds one approve button per allowed or default time, in order, and then the deny button |
| `Callback.ButtonsParse` | proxy/internal/approval/callback.go:11-39 | A rendered button parses back to its action, id and time exactly when the id has the transaction prefix and the time is allowed |
| `Callback.DenyExact` | proxy/internal/approval/callback.go:17-22 | Data parses as a denial of an id if and only if it is deny: and that id, a transaction id without a colon |
| `Callback.ApproveExact` | proxy/internal/approval/callback.go:23-36 | Data parses as an approval of an id for a time if and only if it is approve: and that id, alone or with an allowed number of seconds, after which anything may follow a colon |
| `Callback.ChosenTTLExact` | proxy/internal/approval/callback.go:52-57 | A positive time is passed on; otherwise the first configured one, or five minutes |
| `Callback.ChatExact` | proxy/internal/approval/callback.go:60-70 | A chat is allowed if and only if it is the configured number, in any white space |
| `Callback.UserExact` | proxy/internal/approval/callback.go:74-83 | A user is allowed if and only if listed, or the configured chat is that user's private one |
| `Callback.KeyboardWorksIffConfigured` | proxy/internal/approval/telegram.go:113-117 | The approve buttons work if and only if the list of allowed times is not empty |
| `Callback.ChosenTTLIsAllowed` | proxy/internal/approval/callback.go:42-57 | Every time passed to Approve, the default included, is an allowed one |
| `Fingerprint.Base64FormsAgree` | proxy/internal/keystore/fingerprint.go:21-51 | Any base64 form of a digest, padded or not, prefixed or not, in any white space, resolves to the canonical text |
| `Fingerprint.HexFormsAgree` | proxy/internal/keystore/fingerprint.go:28-43 | So does every hex form in either letter case |
| `Fingerprint.LetterCaseIsIgnored` | proxy/internal/keystore/fingerprint.go:33-37 | Hex in capitals, small letters or mixed is the same fingerprint |
| `Fingerprint.FormsOfOneDigest` | proxy/internal/keystore/fingerprint.go:15-51 | The four usual forms of a digest meet in one text of 43 characters |
| `Fingerprint.CanonicalInjective` | proxy/internal/keystore/fingerprint.go:15-18 | Different digests have different canonical texts |
| `Fingerprint.ParseHintFixedPoint` | proxy/internal/keystore/fingerprint.go:28-43 | The output of every accepted input parses to itself |
| `Pop.PopChallenge` | proxy/internal/auth/pop.go:10-18 | The proxy builds the text user:ip:timestamp |
| `Pop.SdkChallenge` | sdk/pop.go:11-19 | The client builds the same text for all inputs |
| `Pop.ChallengeExact` | proxy/internal/auth/pop.go:10-18 | Two requests share a challenge if and only if timestamps agree and user and address run together alike |
| `Pop.ChallengeInjective` | proxy/internal/auth/pop.go:10-18 | So the challenge determines user, address and timestamp over all users without a colon |
| `Pop.ColonCollides` | proxy/internal/auth/pop.go:10-18 | Every user with a colon shares each of its challenges with another user |

## Left out

- HTTP, TLS, JSON, logging, status codes and the calls of the Telegram API: input and output around the decisions modelled.
- Cryptography, certificate contents, PEM decryption, memory locking and id generation: foreign code, kept as parameters.
- The status codes and the time formats of a wait: a table each.
- CLI and mobile device registries, label and display-field checks, agent locking and per-connection bindings: they only compare or store values.
- The signer pool's own locking and listing: the handler sees it as a map from fingerprints to keys.
- Setup, configuration, installers, command line and output formatting: nothing to prove.
- Message texts, button labels and the notifier's record of sent messages: presentation.
- Several waiters: they share one channel slot and only one of them is woken; finished transactions nobody waits for stay in the table. The code promises neither, so neither is stated.
- Dev mode, which approves every request at once.
- SignHandler.HandleSign: the handler's call is modelled without other threads between its stages; interleavings are covered by the protocol's events.
- SignHandler.Vet: a fingerprint of the pool is any key of the map, so the order in which signers are listed is not modelled.
- Pending.KeyConfirm: Get, load and Delete are modelled without other threads between them, so an entry purged or deleted meanwhile is not covered.
- Poller.Approve: the call is modelled without other threads between claim and commit; interleavings are covered by the protocol's events, as `DecisionRuns` does for decisions.
- Poller.FirstDecisionWins: approvals are uninterrupted here; over all interleavings the first decision stands by `DecisionRuns.LateDecision`, `DecisionRuns.RefusalStands` and `DecisionRuns.ClaimStands`.
- Poller.OneIssuance: likewise; over all interleavings there is one issuance at most by `ProtocolRuns.OncePerTransaction`.
- Pop.SdkChallenge: the third copy of the builder in the sign client is the same text and has no member of its own.
