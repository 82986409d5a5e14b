# AgentBell, modelled and verified in Dafny

AgentBell is a durable notification pipeline: events are queued on a machine, relayed from
remote machines to a host, fanned out to notification channels, and produced by hooks that
AgentBell writes into the configuration files of coding agents. This project models the parts
of that pipeline whose correctness does not show in any one function, and proves what they
keep over whole runs. `dafny verify dfyconfig.toml` checks everything.

The modules, in the order they build on each other:

| files | what they model |
|---|---|
| `Common`, `Text`, `Utf8`, `WhiteSpace`, `Lines`, `Sorting`, `Slots` | wrapper types, string functions, UTF-8, what is trimmed, lines, sorting by key, directory slots and listings |
| `Protocol`, `Receipts`, `HostSafety` | relay envelopes, the host's receipt store and ingress, and what keeps a delivery from being queued twice |
| `Admission`, `Signing`, `Nonce`, `Reopen`, `Stranding`, `AckWindow` | the ingress behind its peers and its clock, whose requests it takes, nonce reservations, when an unsettled delivery can still be published or queued again, the stdio replay window |
| `Outbox`, `Relay`, `RelayEffects`, `RelayLeases`, `RelayPacing`, `Forwarding` | the remote outbox, the forwarder, sender and host running together, and what its leases, delays and replies decide |
| `EnqueueKeys`, `Ledger`, `Queue` | the host queue: idempotency markers, delivery ledgers, state directories |
| `Delivery`, `Service`, `Leases`, `Pacing`, `HalfRetry`, `Processor` | rounds of delivery, every run of the service on one item, its leases and delays, manual retries cut in half, the processor's loops |
| `Pairing`, `Binding`, `Crockford` | one-time codes and their text |
| `HookTree`, `HookText`, `HookEditor` | hook trees in JSON settings, and what editing them does to the text of their handlers |
| `Audit`, `AuditReport`, `AuditVerdicts`, `AuditOrder`, `AuditApply` | the hook audit, what its verdicts mean, its reconcile plan, and auditing again once the plan is carried out |
| `ShellWords`, `ShellScan`, `Toml`, `TomlEscapes`, `Kimi`, `KimiRegion`, `KimiAudit`, `KimiHooks`, `KimiLines` | shell words and quoted values, Kimi's marked region, the audit's independent reader, the audit of a whole file, and files as people write them |
| `SemVer`, `SemVerGrammar` | semantic version precedence, and the exact texts that are versions |

## How the system is modelled

- Time is an integer and the zero time is 0. Clocks do not go back where a property says so.
- Files are maps from name to record. Creating, renaming, linking and removing a file is one
  atomic, durable operation. An I/O error is a process death.
- An operation takes a `life` (or `steps`): the number of file operations it completes before
  the process dies. The class methods are proved against pure functions of the files of one
  item, and the run machines take exactly those functions as their steps, so a run has a death
  between any two file writes.
- Hashes are injective: receipt ids, digests and delivery keys are free constructors, and the
  digest of a Kimi command is a hexadecimal encoding. Random ids and claim ids are fresh.
- There is one queue worker and one outbox drainer; producers, calls of the ingress and
  clean-ups are many and interleave file operation by file operation. The outbox enqueue is
  one step, and so is the look for an item in the four directories of the queue, although the
  source looks into them one after another. Per-code locks exclude each other. Receipt and
  enqueue results do not rely on locks: the source breaks a receipt lock that is ten seconds
  old, so a call that stalls longer runs beside another.
- A call of the ingress reads the clock once, on arrival, and may take any time afterwards.
  Results that need it to be quick name the `delay` within which it gets its nonce. Peers do
  not change during a run, and the clock is past the zero time.
- Text is one byte per character. White space is that of Unicode, letter case is ASCII.
- How old a reservation marker looks is arbitrary: a waiting call may judge it stale at any look.
- The source never executes an audit plan: its reconcile command installs the hooks anew and
  audits again, which `KimiHooks` models for Kimi. Carrying out a plan therefore has a meaning
  of its own here: the entries whose place a removal names go, and each addition writes an
  entry at its place.
- What configuration, policy, quiet hours, random draws and senders decide are parameters.

## Results that differ from what one would expect

- Nonces are looked at and removed in two steps, without a lock. Two calls that see the same
  expired record, or a call and the clean-up, let one body pass twice at one instant, whatever
  the retention (`Nonces.TwoCallsRace`, `Nonces.CleanupRace`). A second pass has no other cause
  than this and a reservation that expires too early (`Nonces.SecondPassCause`). When removals
  take only expired records and calls get their nonce within `delay` of reading the clock, a
  body accepted at `now` can pass again exactly when
  `now + retention <= sentAt + maxSkew + delay` (`Nonces.AcceptedOnceIffWindowCovered`), so
  retention of exactly twice the skew, which is the default, leaves a gap for any delay.
- A host clean-up of a delivery's item lets the host queue a second one exactly when the
  delivery reopens (`Reopening.SecondItemIff`). For a published delivery: a call of it is past
  the receipts and still gets to enqueue. For an unpublished one: its publication is under way,
  or a call of its first body is on its way, or that body can still be admitted; with prompt
  calls and careful removals the last two also have to be in time for their nonce.
- A process that dies between the pending receipt and its publication strands its delivery.
  Under the same assumptions on removals and delay it is refused for good, as a replay and then
  for its timestamp, unless `now + retention <= sentAt + maxSkew + delay`
  (`Stranding.IdleIff`, `Stranding.StrandedIff`), and its item never reaches the history of the
  outbox (`Relay.NeverAcknowledged`). Only a call slow enough to outwait the record saves it.
- A burial whose error has no text cannot be recorded, because the ledger validator refuses
  it. A run without such burials keeps the bound on sends (`Services.SendsWithinBackoff`); with
  them, every configuration sends to every valid target without bound
  (`Services.BlankErrorsResendForever`).
- Removing a reservation marker gives its key two items in some continuation exactly when the
  marker was backed by an item or its writer was alive (`EnqueueKeys.TwoItemsIffNotAbandoned`).
  Judging only abandoned markers stale does not prevent it: two calls can judge the same
  marker, and the second removes the first one's new marker (`EnqueueKeys.TwoReclaimersRace`).
- A manual retry that dies between its two writes leaves the item pending and dead at once. The
  dead copy stays until a clean-up or another retry, and while it does every recovery pass drops
  the inflight copy with the successes it has recorded, so a target can be sent to again
  (`HalfRetries.HalfRetryLosesSuccess`). Runs without such a retry keep every success
  (`Services.SuccessIsFinal`).
- A rejection that dies between its two writes, followed by a claim before any recovery, is lost:
  the claim drops the pending copy that counted it. The number of rejections is bounded by the
  configured delays plus one for each such death (`RelayPacing.RejectionsBounded`,
  `Pacing.WholeNacksBounded`), and without that addition the bound fails for every acceptable body
  (`RelayPacing.RejectedOnceTooOften`).
- A pairing commit that dies between its rewrite and its rename leaves a record that names its
  peer, and until the code expires another claim can commit it for any other peer
  (`Pairings.HalfCommitTakenOver`).
- Carrying out the audit's plan leaves one current hook in every unblocked target except where
  an external entry has the locator of the hook to add; that target is blocked afterwards
  (`AuditApply.AuditConverges`, `AuditApply.AddedOverExternal`).
- Kimi accepts a stable bridge path that is not valid UTF-8, installs it, and its audit then
  refuses the region, because unquoting replaces the bad bytes (`KimiAudit.KimiReadsBack`,
  `KimiAudit.BadPathRefused`).
- A binding claim, release or recovery that dies between its two writes, and a claim of a
  cancelled record, strand the code in inflight for ever (`Bindings.StrandedBy`,
  `Bindings.StrandedForever`).
- The shell-style merge installs all its specs exactly when the non-empty matchers of each
  event agree (`HookTrees.InstallsIffAgree`).
- A command quoted for Windows is read back exactly when its path holds no `$` and no backquote
  (`ShellWords.WindowsCommandReadsBack`).
- `parseAuditTOMLString` returns what `tomlBasicString` wrote exactly when it has no newline and
  is valid UTF-8 (`Toml.UnquoteBasic`).

## Model

| member | source | states |
|---|---|---|
| `Receipts.DecodedCarries` | core/internal/relay/protocol.go:66-165 | a body that decodes carries a delivery key derived from its own team and origin, which the receipt machine relies on |
| `HostSafety.ReceiptsSafeWithoutLock` | core/internal/relay/receipt.go:143-243 | over every interleaving of file operations without the lock: a published receipt has the digest of the first pending body and names a durably queued item of it, only callers with that body are acknowledged, and a delivery key gets one item at most unless a clean-up removed its item while the delivery was open |
| `HostSafety.OneItemUnlessForgottenOpen` | core/internal/relay/receipt.go:143-243 | over every run in which the key is cleaned up only while its delivery is closed, the host queue gets at most one item for it |
| `HostSafety.ClosedForGood` | core/internal/relay/receipt.go:170-242 | once a delivery is closed no later step, clean-up included, queues another item for it |
| `Admission.RunProjects` | core/internal/relay/ingress.go:47-126 | every run of the ingress with its peers, clock and checks is a run of the receipt machine, so its results hold here |
| `Admission.AdmittedIsSender` | core/internal/relay/ingress.go:54-86 | an admitted request comes from a known peer that may send the body, at a time inside the window; `Signing.AdmittedIff` gives the exact conditions |
| `Admission.SenderIsAdmitted` | core/internal/relay/protocol.go:248-313 | and every such body, signed by its peer, is admitted at every time inside the window |
| `Signing.AdmittedIff` | core/internal/relay/protocol.go:248-313 | a request is admitted if and only if, field by field: the key names a known peer that is whole, not revoked and scoped for ingestion; the body is readable; team, origin, source and runtime are the peer's; the headers repeat the envelope; the time is inside the window; and the signature is the peer's over method, target, time, nonce and exact body |
| `Signing.OnlySignedBodies` | core/internal/relay/ingress.go:47-126 | over every run, every call, every first body and every item ever queued arrived in a request under the signature of its peer |
| `Signing.RepeatIsAnswered` | core/internal/relay/ingress.go:87-110 | in every reachable world a repeat of a committed body is acknowledged as a duplicate with the receipt's queue id and changes no file, and another body of the same delivery is a conflict |
| `Admission.OneSender` | core/internal/remoteconfig/validation.go:269-301 | with one peer per team and origin, as the configuration demands, a body has one sender |
| `Admission.RunInv` | core/internal/relay/ingress.go:47-126 | over every run each call was admitted at the time it read, each first body has a sender, and whoever is about to remove a nonce has seen it expired |
| `Reopening.SecondItemIff` | core/internal/relay/receipt.go:143-243 | in every reachable world, at either pace: after a clean-up some continuation queues a second item if and only if the delivery reopens |
| `Reopening.PublishedIffAlive` | core/internal/relay/receipt.go:143-243 | in every reachable world, at either pace: an unpublished delivery is published in some continuation if and only if it is alive |
| `Reopening.SpentStep` | core/internal/relay/ingress.go:95-110 | a delivery that is not alive stays so under every step |
| `Stranding.IdleIff` | core/internal/relay/ingress.go:95-126 | without calls in flight: published in some continuation if and only if the first body is still admitted and not too late for its nonce |
| `Stranding.StrandedIff` | core/internal/relay/ingress.go:95-126 | after a death between reservation and publication: published, or queued again after a clean-up, if and only if `now + retention <= sentAt + maxSkew + delay` |
| `Stranding.DeathIsReached` | core/internal/relay/receipt.go:143-243 | gives, for every body that is admitted, the run through the admission checks that enqueues and dies before publishing |
| `Receipts.PublishedForGood` | core/internal/relay/receipt.go:170-242 | a published receipt is never replaced or removed by any later step |
| `Receipts.RunInv` | core/internal/relay/receipt.go:143-243 | every step of every handler, crash and clean-up keeps the invariant of receipts, first bodies and queue |
| `Receipts.StepExtends` | core/internal/relay/storage.go:29-72 | no step takes back a committed receipt, a first body or an enqueued item |
| `Receipts.Ingress.LookupCommitted` | core/internal/relay/receipt.go:57-76 | finds the stored receipt of a delivery, and tells an exact repeat of its body from another body |
| `Receipts.Ingress.ReserveNonceLoop` | core/internal/relay/nonce.go:47-90 | the loop ends reserved, refused by an unexpired reservation, or cut off, exactly as the handler's steps do |
| `Receipts.Ingress.CommitIngress` | core/internal/relay/receipt.go:143-243 | the commit script leaves the disk and answer of the handler run alone, cut off after any number of file operations |
| `Receipts.Ingress.Accept` | core/internal/relay/ingress.go:47-126 | a whole request, its checks included, leaves the disk and answer of the handler run alone, cut off anywhere |
| `Nonces.NonceStore.constructor` | core/internal/relay/nonce.go:30-41 | a store opens empty with the retention asked for, but at least ten minutes |
| `Nonces.NonceStore.Accept` | core/internal/relay/nonce.go:47-90 | reserves exactly when no unexpired reservation of that peer and nonce stands, and touches no other record |
| `Nonces.NonceStore.Cleanup` | core/internal/relay/nonce.go:92-119 | removes exactly the expired records and counts them |
| `Nonces.ReservationStands` | core/internal/relay/nonce.go:47-90 | over every interleaving a reservation stands until its expiry, unless a call or a clean-up takes it that has not seen it expired |
| `Nonces.SecondPassCause` | core/internal/relay/nonce.go:47-119 | over every run with timely calls, a second pass means that the reservation expires inside window and delay, or that somebody took it unexpired |
| `Nonces.SecondPassIsLate` | core/internal/relay/nonce.go:47-90 | with careful removals a second call of the body gets its nonce only at or after the first reservation's expiry |
| `Admission.JudgedIsCareful` | core/internal/relay/nonce.go:70-83 | a removal that takes the record it looked at is careful |
| `Nonces.TwoCallsRace` | core/internal/relay/nonce.go:61-84 | gives, for every body and retention, the run in which two calls see one expired record and the second removes the first one's fresh reservation |
| `Nonces.CleanupRace` | core/internal/relay/nonce.go:92-119 | gives the same race of a call and the clean-up |
| `Nonces.LateSecondPass` | core/internal/relay/nonce.go:121-143 | gives the careful run in which a body passes twice when the reservation expires inside window and delay |
| `Nonces.AcceptedOnceIffWindowCovered` | core/internal/relay/protocol.go:292-300 | with careful removals and calls that reserve within `delay`, a body accepted at `now` passes again in some run if and only if `now + retention <= sentAt + maxSkew + delay` |
| `Nonces.DoubleSkewCovers` | core/internal/relay/ingress.go:95-110 | with retention at least twice the skew plus the delay, only a body sent exactly the full skew ahead can pass twice |
| `AckWindow.StdioTransport.constructor` | core/internal/relay/stdio.go:398-424 | an empty ring that agrees with its map |
| `AckWindow.StdioTransport.Put` | core/internal/relay/stdio.go:507-521 | writing the next slot appends to the unrolled ring and drops exactly its oldest id when it is full |
| `AckWindow.StdioTransport.RememberAck` | core/internal/relay/stdio.go:507-521 | refuses exactly the ids among the last 1024 accepted; map, ring and window agree after every call |
| `AckWindow.AcceptedRepeatsFarApart` | core/internal/relay/stdio.go:507-521 | over any calls, two acceptances of one id are more than 1024 acceptances apart |
| `Listings.List` | core/internal/queue/queue.go:458-497 | a directory listing holds every file once, oldest first |
| `Outboxes.Outbox.Enqueue` | core/internal/relay/outbox.go:301-363 | stores an acceptable body once; a repeat answers as a duplicate and another body under the id is refused |
| `Outboxes.Outbox.Claim` | core/internal/relay/outbox.go:365-398 | takes the oldest ready item that is not inflight; cut off anywhere it loses nothing |
| `Outboxes.Outbox.Transition` | core/internal/relay/outbox.go:508-526 | writes the destination, then removes inflight; a destination with another body stops it |
| `Outboxes.Outbox.Ack` | core/internal/relay/outbox.go:400-413 | moves a claimed item to history |
| `Outboxes.Outbox.Nack` | core/internal/relay/outbox.go:415-442 | puts a claimed item back with its next attempt, or gives it up when attempts are spent |
| `Outboxes.Outbox.Recover` | core/internal/relay/outbox.go:444-481 | file by file the recovery of its slot, in whole when it survives: an item that is only inflight stays exactly while its lease runs, otherwise it is pending again, and a leftover inflight file of a settled item goes; counts the reopened items |
| `RelayLeases.RecoveryRespectsLease` | core/internal/relay/outbox.go:444-481 | over every run a complete recovery leaves an item that is only inflight alone while the time plus lease of the last claim granted on it lie ahead, and otherwise makes it pending with only its bookkeeping changed; no lease means thirty seconds |
| `RelayLeases.ClaimsExclude` | core/internal/relay/outbox.go:365-481 | over every run, once a claim hands an item to the forwarder no later claim is granted on it until the forwarder settles it or a recovery comes at or after the claim's deadline |
| `RelayLeases.AbandonedIsRecovered` | core/internal/relay/outbox.go:444-481 | over every run the first complete recovery at or past the deadline makes an item pending again whose forwarder never settled it |
| `RelayEffects.RunTraced` | core/internal/relay/outbox.go:365-481 | over every run each move does to one item exactly one enqueue, claim, Ack, Nack or recovery of its slot, or nothing, and never loses it |
| `RelayPacing.RejectionIsRecorded` | core/internal/relay/outbox.go:415-442 | a rejection counts one attempt: pending after the delay configured for that attempt, dead when the delays are used up, body and signature unchanged |
| `RelayPacing.RejectionWaits` | core/internal/relay/outbox.go:365-442 | over every run the next claim after a rejection is granted only once its configured delay has gone by |
| `RelayPacing.RejectionsBounded` | core/internal/relay/outbox.go:415-442 | over every run an item is rejected at most as often as there are delays, plus once for each rejection cut off between its writes |
| `RelayPacing.RejectedOnceTooOften` | core/internal/relay/outbox.go:365-398 | gives, for every acceptable body, a run that rejects it three times where the delays allow two, through one such cut |
| `Forwarding.PostableIff` | core/internal/relay/outbox.go:301-330 | the outbox takes a body exactly when it is readable, carries metadata only, and its signature metadata repeat its time and nonce and name a key, a method and a target |
| `Forwarding.RequestIff` | core/internal/relay/stdio.go:73-108 | a request is made from exactly the inflight items that are dated, postable and named after their body, and carries their own body, identity and signature |
| `Forwarding.HeldCanBeSent` | core/internal/relay/stdio.go:73-108 | over every run the item the forwarder holds gives a valid request: nothing the outbox took fails to be sent |
| `Forwarding.ReplySettles` | core/internal/relay/forwarder.go:81-134 | a held item goes to history exactly on a durable acknowledgement that repeats its identity, key and digest; every other reply is a rejection under the configured or default delays |
| `Forwarding.HostAckAnswers` | core/internal/relay/stdio.go:110-135 | an acknowledgement is made exactly for the receipt of the request with a queue id and a time, and it answers the item the request was made from |
| `Outboxes.RecoverKeepsSlot` | core/internal/relay/outbox.go:444-481 | recovery keeps every item, leaves one copy, and never reopens a settled one |
| `Outboxes.LeaveKeepsSlot` | core/internal/relay/outbox.go:508-526 | a transition cut off anywhere leaves a copy, and all copies carry one body |
| `Outboxes.ClaimIsPerSlot` | core/internal/relay/outbox.go:365-398 | a claim cut off anywhere is, item by item, a claim of one slot cut off somewhere |
| `Relay.Forwarder.SettleClaim` | core/internal/relay/forwarder.go:81-134 | an acknowledgement that matches the claimed item settles it, anything else rejects it |
| `Relay.Forwarder.ForwardOne` | core/internal/relay/forwarder.go:47-134 | claims the oldest ready item, sends it once, and settles its slot by the reply with the file operations the claim left; every other slot is as a claim cut off somewhere leaves it |
| `Relay.AcceptedIsDelivered` | core/internal/relay/stdio.go:110-135 | an accepted handler's body has a committed receipt naming a durably queued item |
| `Relay.EndToEndSafety` | core/internal/relay/forwarder.go:47-134 | over every run with crashes on both sides, lost and repeated messages: history implies a committed receipt with the item's id and digest and a queued item of that body, no outbox item is lost, and a key gets one item at most unless a clean-up removed it while its delivery was open |
| `Relay.SecondItemIff` | core/internal/relay/receipt.go:143-243 | in every world of sender and admitted host, a clean-up lets the host queue a second item if and only if the delivery reopens |
| `Relay.NeverAcknowledged` | core/internal/relay/forwarder.go:47-134 | once the host can no longer publish a delivery, its item never reaches the outbox history, however often it is resent |
| `Relay.HistoryIsFinal` | core/internal/relay/outbox.go:400-481 | an item in history is never reopened, resent or given up |
| `Relay.RecoverySettles` | core/internal/relay/outbox.go:444-481 | after a complete recovery pass every item of a run is in exactly one directory |
| `EnqueueKeys.KeyedQueue.Enqueue` | core/internal/queue/queue.go:89-153 | reserves, writes the id, writes the item, cut off anywhere |
| `EnqueueKeys.AloneIsOneProducer` | core/internal/queue/queue.go:89-188 | that call is a run of one producer of the machine: from every state its steps lead to the same files and answer |
| `EnqueueKeys.SurvivingCallIsLive` | core/internal/queue/queue.go:155-200 | a call that survives answers with the live item of its key |
| `EnqueueKeys.IdempotentEnqueue` | core/internal/queue/queue.go:89-200 | over every run of producers and clean-ups with deaths anywhere, in which only abandoned markers are removed, at most one live item per key |
| `EnqueueKeys.TwoItemsIffNotAbandoned` | core/internal/queue/queue.go:155-188 | the exact condition: after a removal some continuation gives the key two live items if and only if the marker was backed or its writer alive |
| `EnqueueKeys.JudgedIsEnough` | core/internal/queue/queue.go:155-188 | removals are of abandoned markers whenever only abandoned markers are judged and the marker removed is the one judged, or the one of the cleaned item |
| `EnqueueKeys.TwoReclaimersRace` | core/internal/queue/queue.go:155-188 | for every event gives the run in which two calls judge one abandoned marker, the second removes the marker of the first, and the key has two live items |
| `EnqueueKeys.RunRefines` | core/internal/queue/queue.go:89-200 | over whole runs the abstract queue makes only the moves of the local queue of the receipt machine, and every answer is an enqueued item of the caller's key |
| `EnqueueKeys.DuplicateRefines` | core/internal/queue/queue.go:155-188 | a duplicate call returns the id of the live item of its key |
| `EnqueueKeys.ItemWriteRefines` | core/internal/queue/queue.go:118-153 | the item write is the instant of a fresh enqueue of the abstract queue |
| `EnqueueKeys.OtherStepsInvisible` | core/internal/queue/queue.go:155-188 | every other step, deaths, judgements and removals of abandoned markers included, leaves the abstract queue as it is |
| `EnqueueKeys.CleanupRefines` | core/internal/queue/queue.go:393-445 | a clean-up forgets the item at the instant it removes it, whatever becomes of the marker |
| `Ledgers.DispositionFor` | core/internal/queue/ledger.go:401-422 | the counting loop tells all succeeded, all dead, some succeeded but not all, and none succeeded with some still waiting |
| `Ledgers.LedgerTerminal` | core/internal/queue/ledger.go:424-431 | true exactly when no target waits |
| `Ledgers.Ready` | core/internal/queue/ledger.go:433-448 | the targets to send to now, in ledger order |
| `Ledgers.ReadyIsDue` | core/internal/queue/ledger.go:433-448 | a target is listed exactly when it waits and is due |
| `Ledgers.ReadyDistinct` | core/internal/queue/ledger.go:433-448 | the list repeats no target of a valid ledger |
| `Ledgers.ValidateEnvelope` | core/internal/queue/ledger.go:312-375 | accepts exactly the envelopes with valid entries, distinct targets and the right disposition |
| `Ledgers.UpdateKeepsValid` | core/internal/queue/ledger.go:243-282 | replacing an entry keeps the envelope valid exactly when the new entry is valid |
| `Ledgers.OnlyBlankDeathRefused` | core/internal/queue/ledger.go:142-169 | of all updates of a waiting target the validator refuses only a burial without error text |
| `Queues.NewLedger` | core/internal/queue/ledger.go:284-310 | one waiting entry per target, refused exactly for no, invalid or repeated targets |
| `Queues.GoodTargetsIff` | core/internal/queue/ledger.go:284-310 | targets are accepted exactly when there are some, channel and template have 1 to 256 characters, and no two are the same |
| `Queues.Queue.Claim` | core/internal/queue/queue.go:202-231 | claims the oldest ready envelope that is not inflight; cut off anywhere it loses nothing |
| `Queues.ClaimIsPerSlot` | core/internal/queue/queue.go:202-231 | a claim cut off anywhere is, file by file, a claim of one slot cut off somewhere |
| `Queues.Queue.Transition` | core/internal/queue/ledger.go:471-485 | writes the destination, then removes inflight; an existing destination refuses it |
| `Queues.Queue.Ack` | core/internal/queue/queue.go:233-259 | to history exactly when inflight and, once resolved, every target is terminal |
| `Queues.Queue.Nack` | core/internal/queue/queue.go:261-294 | counts one attempt and goes back to pending after the delay for it, or to dead when the delays are used up; refused once targets are resolved |
| `Queues.Queue.Defer` | core/internal/queue/ledger.go:171-201 | back to pending exactly for a resolved, valid, non-terminal ledger and a time after now |
| `Queues.Queue.Replace` | core/internal/queue/ledger.go:463-469 | rewrites the inflight file, which must exist |
| `Queues.Queue.ResolveTargets` | core/internal/queue/ledger.go:58-89 | writes the ledger once, and returns exactly the ready targets |
| `Queues.Queue.UpdateTarget` | core/internal/queue/ledger.go:243-282 | rewrites one entry and the disposition, or refuses and changes nothing |
| `Queues.Queue.RecoverExpired` | core/internal/queue/queue.go:296-331 | file by file the recovery of its slot, in whole when it survives: an item that is only inflight stays exactly while its lease runs, otherwise it is pending again, and a leftover inflight file of a settled item goes; counts the reopened items |
| `Leases.RecoveryRespectsLease` | core/internal/queue/queue.go:296-331 | over every run a complete pass leaves an item that is only inflight exactly as it is while the time plus lease of the last granted claim lie ahead of it, and otherwise makes it pending with only its bookkeeping changed |
| `Leases.ClaimsExclude` | core/internal/queue/queue.go:202-331 | over every run, once a claim hands an item to the worker no later claim finds it until the worker moves it on or a recovery pass comes at or after the claim's time plus its lease, whatever crashes, ledger writes and earlier passes lie between |
| `Leases.AbandonedIsRecovered` | core/internal/queue/queue.go:296-331 | over every run the first complete pass at or past the claim's time plus its lease makes an item pending again whose worker died with it |
| `Queues.Queue.Retry` | core/internal/queue/queue.go:348-371 | the oldest dead item with the id goes back to pending with its attempts reset, cut off anywhere; refused when there is none or pending has its file |
| `Queues.RetryStartsOver` | core/internal/queue/queue.go:348-371 | a retried item is pending with no attempts and no error, due at once, with one more retry on record, and its event and ledger as they were |
| `HalfRetries.DeadCopyStays` | core/internal/queue/queue.go:296-371 | over every run a dead copy stays as it is until a clean-up or a manual retry |
| `HalfRetries.RecoveryDropsProgress` | core/internal/queue/queue.go:305-318 | while it stays, a recovery pass drops the inflight copy, whatever its ledger has recorded |
| `HalfRetries.RetryStartsOver` | core/internal/queue/queue.go:348-371 | another retry takes the dead copy once nothing is pending, and starts over from it |
| `HalfRetries.HalfRetryLosesSuccess` | core/internal/queue/queue.go:296-371 | from every world of a run without half retries that has a dead item: after half a retry some continuation records a success for any valid target, loses it and sends to that target again |
| `Queues.RecoverKeepsSlot` | core/internal/queue/queue.go:296-331 | recovery loses neither the item nor a ledger entry, and a complete pass leaves one copy |
| `Queues.LeaveKeepsSlot` | core/internal/queue/ledger.go:471-485 | a transition cut off anywhere leaves a copy, and all copies carry one valid ledger |
| `Delivery.RecordIs` | core/internal/service/processor.go:161-184 | recording an outcome for a waiting target succeeds unless it is a burial without text, and gives exactly the entry of that outcome |
| `Delivery.RecordSpends` | core/internal/service/processor.go:161-184 | every recorded outcome costs retry budget, and attempts stay within the backoff |
| `Delivery.NextAttemptIsLegal` | core/internal/service/processor.go:186-207 | a waiting ledger gets a wake-up after now at which a target is due, and none is overslept |
| `Pacing.DeferredToEarliest` | core/internal/service/processor.go:186-207 | an unfinished item is put off to the earliest time any waiting target asks for: its own, or one poll interval from now if that has come |
| `Pacing.FailureIsPutOff` | core/internal/service/processor.go:161-184 | a failure that is neither permanent nor the last counts one attempt and sets the target's next time to now plus the configured delay for that attempt |
| `Pacing.BackoffRespected` | core/internal/service/processor.go:115-184 | over every run, any later attempt of a delivery round on that target is made no earlier than the failure's time plus that delay |
| `Pacing.EntriesTell` | core/internal/queue/ledger.go:312-375 | over every run each ledger entry says only what fits its state: errors only after attempts, message ids only after success, a next time only while waiting, a reason for every burial |
| `Pacing.WholeNackIsRecorded` | core/internal/queue/queue.go:261-294 | a rejected unresolved item counts one attempt and is due after the delay for it, or is dead when permanent or when the delays are used up |
| `Pacing.WholeNackWaits` | core/internal/queue/queue.go:202-294 | over every run the next claim after it comes only once that delay has gone by |
| `Pacing.WholeNacksBounded` | core/internal/queue/queue.go:261-294 | over every run an unresolved item is rejected, between manual retries, at most as often as there are delays, plus once for each rejection cut off between its writes |
| `Services.FinishIsLegal` | core/internal/service/processor.go:186-207 | the final Ack is accepted, or the Defer time is after now |
| `Services.SuccessIsFinal` | core/internal/service/processor.go:115-159 | over every run with crashes and recoveries, and no manual retry cut in half, a recorded success stays recorded and its target is never sent to again |
| `Services.RunCustody` | core/internal/queue/ledger.go:243-282 | over every run all copies on disk carry the last written ledger, so none has lost a success |
| `Services.SendsWithinBudget` | core/internal/service/processor.go:161-184 | every target is sent to at most `len(backoff)` times plus crashes plus blank burials |
| `Services.SendsWithinBackoff` | core/internal/service/processor.go:161-184 | in a run without a blank burial, at most `len(backoff)` times plus crashes |
| `Services.BlankErrorsResendForever` | core/internal/queue/ledger.go:142-169 | for every configuration, valid target, fresh item and k, a run without crashes sends k times to the target, its burials being refused for want of a text |
| `Services.Conservation` | core/internal/queue/queue.go:202-331 | until clean-up the item is in some directory; after a complete recovery pass in exactly one, with the recorded ledger |
| `Services.FanOutTerminates` | core/internal/service/processor.go:49-159 | rounds are bounded by the targets' retry budget plus crashes plus blank burials, and while nothing crashed every round finds a ready target |
| `Processors.RoundRecorded` | core/internal/service/processor.go:115-159 | each target of a round is recorded once, as its own outcome says |
| `Processors.RoundUntouched` | core/internal/service/processor.go:115-159 | a target outside the round keeps its entry |
| `Processors.RoundSpends` | core/internal/service/processor.go:161-184 | the sum of remaining attempts falls by at least one per target of the round that is not buried blank |
| `Processors.DropBuries` | core/internal/service/processor.go:209-227 | a quiet-hours drop buries exactly the waiting targets, with its reason, and leaves the others as they are |
| `Processors.Service.FailTarget` | core/internal/service/processor.go:161-184 | the last attempt the backoff allows, or a permanent error, buries the target; otherwise its next attempt is put off |
| `Processors.Service.Deliver` | core/internal/service/processor.go:115-155 | the loop sends to each target of the work list once, in order, and records exactly the round's ledger, cut off anywhere |
| `Processors.Service.NextAttemptFor` | core/internal/service/processor.go:190-202 | the loop computes the earliest candidate of a waiting target |
| `Processors.Service.FinishResolved` | core/internal/service/processor.go:186-207 | never fails, and leaves the item in history or pending until after now |
| `Processors.Service.ProcessResolved` | core/internal/service/processor.go:72-159 | sends to exactly the due targets, in order; none in quiet hours; the item ends in history or pending with the round's ledger, and after a death all its copies carry the ledger of the targets recorded so far |
| `Processors.Service.ProcessM2` | core/internal/service/processor.go:49-159 | policy, quiet hours, resolution and delivery in that order, with the error of each; a death anywhere leaves a copy with the ledger recorded so far |
| `Pairings.PairingStore.Create` | core/internal/relay/pairing.go:102-155 | the first of eight drawn codes without a pending record, with its time to live |
| `Pairings.PairingStore.Claim` | core/internal/relay/pairing.go:157-229 | each refusal in its order; a granted record is held until the claim's time plus its lease, was unexpired, and no other lease was running; rewrites and renames, cut off anywhere |
| `Pairings.PairingStore.Release` | core/internal/relay/pairing.go:231-258 | only the holding claim puts the record back |
| `Pairings.PairingStore.Commit` | core/internal/relay/pairing.go:260-299 | only the holding claim consumes, and before expiry |
| `Pairings.PairingStore.ClaimedRecord` | core/internal/relay/pairing.go:301-337 | the inflight record exactly when the claim holds it, and why not otherwise |
| `Pairings.ConsumedAtMostOnce` | core/internal/relay/pairing.go:157-337 | over every run at most one commit succeeds, and the one record is never lost |
| `Pairings.OnlyLatestClaimCommits` | core/internal/relay/pairing.go:260-299 | a commit succeeds only for the latest returned claim, before expiry, on an unconsumed code |
| `Pairings.LeasesExclude` | core/internal/relay/pairing.go:157-229 | two returned claims nobody released or committed never have their time plus lease ahead together |
| `Pairings.LeaseHolds` | core/internal/relay/pairing.go:157-229 | over every run, until its own holder releases or commits, any well-formed claim made before a returned claim's time plus the lease it asked for is refused as claimed and changes nothing |
| `Pairings.HolderDecides` | core/internal/relay/pairing.go:231-337 | over every run a complete release or commit goes through exactly for the latest returned claim, not yet released; a commit also needs a valid peer and an unexpired code |
| `Pairings.ReleaseUndoesClaim` | core/internal/relay/pairing.go:157-258 | a claim from pending and its release leave the files as they were |
| `Pairings.ConsumedIsFinal` | core/internal/relay/pairing.go:157-337 | a consumed code never changes and every later call is refused |
| `Pairings.ClaimableIff` | core/internal/relay/pairing.go:157-229 | a claim is granted exactly when the code is not consumed, not expired and no lease runs |
| `Pairings.UseIffHalfCommit` | core/internal/relay/pairing.go:260-299 | over every run, the record of a code that is not consumed names a peer exactly when some commit died between rewrite and rename |
| `Pairings.HalfCommitTakenOver` | core/internal/relay/pairing.go:157-299 | after such a commit another claim and a commit for any peer go through if and only if the code has not expired |
| `Bindings.BindingStore.RecoverFile` | core/internal/binding/store.go:371-406 | an expired lease puts the record back unless the code was consumed, cut off anywhere |
| `Bindings.BindingStore.Claim` | core/internal/binding/store.go:176-246 | recovery, move, checks, lease, in that order, cut off anywhere |
| `Bindings.BindingStore.Commit` | core/internal/binding/store.go:248-295 | writes history once and only for the holding claim |
| `Bindings.BindingStore.Release` | core/internal/binding/store.go:297-338 | only the holding claim puts the record back |
| `Bindings.BindingStore.Cancel` | core/internal/binding/store.go:408-463 | only a pending record is cancelled; each refusal in its order |
| `Bindings.NeverConsumedAndCancelled` | core/internal/binding/store.go:176-463 | over every run a code is never both consumed and cancelled, on disk or to its callers, and at most one commit or cancel succeeds |
| `Bindings.OnlyLatestClaimCommits` | core/internal/binding/store.go:248-295 | a commit succeeds only for the latest returned claim |
| `Bindings.LeasesExclude` | core/internal/binding/store.go:176-246 | untouched returned claims never have their time plus lease ahead together |
| `Bindings.LeaseHolds` | core/internal/binding/store.go:176-246 | over every run, until its own holder releases or commits, any claim made before a returned claim's time plus its lease is refused, a recovery does nothing, a cancel is refused, and no file changes |
| `Bindings.HolderDecides` | core/internal/binding/store.go:248-338 | over every run, while its lease runs the holder's complete commit goes through unless the code is consumed already, and its complete release always does |
| `Bindings.ReleaseUndoesClaim` | core/internal/binding/store.go:176-338 | a claim from pending and its release leave the files as they were |
| `Bindings.ClaimableIff` | core/internal/binding/store.go:176-246 | over every run a complete claim is granted exactly when its lease is positive, the record waits uncancelled or its lease has run out unconsumed, and the code has not reached the expiry it was made with |
| `Bindings.HistoryIsFinal` | core/internal/binding/store.go:248-463 | what history says about a code never changes |
| `Bindings.StrandedForever` | core/internal/binding/store.go:371-406 | a record in inflight without a lease is never claimed, committed, released, cancelled or recovered again |
| `Bindings.StrandedBy` | core/internal/binding/store.go:176-463 | exactly which calls strand a code |
| `Crockford.Encode` | core/internal/binding/store.go:574-595 | the bit-buffer loop outputs the five-bit groups of the bit string, zero-padded, as section 6 of RFC 4648 groups them |
| `Crockford.AlphabetIs` | core/internal/binding/store.go:574-595 | the thirty-two symbols are the digits and the capital letters in order, without I, L, O and U |
| `Crockford.Drain` | core/internal/binding/store.go:581-589 | the inner loop, with the buffer below 2^12 throughout |
| `Crockford.ShiftInByte` | core/internal/binding/store.go:578-580 | shifting in a byte never overflows: the buffer holds exactly the unwritten bits |
| `Crockford.NewCode` | core/internal/binding/store.go:541-557 | thirteen bytes always give a code of twenty symbols |
| `Crockford.CodesAgree` | core/internal/binding/store.go:541-557 | two codes agree exactly when their first hundred bits agree |
| `Crockford.CanonicalCode` | core/internal/binding/store.go:606-623 | accepts exactly the printed forms of twenty symbols, in any case and with surrounding space |
| `Crockford.CodeIsCanonical` | core/internal/binding/store.go:606-623 | new codes are read back unchanged |
| `Crockford.CanonicalIsStable` | core/internal/binding/store.go:606-623 | canonical form is stable |
| `HookTrees.HandlerMatches` | core/internal/adapter/claude.go:910-949 | the installed handler is one the lookup recognizes |
| `HookTrees.MergeTwice` | core/internal/adapter/shell_hooks.go:13-63 | a successful merge gives every event the handler, and a second merge changes nothing; `HookTexts.MergeByText` says it in terms of the handlers' text |
| `HookTrees.InstallsIffAgree` | core/internal/adapter/shell_hooks.go:34-61 | on trees without the handler, every spec is installed exactly when the matchers of each event agree |
| `HookTrees.RemovalIsFilter` | core/internal/adapter/shell_hooks.go:123-167 | across groups exactly the matching handlers go and the others stay in order |
| `HookTrees.RemoveFilters` | core/internal/adapter/claude.go:829-883 | listed events keep exactly their non-matching handlers, other events are untouched; what matches is spelled out by `HookTexts.OursIff` |
| `HookTrees.RemoveUndoesMerge` | core/internal/adapter/shell_hooks.go:13-167 | removal after merge is the identity on trees with a hooks object, non-empty event arrays, groups with handler arrays and no match |
| `HookTexts.OursIff` | core/internal/adapter/shell_hooks.go:205-226 | a handler matches exactly when its type is the text `command` and its command the text looked for, with exactly the arguments for Claude; a managed one when the command ends in the suffix and is not the one to keep |
| `HookTexts.InstalledText` | core/internal/adapter/claude.go:910-925 | the handler that is installed is a command of ours with a timeout of five, with arguments only for Claude |
| `HookTexts.RemovalByText` | core/internal/adapter/claude.go:829-883 | removal keeps, in order, exactly the handlers of the listed events that are not ours by their text, and leaves every other event and entry of the file alone |
| `HookTexts.RemovalFailsIff` | core/internal/adapter/shell_hooks.go:100-167 | removal is refused exactly when `hooks` is not an object or a listed event is not an array of objects with handler arrays |
| `HookTexts.MergeByText` | core/internal/adapter/shell_hooks.go:13-63 | a merge keeps every handler that is not ours, in order, and every other entry of the file; if the matchers agree, every event then has a group under its matcher with a handler that runs our command, by its text |
| `HookTexts.MergeFailsIff` | core/internal/adapter/shell_hooks.go:13-63 | a merge is refused exactly for a version other than 1, a `hooks` that is not an object, or an event not served yet whose value has the wrong shape |
| `HookEditors.HasHook` | core/internal/adapter/shell_hooks.go:169-195 | true exactly when some group under the matcher asked for holds a handler whose type, command and arguments are the texts looked for; values of another shape are passed over |
| `HookEditors.RemoveFromEvent` | core/internal/adapter/shell_hooks.go:123-167 | refused exactly for malformed groups; reports a change exactly when a handler matched |
| `HookEditors.RemoveHooks` | core/internal/adapter/claude.go:829-883 | the event loop, with the same reporting over all events |
| `HookEditors.MergeOne` | core/internal/adapter/claude.go:810-825 | one event: skipped when it has the handler, otherwise one group is added |
| `HookEditors.MergeHooks` | core/internal/adapter/shell_hooks.go:13-63 | version, hooks object and events; reports a change exactly when the version or a handler was missing |
| `HookAudit.DuplicateLocators` | core/internal/hookaudit/audit.go:436-448 | the locators that more than one entry has |
| `HookAudit.Classify` | core/internal/hookaudit/audit.go:162-228 | one entry gets the finding that the entries before it determine, unsafe exactly when it is not well placed, has a stated reason or shares its locator |
| `HookAudit.AuditTarget` | core/internal/hookaudit/audit.go:154-249 | the loop's counters give the entry-by-entry classification, and a blocked target gets no actions |
| `HookAudit.ActionsAreSafe` | core/internal/hookaudit/audit.go:229-249 | an action belongs to an unblocked target; a removal names a legacy or duplicate entry and no other entry has its locator |
| `AuditApply.TargetConverges` | core/internal/hookaudit/audit.go:154-249 | carrying out a target's own actions and auditing what is left, in any order, plans nothing; one current hook beside external ones if and only if the target was not blocked and no external entry has the locator of the hook to add, otherwise blocked |
| `AuditApply.AddedOverExternal` | core/internal/hookaudit/audit.go:229-249 | for every desired hook and any other command at its locator: the plan adds the hook there, and the target is blocked without a current hook afterwards |
| `AuditApply.AddedOverOther` | core/internal/hookaudit/audit.go:229-249 | such a hook and such an entry |
| `AuditApply.PlanOfTarget` | core/internal/hookaudit/audit.go:229-258 | the sorted report lists for a target exactly the actions of its own part |
| `AuditReports.Normalize` | core/internal/hookaudit/audit.go:272-345 | accepts exactly the good requests, spelled out to the character, and puts them in a sorted order |
| `AuditReports.Audit` | core/internal/hookaudit/audit.go:130-258 | answers exactly the good requests, with the whole report on their normal order |
| `AuditReports.AcceptsIff` | core/internal/hookaudit/audit.go:272-345 | the audit answers exactly the requests with desired hooks for distinct targets, each well placed to the character, owned hooks with a known proof and a well-formed command of a desired target, and entries with an adapter and an event |
| `HookAudit.WellPlacedIff` | core/internal/hookaudit/audit.go:347-397 | validation lets through exactly the entries with adapter, event, source and a non-empty path, a form of `exec` or `shell`, an executable that starts with a slash, two backslashes or a drive letter, colon and slash, and no NUL, CR or LF anywhere |
| `AuditVerdicts.FindingsAreVerdicts` | core/internal/hookaudit/audit.go:154-228 | every finding but a missing hook is the verdict on an entry of the request: unsafe exactly when the entry is not well placed, has a stated reason or shares its locator; external exactly when safe, not the desired hook and not proven owned |
| `AuditVerdicts.EntriesHaveVerdicts` | core/internal/hookaudit/audit.go:154-228 | every entry of a desired target has its verdict in the report |
| `AuditVerdicts.UnsafeBlocks` | core/internal/hookaudit/audit.go:229-258 | the report is blocked exactly when some desired target has an unsafe entry, and no action names such a target |
| `AuditVerdicts.MissingIff` | core/internal/hookaudit/audit.go:229-258 | a desired hook is reported missing exactly when no safe entry runs it, and is added exactly when its target also has no unsafe entry |
| `AuditReports.Summarize` | core/internal/hookaudit/audit.go:510-525 | counts the findings of each kind |
| `AuditReports.EveryEntryOnce` | core/internal/hookaudit/audit.go:130-258 | the findings speak of every entry of a desired target exactly as often as it occurs, and of nothing else |
| `AuditReports.PlanIsSafe` | core/internal/hookaudit/audit.go:229-258 | no planned action names an external or unsafe entry or a blocked target |
| `AuditApply.AuditConverges` | core/internal/hookaudit/audit.go:130-258 | applying the report's own removals and additions to the request and auditing again: accepted, nothing planned, and each target has exactly one current hook if and only if it was not blocked and its hook to add met no external entry |
| `AuditOrder.ActionsApart` | core/internal/hookaudit/audit.go:607-618 | planned actions with equal sort keys are equal, although the key leaves out the reason |
| `AuditOrder.LocatorIff` | core/internal/hookaudit/audit.go:624-631 | two places without separators share a locator exactly when they name the same adapter, event, file and path |
| `AuditOrder.OneNormalOrder` | core/internal/hookaudit/audit.go:553-605 | a request without separators or empty list elements has one normal order |
| `AuditOrder.AuditIsDeterministic` | core/internal/hookaudit/audit.go:272-345 | permuting such a request changes neither its acceptance nor its report |
| `Sorting.OneOrder` | core/internal/hookaudit/audit.go:553-575 | with keys that tell elements apart, any two sorted rearrangements are equal |
| `ShellWords.TokenizeShell` | core/internal/adapter/hook_audit_common.go:260-329 | the nested loops compute the word-by-word reading, errors included |
| `ShellScan.TokenizerScans` | core/internal/adapter/hook_audit_common.go:260-329 | the tokenizer gives the words of a scan that reads one character at a time, and refuses exactly the texts with an operator or a NUL outside quotes, a substitution in double quotes, or an end inside quotes or after a backslash |
| `ShellWords.CommandReadsBack` | core/internal/adapter/codex.go:664-666 | a quoted executable of any bytes and its plain arguments are tokenized back exactly |
| `ShellWords.WindowsCommandReadsBack` | core/internal/adapter/stable_bridge.go:69-75 | the Windows form is read back exactly when nothing in the path looks like a substitution |
| `Utf8.ValidIff` | core/internal/adapter/hook_audit_kimi.go:185-194 | the byte table of the decoder accepts exactly the texts that spell code points |
| `WhiteSpace.StartIff` | core/internal/adapter/hook_audit_kimi.go:126-183 | trimming takes a leading code point, with all its bytes, exactly when it has the White_Space property of Unicode |
| `WhiteSpace.EndIff` | core/internal/adapter/hook_audit_kimi.go:126-183 | and a trailing one likewise, whatever comes before it |
| `Toml.UnquoteQuoted` | core/internal/adapter/hook_audit_kimi.go:185-194 | unquoting what was quoted refuses a newline and replaces every byte that is not part of valid UTF-8 |
| `Toml.UnquoteBasic` | core/internal/adapter/hook_audit_kimi.go:185-194 | unquoting undoes quoting exactly for valid UTF-8 without a newline |
| `TomlEscapes.QuotedMeans` | core/internal/adapter/hook_audit_kimi.go:185-194 | a quoted value made of plain stretches and escapes of every kind, by letter, byte or code point, is read as what its pieces stand for |
| `TomlEscapes.EscapeIff` | core/internal/adapter/hook_audit_kimi.go:185-194 | a backslash is accepted exactly before a known letter, a quote, a backslash, or digits enough for a byte or a code point |
| `Kimi.FindKimiRegion` | core/internal/adapter/kimi.go:379-415 | the offset loop finds the region defined by the marker lines, or reports it absent or malformed |
| `Kimi.KimiRegionText` | core/internal/adapter/kimi.go:444-455 | the region's lines: digest, one table per event, end marker |
| `Kimi.RegionShape` | core/internal/adapter/kimi.go:379-415 | a region is found only between one begin line and one later end line, with their offsets and digest |
| `Kimi.DigestInjective` | core/internal/adapter/codex.go:659-662 | commands are told apart by their digests |
| `KimiRegions.HasInlineHooksConflict` | core/internal/adapter/kimi.go:419-442 | true exactly when `hooks` is assigned before every table header |
| `KimiLines.ConflictIff` | core/internal/adapter/kimi.go:419-442 | an inline value is in the way exactly when a line before the first table header is the word `hooks`, white space if any, and an equals sign |
| `KimiLines.MarkersAround` | core/internal/adapter/kimi.go:379-415 | begin and end markers count with any blanks around them, so an indented region or one with carriage returns is found |
| `KimiLines.OnlyMarkers` | core/internal/adapter/kimi.go:379-415 | and no other line is a marker |
| `KimiRegions.InstallKimiRegion` | core/internal/adapter/kimi.go:459-481 | keeps, replaces, appends or refuses |
| `KimiRegions.UninstallKimiRegion` | core/internal/adapter/kimi.go:216-226 | removes exactly the region |
| `KimiRegions.AbsentIff` | core/internal/adapter/kimi.go:379-415 | no region is found exactly in a file without marker lines |
| `KimiRegions.InstallTwice` | core/internal/adapter/kimi.go:459-481 | install is idempotent on every file it accepts |
| `KimiRegions.InstallAnother` | core/internal/adapter/kimi.go:459-481 | installing one command and then another equals installing the other on the original |
| `KimiRegions.OutsideIsKept` | core/internal/adapter/kimi.go:459-481 | all bytes outside the region are kept, and the region is found where it was written |
| `KimiRegions.UninstallUndoes` | core/internal/adapter/kimi.go:216-226 | uninstall after install gives the original up to one final newline |
| `KimiAudit.ParseKimiAuditBlocks` | core/internal/adapter/hook_audit_kimi.go:126-183 | the line loop collects the tables with their offsets and strings, or fails on a bad string |
| `KimiAudit.ValidateManagedRegion` | core/internal/adapter/hook_audit_kimi.go:196-240 | accepts exactly three good tables with one command of the recorded digest |
| `KimiLines.AssignmentAround` | core/internal/adapter/hook_audit_kimi.go:126-183 | a table's event and command are taken from an assignment with any spacing, and unquoted |
| `KimiLines.HeadersAround` | core/internal/adapter/hook_audit_kimi.go:126-183 | table headers, comments and other headers are known with any blanks around them |
| `KimiLines.ManagedIff` | core/internal/adapter/hook_audit_kimi.go:67-95 | the tables that prove ownership are exactly those of known events that start between the markers |
| `KimiLines.ManagedProves` | core/internal/adapter/hook_audit_kimi.go:196-240 | an accepted region has one table for each of the three events and no other, and they run one command whose digest it records and whose words are the invocation it proves |
| `KimiAudit.TablesReadBackAfterInstall` | core/internal/adapter/hook_audit_kimi.go:126-183 | an installed file without other tables parses into exactly the region's three tables, all inside it, with the bad bytes of the command replaced |
| `KimiAudit.NoConflictAfterInstall` | core/internal/adapter/kimi.go:419-442 | an installed file has no inline hooks conflict |
| `KimiAudit.AuditReadsBack` | core/internal/adapter/hook_audit_kimi.go:126-240 | splitting, unquoting and tokenizing the region returns the executable and arguments and the region is accepted if and only if they are valid UTF-8; otherwise it is refused |
| `KimiAudit.KimiReadsBack` | core/internal/adapter/stable_bridge.go:21-75 | the same for every invocation that Kimi's resolution accepts, with the exact condition on its executable |
| `KimiAudit.BadPathRefused` | core/internal/adapter/stable_bridge.go:33-53 | an accepted stable bridge path with the byte FF, whose installed region the audit refuses |
| `KimiHooks.AuditHooks` | core/internal/adapter/hook_audit_kimi.go:21-124 | from the text of the file to the report: refused exactly when the file or the request built from it is |
| `KimiHooks.InstalledAuditsClean` | core/internal/adapter/hook_audit_kimi.go:21-124 | install the stable invocation and audit: the file is taken if and only if the bridge path is valid UTF-8, the request if and only if the receipt's command is well formed, and then every event has exactly one current hook and the plan is empty |
| `SemVer.ParsedIsGood` | core/internal/pluginverify/semver.go:15-87 | parsed versions have well-formed identifiers and 64-bit numbers |
| `SemVer.PrintParses` | core/internal/pluginverify/semver.go:15-50 | parsing undoes printing |
| `SemVer.BuildIsIgnored` | core/internal/pluginverify/semver.go:19-23 | build metadata does not change the parsed version |
| `SemVerGrammar.ParseIff` | core/internal/pluginverify/semver.go:15-87 | the parser takes exactly the spellings of versions, with or without build metadata, and reads each as the version it spells |
| `SemVer.NumericByValue` | core/internal/pluginverify/semver.go:115-127 | length-then-text comparison of numeric identifiers is comparison by value, of any length |
| `SemVer.CompareOrder` | core/internal/pluginverify/semver.go:89-148 | antisymmetric, and zero only between equal core and prerelease |
| `SemVer.CompareTransitive` | core/internal/pluginverify/semver.go:89-148 | transitive, strictly when either step is strict |
| `SemVer.CompareIsPrecedence` | core/internal/pluginverify/semver.go:89-148 | on parsed versions the comparison is the precedence of section 11 of Semantic Versioning 2.0.0 |

## Left out

- Capacity accounting of the bounded outbox enqueue, and the statistics and status queries of all stores: easier than the transitions modelled.
- Creating, loading and listing binding codes, and the recovery loop over all their files: one file's recovery is modelled.
- The frame codec, HTTP handlers and clients, process runners, pipes and the command line: input and output only.
- Ed25519, SHA-256, Sigstore, TLS and key storage: foreign cryptography; a signature either verifies or does not.
- JSON encoding, file permissions, syncing, and the quarantine of files that do not decode: records are values, and every stored envelope is taken to be valid.
- Mutual exclusion of the stale-breaking locks: it depends on wall-clock timing and is an assumption, except for receipts.
- Settings validation, policy evaluation and the daylight-saving arithmetic of quiet hours: their decisions are parameters.
- Queue clean-up by age and by count of dead items: any removal of a settled item is allowed in the runs; the selection loops are easy.
- Services.SuccessIsFinal: holds for runs without a manual retry cut in half, and so do the other results over runs of the service; `HalfRetries.HalfRetryLosesSuccess` shows that it fails after one.
- Sends of the service without a processor: its rounds appear only as an Ack or a Nack of the whole item, and its sends are not counted.
- `ProcessOne`'s loading of configuration and settings: a failure appears as a policy or quiet-hours failure of the item.
- Config, peer and host-connector transactions, receipts of installs and backups of configuration files.
- The Codex adapter's merge, which repeats the Claude form with a second command field.
- In-place mutation of the JSON tree: the editor works on values, so what a failed merge leaves in memory is not captured.
- The wording of audit details and errors: they are constructors that hold the same information.
- Letter case outside ASCII: upper-casing of codes and versions is that of ASCII letters.
- Processors.Service.RecordOutcome: a negative attempt count, which would index outside the backoff, is refused instead.
- HookAudit.DuplicateLocators: keeps the set of repeated keys instead of a count per key.
- Pairings.PairingStore.Create: the policy of a pairing is not part of the record.
- Bindings.BindingStore.Claim: the channel, identity and path stored with a code are not part of the record, and a record that cannot be read back is not modelled.
