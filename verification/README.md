# Link moderation: a verified model

linkkilinko is a Telegram bot that moderates links. A moderated message becomes a *canonical action* (the plan that also
silences reposts) and one *outbox row* (the delivery of the response). The bot deletes the source message, or copies its media,
and answers with a notice, a rewritten text or a preview. Everything durable is in SQLite, Telegram has no idempotency keys, and
any step can be the last one before a crash. This project models that bot in Dafny and proves what it keeps.

`dafny verify dfyconfig.toml` checks all of it. The modules, from the core outwards:

- `Tables` has the rows of the two tables and every UPDATE of an outbox row as a value (`Write`, `RowAfter`, `CanonAfter`).
  `Canonical`, `Leases` and `Membership` state what any run of store operations keeps: the four-hour suppression window with
  expiry by renaming, the claims of the outbox, and membership periods.
- `StoreClass` is the store as a class whose fields are the tables; each method runs its statements in place and is proved
  against the transition of the modules above. `Updates` has the updates that reach the members table.
- `Protocol` is the outbox as a step relation: any number of inline paths and retry workers, each statement and each Telegram
  call one step, with stops, failed writes, lost leases and vanishing messages anywhere. `ProtocolSafety` holds for every
  interleaving, and so does `ProtocolAnswers`, which tells from the events alone what every answer of Telegram leads to and where
  payload, end and response of a row come from. `ProtocolReplay` shows that the tables of every protocol run are those of a run of
  the store, so the theorems about windows and leases hold of inline paths and workers. `ProtocolExclusive`, and in
  `ProtocolProgress` the settling of visits, add one assumption on timing (below). `ProtocolLimits` shows that the assumption is
  needed and is not empty.
- `Workflow` is the delivery code itself (`applyTextAction`, `applyMediaAction`, `retryOutbox` and their helpers) as methods with
  the branches and loops of the source. Each port call records a step, and each method is proved to run its actor along the
  step relation until it halts, so the theorems about runs apply to the code.
- `Utf16Text`, `SpanEdit`, `Message`, `Fingerprint` and `Spelling` are the text engine: Telegram offsets in UTF-16 units, slices
  in bytes, splicing from right to left, link-only messages, and the string a fingerprint is taken of; `Separation` says what that
  string tells apart. Text is a sequence of Unicode scalar values with the widths of section 3 of RFC 3629 and section 2.1 of RFC
  2781.
- `WebAddress`, `Resolvers` and `Registry` are the resolver chain: URLs as net/url holds them after parsing, the three production
  resolvers for any answer of the network, and the bounded loop. `Destinations` says where each kind of URL leads.
- `Policy` is the decision about one message as a function of its content, the answers of the network and the lookups of
  canonical actions; `Process` is the workflow that computes it with the loops of the source and carries it out on the store and
  Telegram. `Responses` says when a message is answered and what is posted. `Reposts` ties the answers of the network to the
  resolver chain and decides which reposts are sure to be deleted; `RepostLimits` has one that the code leaves in place. `SampleLibrary` is a URL library that meets every law asked of one.

## Assumptions and findings

- **Timing.** The inline path takes no lease, a new row is due at once (internal/store/store.go:447-449), `MarkSendPending` makes
  it due again (559), and row updates are keyed on the action id alone (616, 642, 683). `ProtocolExclusive.Timely` therefore
  assumes that a worker acts on a row only before its deadline (the lease it read, or the retry time it wrote if that is earlier)
  and that a row is not claimed while its inline path still runs. `ProtocolLimits.InlineAndWorkerBothRespond` is a run without it:
  no stop, no failed write, no passed deadline, and two visible responses; a completed row is reopened. The design document
  mentions only the crash window.
- **Reposts.** The design document wants an identical message with an active action deleted without being resolved again.
  The code looks up the rule of each matched URL in turn, and only then the rule of the preview policy. `Policy.RepostSilence`
  proves that a repost never gets a second action or response. `Reposts.RewriteProtects` proves that the repost of a rewritten
  message is deleted at its first lookup, whatever the network answers: a matched URL always fails or moves, so the rewrite is
  stored under the rule of the first matched URL. But a link-only message whose wrapper leads to a page without a preview is
  stored under the preview policy's rule, and its repost is resolved again: `RepostLimits.RepostStays` is such a repost that
  stays, because its share link cannot be fetched. `Reposts.DeletedWhateverAnswers` gives the exact condition, with the cache
  of known-good domains as the caller finds it: a message is deleted for every network if and only if a lookup hits before
  anything depends on a fetch. Tracking removal and AMP cache unwrapping fetch nothing, so reposts that need only those are
  deleted.
- **Losing a creation race.** The losing branch of `CreateCanonical` looks the winner up again with a fresh clock
  (internal/store/store.go:431). `Canonical.LoserFindsNothing`: it finds nothing exactly when the holder was inside its window
  at the insert and is outside it at the second lookup. Then the message is deleted, but the audit rejects action 0, because
  foreign keys are on (231-233) and `suppressed_reposts` references `canonical_actions` (796); nothing is recorded and the
  workflow returns an error.
- Telegram message ids and requested delays are positive, a refused call took no effect, "not found" answers a delete of an
  absent message, lease tokens do not repeat, fingerprints are hex digests, and the clock does not run backwards in protocol
  runs (the suppression window needs no such assumption).
- From the libraries come only functions with stated laws. `WebAddress.Lawful`: the query codec round trip, and the port cut off
  in the same place in lower case. `WebAddress.ReadsBack`, for the theorems on reposts only: a rendering that parses has the host,
  path and query it was made from. The types beside them: lower case rune by rune that leaves the letters a to z and the
  separators of a URL alone, a
  parsed URL cut at '/', '?' and '#' with its path in escaped form, and an injective way to write a host.
  `SampleLibrary.SampleIsLawful` shows that the laws can be met together. Digests, NFKC, URL validity and normal form, the class
  of punctuation and public address ranges are arbitrary functions.

## Model

| member | source | states |
|---|---|---|
| Tables.Backoff | internal/store/store.go:542-550 | the retry delay is two to the power of the attempts, capped at ten, so 1 to 1024 seconds |
| Tables.FreshClaimReturnsDue | internal/store/store.go:570-584 | a claim under a fresh token selects exactly the unfinished rows that are due and unleased |
| Canonical.ExpiredNameInjective | internal/store/store.go:484-486 | the names of expired fingerprints are injective in fingerprint and id |
| Canonical.ExpiryNeverCollides | internal/store/store.go:482-490 | renaming an expired row meets no other row of the unique index and no key a client can use |
| Canonical.RunsAreConsistent | internal/store/store.go:409-497 | in every run at most one row holds a key and each canonical row has exactly one outbox row of the same chat and topic |
| Canonical.CreationAgreesWithLookup | internal/store/store.go:383-456 | at one instant a creation wins exactly when a lookup finds nothing; a loser changes nothing and the lookup finds the row that beat it |
| Canonical.LoserFindsNothing | internal/store/store.go:427-433 | a loser's second lookup finds nothing exactly when the holder's window ended between insert and lookup |
| Canonical.HolderOnlyRenewed | internal/store/store.go:469-497 | the row of a key is replaced only by a younger one, and only after the window of the older has passed |
| Canonical.CreationsAreFarApart | internal/store/store.go:478-480 | in any run two successful creations for one key are more than 14400 seconds apart, whatever the clock does |
| Canonical.FoundInsideWindow | internal/store/store.go:384-396 | until its window has passed, every lookup of the key finds the created row, whatever else happens to the store |
| Leases.ClaimReturnsClaimable | internal/store/store.go:566-613 | each claim of a run returns exactly the claimable rows, leases them for a minute and leaves the others alone |
| Leases.LeasedSince | internal/store/store.go:578-584 | after a claim the row stays leased for its minute unless its own lease is cleared |
| Leases.ClaimsAreApart | internal/store/store.go:566-633 | two claims that return one row are 60 seconds apart or its lease was cleared in between |
| Membership.RowRemembersOpening | internal/store/store.go:319-359 | after any events the row of a present member holds the time of the event that opened the current period, or none if grandfathered; otherwise no period is open |
| Membership.OpenedUnique | internal/store/store.go:319-359 | a history opens its current period at one event only |
| Membership.JoinTimeFixed | internal/store/store.go:326-333 | within a period the join time and the grandfathering never change |
| Membership.SandboxNeverReturns | pkg/core/moderation/message.go:298-301 | once outside the window, a member is never sandboxed again in that period |
| Membership.RejoinStartsWindow | internal/store/store.go:327-330 | after a rejoin a member is sandboxed for exactly the window from the new join time |
| StoreClass.Store.FindCanonical | internal/store/store.go:383-405 | returns the active, unexpired row of the key if and only if there is one |
| StoreClass.Store.InsertAction | internal/store/store.go:458-467 | inserts the action and its outbox row exactly when no row holds the key |
| StoreClass.Store.RecreateExpired | internal/store/store.go:469-497 | retires the holder and inserts exactly when the holder's window has passed |
| StoreClass.Store.CreateCanonical | internal/store/store.go:407-456 | the transaction as a whole; a loser gets what a lookup at a later clock finds |
| StoreClass.Store.ReplaceOutboxPayload | internal/store/store.go:508-515 | changes the payload of one row and nothing else |
| StoreClass.Store.MarkOutboxCopied | internal/store/store.go:517-526 | records the copy and asks for the deletion, due at once |
| StoreClass.Store.UpdateOutbox | internal/store/store.go:528-540 | one attempt more, due again after the backoff read before |
| StoreClass.Store.MarkSendPending | internal/store/store.go:557-564 | the row waits for its response, due at once |
| StoreClass.Store.OutboxBackoff | internal/store/store.go:542-550 | the doubling loop computes the capped power of two of the attempts; a missing row is an error |
| StoreClass.Store.PendingOutbox | internal/store/store.go:566-613 | leases every claimable row and returns what the token selects, by ascending id |
| StoreClass.Store.SelectClaimed | internal/store/store.go:585-613 | the selection: every unfinished row of the token, by ascending id |
| StoreClass.Store.ReleaseOutboxLease | internal/store/store.go:615-624 | clears lease and token of one row |
| StoreClass.Store.MarkOutboxComplete | internal/store/store.go:635-652 | closes row and canonical action with the same response id |
| StoreClass.Store.MarkOutboxError | internal/store/store.go:654-689 | one attempt more, unleased, due after the requested delay or the backoff |
| StoreClass.Store.UpdateDelayed | internal/store/store.go:676-689 | the error write itself: phase, delay, lease cleared |
| StoreClass.Store.MarkOutboxDead | internal/store/store.go:691-717 | gives up row and canonical action together |
| StoreClass.Store.RecordSuppressed | internal/store/store.go:730-739 | appends the deleted repost with action, message and second to the audit, exactly when the action exists |
| StoreClass.Store.RecordMembership | internal/store/store.go:319-347 | the upsert for active and inactive statuses, for one member only |
| StoreClass.Store.Grandfather | internal/store/store.go:349-359 | inserts a row without join time only where there is none |
| Updates.Intake.HandleMembership | cmd/linkkilinko/main.go:325-334 | a status update of an approved chat adds one event to its member's history, and no other update does |
| Updates.Intake.HandleNewMembers | cmd/linkkilinko/main.go:235-242 | every listed user who was absent becomes a member since the date of the message, one who was present keeps join time and grandfathering, and nobody else's row changes |
| Updates.Intake.JoinStartsWindow | cmd/linkkilinko/main.go:235-242 | a listed user who was absent is sandboxed for exactly the window from that date |
| Updates.Intake.HandleMessage | pkg/action/application.go:180-192 | a first message grandfathers its sender, any other leaves the row |
| Updates.Intake.StoredJoinTime | internal/store/store.go:361-381 | the stored row of a present member holds the opening time of the current period of the updates handled |
| ProtocolSafety.RunSafe | pkg/action/application.go:499-671 | the safety invariant holds in every state of every interleaving |
| ProtocolSafety.PendingSendHasNoSource | internal/store/store.go:508-564 | a row waiting for its response or complete, unless a reply, has lost its source; a media row past planning has its copy recorded |
| ProtocolSafety.NoSendBesideSource | pkg/action/application.go:499-559 | when Telegram accepts a plain Send the source is gone, and what becomes visible is the plan or its fallback |
| ProtocolSafety.DeleteHasPlan | pkg/action/application.go:499-512 | every Delete of an inline path or worker comes after the creation of the action for that message, whose chat, topic, sender, rule and fingerprint the action still has, renamed at most by expiry |
| ProtocolSafety.RowOrigin | internal/store/store.go:407-456 | every stored action stems from a winning creation, with its key, plan and message |
| ProtocolSafety.RecordedMeansSeen | pkg/action/application.go:513-558 | in every interleaving an action that is complete, sent or has a response id has a response Telegram accepted |
| ProtocolSafety.RowsGrow | internal/store/store.go:508-526 | a payload changes at most from a media copy to its fallback, a recorded response is never lost, and a row never changes its message |
| ProtocolAnswers.RefusalWrites | pkg/action/application.go:499-704 | the next write after a refused call: a passing refusal puts the row off in its phase for the delay asked for, a copy refused for good becomes the fallback text, a missing source counts as deleted, any other refusal for good gives the action up |
| ProtocolAnswers.TransientWrites | internal/store/store.go:542-689 | after a transient refusal the row is put off for two to the power of the attempts read, at most 1024 seconds |
| ProtocolAnswers.AcceptanceWrites | pkg/action/application.go:499-558 | the next write after an accepted call: a copy and a response are recorded with Telegram's own id, a deletion makes the response due |
| ProtocolAnswers.RequestWrites | internal/store/store.go:528-550 | the request for a deletion counts one attempt and is due again after the backoff read before |
| ProtocolAnswers.ReleaseWrites | internal/store/store.go:615-624 | a release clears the lease and nothing else |
| ProtocolAnswers.DeleteIsRequested | pkg/action/application.go:499-504 | the inline path deletes only after its row was marked for deletion |
| ProtocolAnswers.SendIsPending | pkg/action/application.go:513-522 | a response is sent only after its row was marked as waiting for it |
| ProtocolAnswers.InlineSettles | pkg/action/application.go:499-559 | an inline path that ends with every write stored has completed its row, given it up, or put it off to a later second |
| ProtocolAnswers.VisitHasSource | pkg/action/application.go:632-646 | a visit deletes nothing for a row without a source |
| ProtocolAnswers.FallbackHasRefusal | pkg/action/application.go:531-548 | a payload that is no longer the planned copy is its uncut fallback text, and Telegram refused a copy for good before |
| ProtocolAnswers.DeadHasRefusal | pkg/action/application.go:695-699 | an action is given up only after a refusal for good of its response or its deletion, never of a copy and never because the source was gone |
| ProtocolAnswers.ResponseWasAnswered | internal/store/store.go:517-526 | every stored response id is one Telegram gave to a copy or response of that action |
| ProtocolAnswers.PostedText | pkg/action/application.go:513-548 | what Telegram accepts goes to the chat and topic of the action and is the plan, or the uncut fallback after a copy refused for good |
| ProtocolReplay.TablesReplayed | internal/store/store.go:409-717 | the tables of every protocol state are those its store operations lead to |
| ProtocolReplay.RunCreationsFarApart | internal/store/store.go:478-480 | in any protocol run two rows for one key are created more than four hours apart |
| ProtocolReplay.RunFindsCreation | internal/store/store.go:384-396 | within the window every later state of the run answers a lookup with the created row |
| ProtocolReplay.RunClaimsApart | internal/store/store.go:566-633 | in any protocol run two visits of a row start a minute apart or its lease was cleared in between |
| ProtocolExclusive.RunHeld | pkg/action/application.go:574-630 | the invariant of one holder per row in every timely run |
| ProtocolExclusive.OneHolder | internal/store/store.go:566-624 | two actors that may still act never share a row, and the holder's copy is current |
| ProtocolExclusive.ResponsesBounded | pkg/action/application.go:513-558 | the visible responses of an action never exceed one plus those whose record was lost |
| ProtocolExclusive.AbandonedHasCause | pkg/action/application.go:513-558 | a record is lost only by a stop, a failed write or a passed deadline of that very actor, and stays lost |
| ProtocolExclusive.ResponsesCounted | pkg/action/application.go:513-558 | the visible responses never exceed one plus the stops, failed writes and passed deadlines that hit the action between acceptance and record, and a complete action has at least one |
| ProtocolExclusive.TablesAgree | internal/store/store.go:635-717 | complete exactly when sent with the same response, dead exactly when dead, otherwise pending |
| ProtocolExclusive.FinishedForever | internal/store/store.go:635-717 | nothing of a finished row but its lease ever changes |
| ProtocolProgress.ActsBounded | pkg/action/application.go:574-671 | in every run no inline path takes more than nine steps and no visit more than eight |
| ProtocolProgress.VisitSettlesRow | pkg/action/application.go:574-704 | an uninterrupted visit ends complete, dead, or unleased with one attempt more, no earlier phase, and due after 1 to 1024 seconds or the requested delay |
| ProtocolProgress.EveryRowComesBack | internal/store/store.go:570-584 | whatever stopped, an unfinished row is claimed exactly when its lease and retry time have passed, and both pass in bounded time |
| ProtocolLimits.InlineAndWorkerBothRespond | internal/store/store.go:447-449 | without the timing assumption: a run with two responses and a reopened completed row |
| ProtocolLimits.ReplyDelivered | pkg/action/application.go:513-528 | the timing assumption is met by a run that delivers one reply |
| ProtocolLimits.WorkerDelivers | pkg/action/application.go:574-630 | and by one whose inline path stops and whose worker claims the row and delivers |
| Workflow.Application.CreateCanonical | pkg/action/application.go:482-492 | the creation is the protocol step, and the winner's inline path is at its start |
| Workflow.Application.ApplyTextAction | pkg/action/application.go:499-529 | runs its inline path along the protocol until it halts, and returns an error only after a failed write |
| Workflow.Application.DeleteSource | pkg/action/application.go:500-512 | its first half goes on exactly when the source is deleted or was gone |
| Workflow.Application.SendResponse | pkg/action/application.go:513-528 | its second half asks for, sends and records the response; an error only after a failed write |
| Workflow.Application.Respond | pkg/action/application.go:516-528 | the response and its record, or the error write |
| Workflow.Application.Answered | pkg/action/application.go:518-522 | one Reply or Send of the payload to the row's chat and topic, one step of the actor |
| Workflow.Application.ApplyMediaAction | pkg/action/application.go:531-559 | the same for media, with the fallback to text |
| Workflow.Application.FinishMedia | pkg/action/application.go:550-558 | a copy made is recorded before its source is deleted |
| Workflow.Application.MarkOutboxError | pkg/action/application.go:695-704 | the write chosen by the error class is the protocol's |
| Workflow.Application.Claim | pkg/action/application.go:575-578 | the claim is the protocol step and starts one visit for each row returned |
| Workflow.Application.DeleteRepost | pkg/action/application.go:561-570 | the delete of a repost changes no row and no actor |
| Workflow.Application.PrepareMediaOutbox | pkg/action/application.go:648-671 | retries the copy; ready exactly when the visit goes on |
| Workflow.Application.PrepareOutboxEntry | pkg/action/application.go:632-646 | deletes the source unless the response is a reply; ready exactly when the visit goes on |
| Workflow.Application.Visit | pkg/action/application.go:579-628 | one turn of the loop runs its visit until it halts |
| Workflow.Application.Conclude | pkg/action/application.go:606-627 | a recorded copy, or else a response of its own, completes the row |
| Workflow.Application.VisitAll | pkg/action/application.go:579-629 | the loop visits the rows in order until an error |
| Workflow.Application.RetryOutbox | pkg/action/application.go:574-630 | claims exactly the unfinished rows that are due and unleased, and visits them; after an error the rest are untouched visits |
| Utf16Text.Utf16Span | pkg/core/moderation/message.go:419-450 | succeeds exactly when the offsets are character boundaries with text between them, and returns the bytes of those characters |
| Utf16Text.Widths | pkg/core/moderation/message.go:445-450 | the widths of a code point in UTF-16 and UTF-8 |
| Utf16Text.SpanFound | pkg/core/moderation/message.go:419-450 | the characters of an entity are unique |
| Utf16Text.Utf16Units | pkg/action/application.go:750-760 | counts the UTF-16 units of a text |
| Utf16Text.ResponseEntities | pkg/action/application.go:734-748 | a mention exists exactly when the named sender occurs, and decodes back to the first occurrence of the name |
| SpanEdit.ReplaceURLSpans | pkg/core/moderation/message.go:61-88 | fails exactly when a used span is invalid or two overlap, and otherwise is the left-to-right splice, in any map order |
| SpanEdit.Replacements | pkg/core/moderation/message.go:66-76 | one replacement for every used destination, in any map order, unless a used span is invalid |
| SpanEdit.SortDescending | pkg/core/moderation/message.go:77 | the same replacements by descending start |
| SpanEdit.PieceReplaced | pkg/core/moderation/message.go:83-86 | in that splice every used span becomes its replacement |
| SpanEdit.GapCopied | pkg/core/moderation/message.go:83-86 | and everything between spans is kept in order |
| SpanEdit.SeparatedIsDisjoint | pkg/core/moderation/message.go:77-82 | after sorting, comparing neighbours rules out every overlap |
| SpanEdit.SpliceDescending | pkg/core/moderation/message.go:83-86 | cutting bytes from the right gives the left-to-right splice of characters |
| Message.ExtractURLs | pkg/core/moderation/message.go:144-185 | returns the accepted URLs of text or caption in entity order |
| Message.UrlsInOrder | pkg/core/moderation/message.go:144-185 | the accepted URLs come in entity order, each the typed link (with https before it if it has no scheme) or the hidden link as it is, and entities left out contribute nothing |
| Message.TextOrCaption | pkg/core/moderation/message.go:144-152 | URLs are read from the text, or from the caption where there is no text |
| Message.ExplicitScheme | pkg/core/moderation/message.go:350-377 | what counts as an explicit scheme |
| Message.SchemelessMeansHttps | pkg/core/moderation/message.go:311-331 | a scheme-less spelling and its explicit HTTPS spelling have the same target |
| Message.RemoveSpans | pkg/core/moderation/message.go:397-417 | returns exactly the characters outside every span, in order, for overlapping spans too |
| Message.AcceptedSpans | pkg/core/moderation/message.go:215-221 | the spans removed are exactly those of the accepted URLs |
| Message.OutsideElements | pkg/core/moderation/message.go:410-416 | a property holds of the rest exactly when it holds of every uncovered character |
| Message.IsLinkOnly | pkg/core/moderation/message.go:192-229 | true exactly for no media, an accepted URL, and only space and punctuation outside accepted spans |
| Fingerprint.NormalizedText | pkg/core/moderation/message.go:247-295 | substitutes a maximal set of spans that do not overlap, then trims and applies NFKC |
| Fingerprint.Substitutions | pkg/core/moderation/message.go:255-270 | one substitution for every URL with a raw spelling and a valid span |
| Fingerprint.KeepSeparated | pkg/core/moderation/message.go:279-289 | the spans kept do not overlap, and each span dropped overlaps a kept one |
| Fingerprint.DisjointNormalizes | pkg/core/moderation/message.go:280-294 | with disjoint spans every URL is substituted |
| Fingerprint.NormalizesAsReplacement | pkg/core/moderation/message.go:274-294 | for valid disjoint spans this is ReplaceURLSpans with the normal forms, trimmed and normalized |
| Fingerprint.Fingerprint | pkg/core/moderation/message.go:231-245 | assembles the string before hashing |
| Spelling.SplicedWoven | pkg/core/moderation/message.go:290-294 | in a text woven from gaps and spellings, the substitution weaves the same gaps with the normal forms |
| Spelling.SpellingDoesNotMatter | pkg/core/moderation/message.go:231-295 | equal gaps (outer whitespace aside), media and normalized targets give equal strings, whatever the spellings |
| Spelling.ExplicitSchemeDoesNotMatter | pkg/core/moderation/message.go:311-331 | in particular when scheme-less URLs are spelled with https |
| Separation.PreHashTells | pkg/core/moderation/message.go:231-245 | equal strings before hashing have equal rules, texts, media fields and normal forms, where unequal fields are single lines |
| Separation.FingerprintTells | pkg/core/moderation/message.go:231-295 | one-line messages that lead to different places, carry different media or fall under different rules never have the same string |
| Separation.ContentDetermines | pkg/core/moderation/message.go:228-233 | sender, chat and topic are not part of the string |
| Separation.NormalFormsDecide | pkg/core/moderation/message.go:276-294 | texts without spelled links that NFKC makes equal have the same string |
| WebAddress.RenderingTells | pkg/core/link/registry.go:145-147 | equal renderings of HTTP URLs have equal scheme, host, path, query and fragment |
| Resolvers.RemoveTracking | pkg/core/link/registry.go:191-210 | deletes exactly the tracking parameters from the query |
| Resolvers.TrackingRemoved | pkg/core/link/registry.go:187-210 | keeps the other keys with their values and all other parts, leaves nothing to match, and is idempotent |
| Resolvers.UnwrappingChanges | pkg/core/link/registry.go:436-470 | an unwrapped AMP cache URL is rendered differently, for its path is shorter |
| Resolvers.CacheUnwraps | pkg/core/link/registry.go:436-466 | an AMP cache URL unwraps to host, path and scheme of the page it has stored, without query and fragment |
| Registry.NewRegistry | pkg/core/link/registry.go:80-107 | accepts exactly the lists with distinct nonempty names and no host with two owners |
| Registry.AmbiguousWhen | pkg/core/link/registry.go:80-107 | a list is refused exactly for a missing name, a name given twice, or a host of two resolvers, whatever its case and final dot |
| Registry.ClaimHosts | pkg/core/link/registry.go:96-104 | enters the hosts of one resolver unless one of them has an owner |
| Registry.FindResolver | pkg/core/link/registry.go:120-126 | the first resolver that matches |
| Registry.Resolve | pkg/core/link/registry.go:109-151 | the outcome is that of the chain of first-matching resolvers on the answers given |
| Registry.OneOutcome | pkg/core/link/registry.go:109-151 | for given answers exactly one outcome has a complete run |
| Registry.RunChain | pkg/core/link/registry.go:119-150 | the loop gives the chain, its outcome and the resolver of every call |
| Registry.Pigeonhole | pkg/core/link/registry.go:119 | more calls than resolvers repeat one |
| Registry.CallsBounded | pkg/core/link/registry.go:109-151 | at most n + 1 calls, and the limit error only after some resolver was called twice |
| Registry.AlwaysChanges | pkg/core/link/registry.go:187-264 | whatever the network answers, a production resolver's destination is HTTP(S) without credentials and is rendered differently, so the exit at line 145 is not reached |
| Registry.ResolvedIsClean | pkg/core/link/registry.go:109-151 | a production run that matched and succeeded ends at a URL no resolver matches, and names the first resolver that matched |
| Destinations.ShareLeads | pkg/core/link/registry.go:224-238 | a share link leads to the public, clean page its redirects end at |
| Destinations.CacheLeads | pkg/core/link/registry.go:243-248 | a cache URL leads to the page it has stored, whatever the network answers |
| Destinations.CanonicalLeads | pkg/core/link/registry.go:249-264 | any other AMP URL leads to its canonical page, or else to where the fetch ended |
| Destinations.FetchFails | pkg/core/link/registry.go:225-255 | a page that cannot be fetched resolves neither a share link nor an AMP URL outside the caches |
| Destinations.TrackingLeads | pkg/core/link/registry.go:191-210 | a URL with tracking parameters leads to itself without them, whatever the network answers |
| Destinations.ResolvedIsPublic | pkg/core/link/registry.go:225-264 | a run that starts at a public URL ends at one |
| Destinations.HostRead | pkg/core/link/registry.go:348-354 | a host is read without port and final dot, in lower case |
| Destinations.AmpSaysAmp | pkg/core/link/registry.go:356-388 | a URL without "amp" in host, path and query is never taken for AMP |
| Destinations.AmpMarks | pkg/core/link/registry.go:356-377 | cache hosts, amp hosts, AMP paths and AMP queries are recognized |
| Destinations.AmpPairMarks | pkg/core/link/registry.go:378-388 | one query pair that asks for AMP is enough, wherever it stands |
| Destinations.TrackingNames | pkg/core/link/registry.go:389-434 | the documented parameters are tracking parameters, meaningful ones are not, and no other names are |
| Policy.RuleOrigin | pkg/action/application.go:231-433 | the rule of a plan is the name of a URL's resolver, or link-preview for a link-only message; the default is never used |
| Policy.RepostSilence | pkg/action/application.go:179-355 | a repost that finds the action of the first run creates and sends nothing, whatever the network answers |
| Policy.RepostSilentInWindow | pkg/action/application.go:451-497 | so identical content of the same sender and topic is silent for four hours, whatever happens to the store meanwhile |
| Policy.SuppressionHasAction | pkg/action/application.go:204-296 | a message is suppressed only by an active action of its own chat, topic, sender and content inside the window, each column named |
| Policy.MissingPreview | pkg/action/application.go:360-433 | a deletion is planned if and only if every probe succeeded or was known good and one is not useful |
| Policy.MissingPreviewHasCause | pkg/action/application.go:284-330 | and carried out only for a link-only message outside the sandbox |
| Policy.NetworkComesLast | pkg/action/application.go:193-254 | the sandbox is decided without the network, and a hit of the first lookup settles a message whatever the network answers |
| Responses.RewriteText | pkg/action/application.go:306-346 | the notice of a rewrite is the message text with exactly the matched URLs that lead elsewhere replaced by where they lead, every other character in place, under the rule of the first of them |
| Responses.RewriteDecides | pkg/action/application.go:306-355 | such a message is rewritten, unless its spans cannot be replaced or a link-only page has no preview |
| Responses.FailureLeavesMessage | pkg/action/application.go:255-267 | a matched URL that cannot be resolved leaves the message alone |
| Responses.PreviewDecides | pkg/action/application.go:284-433 | the link-only policy: a failed probe leaves the message, a page without preview deletes it, and with previews off a reply carries the metadata fetched |
| Responses.SandboxActs | pkg/action/application.go:204-229 | a newcomer's message with a link or media is never left alone |
| Responses.PostsNotice | pkg/action/application.go:451-481 | operation, reply target, fallback and the two length limits of a payload |
| Responses.ContentTells | pkg/core/moderation/message.go:231-233 | the content a fingerprint is taken of has every field that counts |
| Reposts.MatchedMoves | pkg/core/link/registry.go:109-151 | a URL that MatchName matches fails to resolve or resolves to a different URL |
| Reposts.WrapperRule | pkg/action/application.go:331-340 | a rewrite is stored under the rule of the first matched URL |
| Reposts.RewriteProtects | pkg/action/application.go:240-254 | the repost of a rewritten message is suppressed at its first lookup, whatever the network answers |
| Reposts.DownAgrees | pkg/core/link/registry.go:187-264 | a URL resolves without the network to what it resolves to under every network, or not at all |
| Reposts.DeletedWhateverAnswers | pkg/action/application.go:231-330 | with resolutions of the registry, and the known-good cache fixed, a message is suppressed for every network if and only if a lookup hits before anything depends on a fetch |
| RepostLimits.RepostStays | pkg/action/application.go:240-267 | for every library that recognizes the two URLs, a share link without a preview: the repost finds the stored action under its rule at every place, and still stays when the link cannot be fetched |
| Process.Moderator.NewcomerPlan | pkg/core/moderation/message.go:297-309 | sandboxed exactly inside the window with a link or media |
| Process.Moderator.ModerateNewcomer | pkg/action/application.go:204-229 | the newcomer decision on the lookups made |
| Process.Moderator.ModerateLinks | pkg/action/application.go:231-304 | the loop over the URLs and what follows decide as Policy.Links |
| Process.Moderator.HandleResolvedWrappers | pkg/action/application.go:306-355 | decides as Policy.Wrappers, through the real span replacement |
| Process.Moderator.RewrittenRule | pkg/action/application.go:331-340 | the rule of the lowest rewritten index, in any map order |
| Process.Moderator.ResolvedURLs | pkg/action/application.go:439-449 | replaces the targets of the rewritten URLs only |
| Process.Moderator.ModeratePreview | pkg/action/application.go:360-433 | the probes and the preview decision |
| Process.Moderator.SuppressDuplicate | pkg/action/application.go:561-572 | one delete is tried, and recorded exactly when the message is gone and its action exists; it returns no error exactly then or when the bot may not delete; no action and no row changes |
| Process.Moderator.ApplyPlan | pkg/action/application.go:451-497 | stores the plan and runs its inline path, or suppresses, or does nothing, and when it returns an error |
| Process.Moderator.Carry | pkg/action/application.go:482-497 | a winner's row is created by one event of the history and its inline path runs until it halts; a loser suppresses its message for the winner it finds |
| Process.Moderator.Process | pkg/action/application.go:176-197 | the outcome is the one Policy.Judge gives for the lookups made, and only a plan or a suppression has an effect |
| Process.Moderator.ProcessRepost | pkg/action/application.go:176-197 | on a repost inside the window, whatever happened since, nothing is created, sent, replied or copied and no row changes |
| Process.Moderator.ProcessTwice | pkg/action/application.go:176-197 | two calls in a row on equal content: once the first has won its creation, the second creates nothing within four hours and changes no row |

## Left out

- Telegram transport, long polling, HTTP fetching, dialing and address tables, configuration, notice catalogs, health server:
  I/O. Only the classes of client errors remain.
- SQLite: a statement or transaction is one step on the tables. Migrations are left out, and database errors too except as
  failed writes in the protocol.
- SHA-256, NFKC, JSON, URL parsing and validation, regular expressions and HTML metadata extraction: functions of their input.
  The string before hashing is not claimed to be injective, for its fields are joined by newlines; `Separation` says where it is.
- Invalid UTF-8: Telegram does not send it. Nor a text with a caption, which only the theorems of Spelling exclude.
- Owner bootstrap, chat approval, update claiming, the storage of known-good domains, logging and traces: easy or without effect.
  The known-good answer for each URL is an argument.
- MarkResponseSent and AttachSourceMessage: not called by the workflow.
- Worker visits of one round are separate actors in the protocol, which allows every order of them and a stop in between.
- Process.Moderator.Process: reads one state of the tables for all lookups of a message, because other writers between two
  lookups of one call are covered by Policy.RepostSilence for arbitrary lookups instead.
- Process.Moderator.ModerateLinks: returns the decision that the source carries out at the leaf, and Process carries it out.
- ProtocolExclusive.ResponsesBounded: needs the timing assumption, because the source does not guard its updates by state or
  token (see Assumptions and findings).
- StoreClass.Store.RecordSuppressed: leaves out the delete state, which is always the same word.
