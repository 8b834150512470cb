# fast-kit: verified protocols

fast-kit is a FastAPI backend. This project models its four stateful protocols in Dafny and proves what
they guarantee over every run: the durable event pipeline (transactional outbox, relay, JetStream work queue,
consumers, dead-letter stream, dead-letter table, operator replay), the RBAC permission cache, the protocols on
the expiring key-value store (rate limits, token rotation, one-time codes), and the name arithmetic of subjects
and consumers. `dafny verify dfyconfig.toml` checks the whole project.

## How the model is built

Each protocol is a labelled step machine (`Runs.dfy`): one step is what happens between two awaits, and the
environment may fail anywhere. A publish, an ack or a commit may raise before or after the server applied it;
tasks, relays and writers may crash; any number of them interleave. `Reaches` is existence of a run; `Reachable`,
`Attainable`, `Attained` and `Running` are the states a run from the empty start leads to.

- Event pipeline. `Wire.dfy` is the encoding: a JSON text is a value plus one of its spellings, so byte identity
  and equality after decoding stay apart. `Outbox.dfy`, `OutboxSafety.dfy` and `OutboxColumns.dfy` are the producer
  side; `Delivery.dfy`, `DeliverySafety.dfy`, `DeliveryBounds.dfy`, `Exclusivity.dfy`, `Stranded.dfy`,
  `DeadLetters.dfy` and `Failures.dfy` the consumer side; `System.dfy` both together. `Pending.dfy`, `Relay.dfy`,
  `Draining.dfy` and `Duplicates.dfy` are the relay; `Consumer.dfy`, `ConsumerRefinement.dfy`, `DlqConsumer.dfy` and `Backoff.dfy` the two
  consumers; `Replay.dfy` and `EventOperations.dfy` the operator endpoints, `FullLoop.dfy` the loop from staging to
  replay; `Subjects.dfy` the names.
- Ordering. `JobStates.dfy`, `Ordering.dfy`, `OrderingLog.dfy`.
- RBAC. `RbacTables.dfy`, `PermissionCache.dfy`, `Rbac.dfy`.
- Timed store. `TimedStore.dfy`, `RateLimit.dfy`, `Tokens.dfy`, `TokenRuns.dfy`, `Otp.dfy`, `OtpRuns.dfy`.

Code that works by changing things is a class whose methods follow it await by await. The methods of the event bus,
of the durable unit of work, of the operator endpoints and of the RBAC use cases act on the machine's own state, let
others take any steps at every await, and are proved to be runs of that machine, so the theorems about runs apply to
them. The other classes are proved against functions about which the lemmas speak.

Ids are positions in sequences. The broker redelivers an unacked message at most `maxDeliver` times, an applied ack
takes a message out of the work queue, and dead letters are kept
(app/core/nats_bus.py:151-168, 397-405, 520-529).

## What turned out false, and what holds instead

- Handled and dead-lettered are not exclusive. They are when none of four lapses happens to the message
  (`Exclusivity.HandledOrCopied`), and each lapse alone breaks it (`Exclusivity.HandledAndCopiedHappens`).
- Not losing a message is not delivering it. A message can leave the work queue exactly as long as some task can still
  ack or copy it or a delivery of loadable bytes is left (`Stranded.ReleasedOrStranded`); every message can get past
  that (`Stranded.StrandingHappens`).
- A dead letter reaches the table exactly when its class path is a string and fits, and its subject fits
  (`DeadLetters.DeadLetterCanBeStored`, `DeadLetters.NumberIsNeverStored`); those of relayed rows always do
  (`System.RelayedDeadLettersAreStorable`).
- Decoding does not always end in an event or `EventSerializationError`: bytes on which the JSON loader exceeds a limit
  end the consumer loop (`Wire.DecodeExactly`, `ConsumerRefinement.ConsumerRefinesRule`).
- A relay that fails does fail the request if its rollback raises (`Relay.DurableSession.DurableUnitOfWork`).
- Publication is at least once. It is at most once for a row on which none of three lapses happens
  (`Duplicates.PublishedOnce`), and each lapse alone breaks it (`Duplicates.RowsPublishedTwice`).
- The job log is a chain for serial transactions; with overlapping ones exactly for the jobs no commit found in another
  status than its transaction had read (`OrderingLog.OverlapsLogExactly`, `OrderingLog.OverlapCanBreakTheLog`).
- A cached permission set for which no deletion is owed, as with no writer left, is stale exactly when commits between
  its query and its fill changed what its user may do (`PermissionCache.ServedSetsAreCoherent`), which every commit that
  does so can cause (`PermissionCache.RacingFillServesStale`); permission decisions are right exactly otherwise
  (`Rbac.CacheAgreesExactly`).
- A revoked token leaves the list less than one second early, unless its remaining life was whole or under a second
  (`TokenRuns.RevocationTail`, `TokenRuns.SecondRefreshHappens`). A revoked refresh token can be refreshed again exactly
  while it verifies and either its revocation ends before it does or more than a second of its life is left, in which
  a logout can shorten the revocation (`TokenRuns.RefreshedAgainExactly`).
- A one-time code is accepted after its expiry for as long as it took to reach the cache, and a superseded one exactly
  when its entry is still cached and none that superseded it reached the cache (`OtpRuns.CodesAreSingleUse`,
  `OtpRuns.SupersededIsAccepted`, `OtpRuns.FailedCacheAcceptsSuperseded`).
- Durable consumer names collide exactly when one module name absorbs part of the other's subject at a `_`
  (`Subjects.DurableNamesCollide`).

Where the code and its documentation differ, the model follows the code. `RateLimiter` calls itself a sliding-window
approximation (app/core/rate_limit.py:16-18); it counts in fixed lifetimes. `publish_raw` says replay re-sends events
exactly as published (app/core/nats_bus.py:220-226); the payload comes back from a JSONB column, so only its decoded
content is the same. `durable_unit_of_work` leaves rows for a background retry (app/core/database.py:51-52); the retry
is the next durable commit. `LogoutUseCase` says both tokens are required (app/modules/auth/use_cases/logout.py:18);
the access token is optional. The DLQ prefix is called disjoint from the events prefix
(app/core/nats_bus.py:70-72); nothing enforces it.

## Model

| member | source | states |
|---|---|---|
| `Wire.DecodeExactly` | app/core/event_serializer.py:31-112 | decoding yields an event exactly for a JSON object whose class path is a dotted string that resolves and whose payload keys the class accepts; an error that no consumer catches exactly for bytes on which the JSON loader exceeds a limit; `EventSerializationError` exactly for all others |
| `Wire.EventRoundTrip` | app/core/event_serializer.py:25-112 | an encoded event decodes to itself exactly when its class path resolves to its own class with its fields and every field is JSON-native; JSON-native events always encode |
| `Wire.DumpLoadsBack` | app/core/event_serializer.py:25-29 | loading what was dumped, with nested tuples, sets and records, gives the value back exactly for JSON-native values |
| `Wire.LoadDumpsBack` | app/core/event_serializer.py:25-45 | every JSON value survives loading and dumping, with either encoder |
| `Wire.FieldsLoadBack` | app/core/event_serializer.py:67-70 | a payload dict loads back as itself exactly when its fields are JSON-native, which also always dump |
| `Wire.SplitLastUnique` | app/core/event_serializer.py:87 | splitting at the last dot takes a path apart where it was joined |
| `Wire.EnvelopeReadsBack` | app/core/event_serializer.py:25-58 | what `to_json` writes `from_json` reads with the same class path and the loaded payload; it fails only for a payload the encoder rejects |
| `Subjects.SubjectMappingsInverse` | app/core/nats_bus.py:67-81 | origin-of-DLQ and DLQ-of-origin undo each other exactly on subjects with the respective prefix |
| `Subjects.DlqStaysOutOfEvents` | app/core/nats_bus.py:67-76 | some events subject has a DLQ subject the events stream captures, exactly when one prefix is nested in the other at a dot |
| `Subjects.CamelToSnake` | app/core/nats_bus.py:96-102 | the loop computes `Snake`, of which the next rows speak |
| `Subjects.SnakeInverts` | app/core/nats_bus.py:96-102 | camel-to-snake is undone by an explicit inverse on underscore-free PascalCase names, so it is injective there |
| `Subjects.StemsShared` | app/core/nats_bus.py:45-56 | two class names share the last part of a subject exactly when they are equal or one is the other plus `Event` |
| `Subjects.ModuleNameOfApp` | app/core/nats_bus.py:84-93 | an event module `app.modules.X.domain.events` maps to `X` |
| `Subjects.SubjectOfClass` | app/core/nats_bus.py:45-102 | a class of the events module of application module `x` is published on prefix, `x`, and the words of its name in lower case joined by underscores, without a last word `Event` |
| `Subjects.SubjectsShared` | app/core/nats_bus.py:45-93 | two event classes, wherever their modules lie, share a subject exactly when `_module_name_for_event` gives one name for both modules and the class names are equal or one is the other plus `Event`; every such subject is captured by the events stream |
| `Subjects.ModuleNameIs` | app/core/nats_bus.py:84-93 | for every module path: the name is the first part below `app.modules`, or `unknown` if there is none or an `events` or `domain` ending swallows it |
| `Subjects.FilesOfOneModuleCollide` | app/core/nats_bus.py:84-93 | all modules of one application module with at least two parts below its name get its name, so classes of one name in them share a subject |
| `Subjects.DurableNamesCollide` | app/core/nats_bus.py:645-647 | durable names of two subjects collide exactly when the subjects are equal or one absorbs part of the other at an underscore of its module name; never for different subjects of underscore-free modules |
| `DeliverySafety.NoEventLost` | app/core/nats_bus.py:424-504 | in every reachable state each accepted message is in the work queue, or all its handlers completed in one delivery, or one of its own deliveries stored its bytes unchanged in the dead-letter stream under its origin subject |
| `DeliverySafety.StepKeepsInv` | app/core/nats_bus.py:424-628 | every step of consumers, dead-letter writers and broker keeps the pipeline invariant: a message leaves the queue only when handled or copied, a copy holds its message and the right count, a row is built from its copy, an acked copy has its row |
| `DeliverySafety.ReachableGrows` | app/core/nats_bus.py:424-628 | over any run accepted messages, dead letters, completed handlers and resolutions are never taken back, and a released message is never retained again |
| `DeliverySafety.DeadRowsAreFaithful` | app/core/nats_bus.py:546-585 | every dead-letter row comes from an accepted, copied message and records its subject, its decoded content or else its raw bytes under `<unparsable>`, and the limit as count for a decodable one |
| `DeliverySafety.AckedDeadLettersAreStored` | app/core/nats_bus.py:546-594 | an acked dead letter is in the table; one that does not fit its columns is never acked |
| `DeadLetters.DeadLetterCanBeStored` | app/core/nats_bus.py:546-628 | in every reachable state an unacked dead letter with a delivery left can still be put in the table and acked exactly when its class path is a string of at most 255 characters, and its subject has at most 255 |
| `DeadLetters.NumberIsNeverStored` | app/core/event_serializer.py:50-58 | for every consumed subject and number: a message whose class path is that number is dead-lettered and can never reach the table |
| `Exclusivity.HandledOrCopied` | app/core/nats_bus.py:424-504 | for any number of handlers, over every run in which four things do not happen to a message (a delivery that overlaps another of its deliveries, an ack lost or raising, a crash between the last handler and the ack, a redelivery after a dead letter was stored without a readable delivery number), it is never both handled and dead-lettered, whatever happens to other messages |
| `Exclusivity.HandledAndCopiedHappens` | app/core/nats_bus.py:433-448 | none of the four conditions can be dropped: for every decodable message with a consumer each lapse alone leads to a state in which the message is both; with M of at least two, or for a failing ack any M |
| `Stranded.StrandedStays` | app/core/nats_bus.py:424-460 | a retained message with no useful delivery left (its deliveries used up, no consumer, or bytes the JSON loader gives up on) and only hopeless tasks (ended, about to nak, failed below the limit, or about to load such bytes) stays in the queue over every run |
| `Stranded.ReleasedOrStranded` | app/core/nats_bus.py:424-504 | in every reachable state a retained message can still leave the queue exactly when it is not stranded so: while a task can still ack or copy it, or a delivery of loadable bytes to a consumer is left |
| `Stranded.StrandingHappens` | app/core/nats_bus.py:441-448 | it happens to every message with a consumer, which is then neither handled nor dead-lettered |
| `DeliveryBounds.BoundedDuplication` | app/core/nats_bus.py:433-504 | one message leads to at most M starts of each handler, completed or cut short, and at most M dead-letter copies |
| `DeliveryBounds.BoundedRows` | app/core/nats_bus.py:546-628 | one dead letter leads to at most D table rows |
| `DeliveryBounds.RunsArePaidFor` | app/core/nats_bus.py:424-628 | by a measure every step but a publication or resolution decreases, the steps of any run, and its deliveries, are bounded by what its messages allow; so runs without new publications stop |
| `DeliveryBounds.DeliveriesBounded` | app/core/nats_bus.py:424-628 | a run with n messages makes at most n(M + MD) deliveries |
| `Consumer.NatsConsumer.HandleMessage` | app/core/nats_bus.py:424-504 | whatever others do at each await, the call is a run of the pipeline that ends its delivery, and its verdict (handlers run, copy stored, message released, exception escaped) is true of the streams and fixed in every case by what the awaits came to, the copy field by field: subject, bytes, error, origin and count; if nothing else happens, nothing else in the pipeline changes |
| `Consumer.HandleDecides` | app/core/nats_bus.py:424-504 | the cases: a copy is stored exactly when the message loads, does not decode or fails at its last delivery or one of unknown number, and the publish is stored; it is released exactly by an applied ack after all handlers or after such a publish that returned; its error is that of the handler or ack, or of the parser |
| `Failures.CausesReachTheTable` | app/core/nats_bus.py:437-484 | over every run: a task raises at most one error, the dead letter it stores carries exactly that error, or the parser's if it raised none, and the table row says the same, or a fixed text for an empty one |
| `Failures.RowSays` | app/core/nats_bus.py:546-585 | the row of any dead letter, also without headers: origin, error and count header, or else the subject mapped back, `Exceeded max delivery attempts` and the limit; `<unparsable>` and the raw bytes for what does not parse |
| `Consumer.NatsConsumer.RunHandlers` | app/core/nats_bus.py:433-439 | handlers and ack in one try block: a failing ack counts as a failed delivery after all handlers completed |
| `Consumer.NatsConsumer.CallHandlers` | app/core/nats_bus.py:433-436 | handlers run in order up to the first that raises |
| `Consumer.NatsConsumer.HandleDeliveryFailure` | app/core/nats_bus.py:441-460 | nak below the limit, dead-letter at it or without metadata |
| `Consumer.NatsConsumer.DeadLetterMessage` | app/core/nats_bus.py:471-504 | the original is acked only after the copy was stored; offline or after a failed publish it is naked |
| `ConsumerRefinement.ConsumerRefinesRule` | app/core/nats_bus.py:424-469 | with working broker calls, for every sequence of handler outcomes: a decodable message is acked at the first all-success delivery without a copy, or else gets exactly one copy, with count M, and at each delivery just the handlers before the first failing one complete; an undecodable one gets one copy at its first delivery and no handler runs; one the JSON loader gives up on stays in the queue |
| `ConsumerRefinement.ConsumerRunsRule` | app/core/nats_bus.py:424-504 | that outcome is one of a run of the pipeline: the streams themselves end up with those deliveries, that release and exactly those copies, and so many handlers completed in their tasks |
| `DlqConsumer.NatsDlqConsumer.PersistDlqMessage` | app/core/nats_bus.py:546-628 | whatever others do meanwhile, the call is a run of the pipeline that puts the dead letter's row in the table exactly when its insert took effect; after a write that did not raise the dead letter is acked if the ack applies, else redelivery is asked for after the backoff delay, or it gives up; a rollback that raises, or a session that raises on closing after its commit, leaves it before any ack or nak; if nothing else happens, only the row and that ack change |
| `DlqConsumer.NatsDlqConsumer.AddDeadLetter` | app/core/nats_bus.py:576-588 | insert and commit, which may raise after they took effect |
| `DlqConsumer.NatsDlqConsumer.RetryOrAbandon` | app/core/nats_bus.py:596-628 | retry with delay below the limit, give up at it |
| `Backoff.DelaysGrow` | app/core/nats_bus.py:602-607 | delays are non-decreasing and at most the cap |
| `Backoff.ExactTotal` | app/core/nats_bus.py:602-607 | the exact total delay: geometric up to the first capped delivery, the cap from there on |
| `Backoff.TotalBounded` | app/core/nats_bus.py:602-621 | before giving up, at most base(2^(D-1) - 1) and at most (D-1)cap; the first is reached exactly when the last delay is not cut |
| `Outbox.RowBytesAreToJson` | app/core/nats_bus.py:267-269 | the bytes relayed for a row are `to_json` of its class path and payload and read back as those |
| `OutboxSafety.MoveKeepsSafe` | app/core/database.py:42-70 | every move of units and relays, with failing commits and crashes, keeps outbox safety |
| `OutboxSafety.OutboxIsSafe` | app/core/nats_bus.py:232-295 | in every attainable state: a unit's outbox rows are committed exactly when its business writes are; relayed messages carry committed rows; a published row was accepted by the stream and has an audit row with its class path and payload; every audit row is for an accepted message; each audit row has class path and payload of a committed row and is named after its class |
| `OutboxColumns.AuditRowsNameTheirClass` | app/core/nats_bus.py:287-294 | in every attainable state the event type of each audit row is what follows the last dot of its class path |
| `OutboxSafety.RunsExtend` | app/modules/event_outbox/infrastructure/persistence/repository.py:46-59 | over any run rows are never rewritten and `published_at` never reverts; stream and audit log only grow |
| `Pending.OldestSelects` | app/modules/event_outbox/infrastructure/persistence/repository.py:35-44 | the pending query returns at most the limit, each row once, oldest first, and leaves out nothing older |
| `Pending.PendingSorted` | app/modules/event_outbox/infrastructure/persistence/repository.py:38-43 | the pending rows come once each, in order of age |
| `Relay.DurableSession.RelayOutboxRow` | app/core/nats_bus.py:262-295 | one row: published and marked with its audit row, or counted after a failed publish, or skipped offline; a flush that raises ends the relay; the audit row field by field, the count one above the loaded one |
| `Relay.DurableSession.SettleRow` | app/core/nats_bus.py:270-292 | after the publish: mark and audit, or count the attempt, or end the relay when a flush raises |
| `Relay.DurableSession.RelayPendingOutbox` | app/core/nats_bus.py:249-260 | the row loop, under interference: what it buffers is the fold of the rows' fates, and undisturbed what it publishes is too |
| `Relay.DurableSession.RelayAndCommit` | app/core/database.py:59-65 | the relay fails exactly when a flush raises for one of its rows or its commit raises; exactly when it returned and its commit took effect its writes are added to the database it then finds; otherwise nothing is, so without other moves the database is as before; undisturbed it marks and audits exactly the selected rows |
| `Relay.CommittedFares` | app/core/nats_bus.py:259-294 | those writes, for every outcome of the publishes: published are exactly the selected rows whose publish on a connected bus returned, each with its audit row in order; the ones whose publish raised have one attempt more than when they were loaded; all else is unchanged |
| `Relay.DurableSession.CommitUnit` | app/core/database.py:54-56 | the unit closes if its commit raises, whether or not it was applied; a smooth commit adds exactly its writes and rows |
| `Relay.DurableSession.StartRelaySession` | app/core/nats_bus.py:255-257 | the new session loads the rows and selects the oldest pending ones |
| `Relay.DurableSession.DurableUnitOfWork` | app/core/database.py:42-70 | the request fails exactly when its commit raises, or closing a session does, or the relay fails and its rollback raises too; other relay failures are swallowed; when nothing fails the unit's writes and rows are committed and the oldest pending rows published, marked and audited |
| `Relay.SmoothRelay` | app/core/nats_bus.py:249-295 | a relay in which nothing fails publishes, marks and audits every selected row, in order |
| `Draining.RoundDrains` | app/modules/event_outbox/infrastructure/persistence/repository.py:35-50 | a round selects min(limit, backlog) rows and takes exactly those off the backlog |
| `Draining.RoundPublishesOldest` | app/core/nats_bus.py:255-260 | the stream gains min(100, backlog) messages, one per row, in order of age, and nothing left pending is older |
| `Draining.SerialCommitsDrain` | app/core/database.py:56-62 | k serial commits staging s events each leave max(0, n - (100 - s)k) of a backlog n; empty exactly from n/(100 - s) rounded up on |
| `Duplicates.PublishedOnce` | app/core/nats_bus.py:249-295 | over every run in which three things do not happen to a row (a relay starts with it while another holds it, its publish is stored and raises, a relay ends after a publish of it returned without committing the mark), the stream holds at most one message published for it, whatever happens to other rows |
| `Duplicates.RowsPublishedTwice` | app/modules/event_outbox/infrastructure/persistence/repository.py:35-59 | none of the three conditions can be dropped: each one alone publishes the row of any staged event twice |
| `System.EventsReachTheirEnd` | app/core/nats_bus.py:232-504 | end to end: events are in the outbox exactly when the business writes are committed, and each is pending or carried by a message that is retained, handled or dead-lettered |
| `System.RelaysAreNeverRejected` | app/core/nats_bus.py:151-168 | in every running state the events stream captures whatever a relay publishes |
| `System.RelayedDeadLettersAreStorable` | app/core/nats_bus.py:546-585 | in every running state a dead letter of a relayed row fits the dead-letter table |
| `OutboxColumns.AttainableFit` | app/modules/event_outbox/infrastructure/persistence/models.py:23-25 | in every attainable state all rows, staged, committed or loaded, fit their columns and go to subjects the events stream captures |
| `OutboxColumns.StageSays` | app/core/nats_bus.py:232-247 | `publish_durable` adds exactly one pending row with class path, payload and subject of its event to its unit; nothing for what is not a dataclass; an event whose payload is not JSON or whose strings exceed 255 characters ends the unit |
| `OutboxColumns.UnitMovesSay` | app/core/database.py:53-62 | a unit collects its business writes in order, its commit takes effect or raises, it starts its relay only after a commit that returned, and abandoned it does nothing more |
| `Replay.StagedRowsRelay` | app/core/nats_bus.py:232-247 | `publish_durable` stages an event exactly when the JSONB encoder accepts its payload, as it does a JSON-native one, and its class path and subject fit 255 characters; what is relayed for the row carries that event |
| `Replay.RelayedEventsDecode` | app/core/nats_bus.py:262-269 | a relayed event decodes to itself exactly when it is registered under its own class path and JSON-native |
| `Replay.DeadLettersReplay` | app/modules/event_outbox/api/router.py:166-195 | for every dead-letter row of every reachable state: replay republishes exactly when its message can be decoded, the replayed message decodes to the same event, and goes to the row's subject exactly when that is the subject of the event's class |
| `Replay.UnparsableIsRefused` | app/modules/event_outbox/api/router.py:177-181 | a row stored as `<unparsable>` is never republished |
| `Replay.FullLoop` | app/modules/event_outbox/api/router.py:166-195 | a registered JSON-native event staged, relayed, dead-lettered and persisted is replayed as the same event on its original subject, which its row names together with the count it failed at |
| `OutboxColumns.AttainableStaged` | app/core/nats_bus.py:232-247 | every outbox row of every attainable state was staged by `publish_durable` for some event |
| `FullLoop.EventsComeBack` | app/modules/event_outbox/api/router.py:166-195 | in every running state of producers and consumers together: every dead-letter row of a relayed message goes back to the committed outbox row the relay published, which was staged for an event, and if that event is registered and JSON-native, replaying the dead letter sends it out again on its original subject |
| `Replay.AuditRowsReplay` | app/modules/event_outbox/api/router.py:88-112 | replaying an audit row republishes exactly when the message relayed for its outbox row can be decoded, and then the same event |
| `EventOperations.EventRouter.ReplayEvent` | app/modules/event_outbox/api/router.py:88-112 | 404, 422 or republication, with the exact new stream; nothing changes on a refusal |
| `EventOperations.EventRouter.PublishRaw` | app/core/nats_bus.py:220-230 | an accepted publish appends exactly its message; it fails offline or when the publish raises |
| `EventOperations.EventRouter.MarkResolved` | app/modules/event_outbox/infrastructure/persistence/repository.py:149-157 | a committed resolution sets the row and leaves the stream alone |
| `EventOperations.EventRouter.ReplayDeadLetterEvent` | app/modules/event_outbox/api/router.py:166-195 | a run of the pipeline; success means the event was accepted by the stream before its row was resolved; refusals change nothing; offline or after a publish that raised the table is as it was; undisturbed, the stream gains the event exactly if the publish was stored, the row is resolved exactly if the publish returned and the commit took effect, and nothing else changes |
| `EventOperations.EventRouter.ResolveDeadLetterEvent` | app/modules/event_outbox/api/router.py:198-212 | resolves exactly the named row, 404 if there is none |
| `JobStates.Job.TransitionTo` | app/modules/ordering/domain/state_machine.py:17-44 | a job can be canceled exactly in PENDING, RECEIVED_ARTWORK, PREPRESS, BATCHED and HOLD, held exactly in the first four, and otherwise goes only to the next stage, or from HOLD to PENDING; a forbidden transition changes nothing; an allowed one sets the status, editable exactly in PENDING and HOLD |
| `JobStates.RunsBoundedByHolds` | app/modules/ordering/domain/state_machine.py:17-25 | a job put on hold h times makes at most 5h + 4 transitions |
| `JobStates.BoundIsReached` | app/modules/ordering/domain/state_machine.py:17-25 | for every h some run makes exactly that many |
| `JobStates.TerminalStatusesEnd` | app/modules/ordering/domain/state_machine.py:17-25 | nothing follows CANCELED or COMPLETE; no unknown status is reached |
| `JobStates.CompletionEndsUnbroken` | app/modules/ordering/domain/state_machine.py:17-25 | a completed run ends PENDING, RECEIVED_ARTWORK, PREPRESS, BATCHED, COMPLETE |
| `Ordering.OrderingDesk.CreateOrder` | app/modules/ordering/use_cases/create_order.py:35-67 | succeeds exactly when number and job ids have at most 32 characters, are new, and the ids differ; then order, jobs (PENDING and editable, in order) and one event listing them are committed together; else nothing is |
| `Ordering.CreateExactly` | app/modules/ordering/infrastructure/persistence/models.py:13-31 | inserting the order and its jobs one by one fails exactly when a column or a uniqueness constraint is violated, also among the new rows themselves |
| `Ordering.OrderingDesk.TransitionJobStatus` | app/modules/ordering/use_cases/transition_job_status.py:32-58 | unknown job, transition the rules forbid, failed commit, or the new status and flag with one event giving both statuses, actor and reason (or a text naming the statuses), all or nothing |
| `Ordering.OrderingEventsAreNative` | app/modules/ordering/domain/events.py:6-25 | every ordering event is JSON-native, so the JSONB encoder accepts it and the wire round trip applies |
| `Ordering.OrderingEventsSay` | app/modules/ordering/domain/events.py:6-25 | what a consumer finds under which key of an ordering event; the status texts name the statuses |
| `OrderingLog.OutboxLogsJobs` | app/modules/ordering/use_cases/transition_job_status.py:32-58 | over every serial run with rollbacks: each job's logged changes are a chain of allowed steps from PENDING to its committed status, at most 5h + 4 of them; editable exactly in PENDING and HOLD; each order logged once with exactly its jobs |
| `OrderingLog.OverlapsLogExactly` | app/modules/ordering/use_cases/transition_job_status.py:32-58 | over every run of overlapping transitions and creations: a job's logged changes are a chain of allowed steps to its committed status exactly when no commit found the job in another status than its transaction had read; its flag is right exactly unless its last commit kept a flag other than the one it had read, which takes such a commit; orders are logged once in any case |
| `OrderingLog.SerialTransition` | app/modules/ordering/infrastructure/persistence/repository.py:69-76 | a transition that reads and commits with nothing between does what the serial one does |
| `OrderingLog.OverlapCanBreakTheLog` | app/modules/ordering/infrastructure/persistence/repository.py:69-76 | a run of two overlapping transitions that leave PENDING twice and a held job whose file is not editable |
| `RbacTables.QueriesAgree` | app/modules/rbac/infrastructure/persistence/repository.py:144-174 | in every database state a name is among the listed permissions exactly when the join count is positive |
| `RbacTables.NamesAreEffective` | app/modules/rbac/infrastructure/persistence/repository.py:144-157 | the listed names are exactly those of active permissions given through active roles the user holds |
| `RbacTables.EffectiveIsGiven` | app/modules/rbac/infrastructure/persistence/repository.py:144-174 | a name is among them exactly when the user holds a role that is not deleted and has a permission of that name that is not deleted |
| `PermissionCache.DoKeepsInv` | app/modules/rbac/use_cases/assign_permission.py:21-27 | every step of writers and readers keeps coherence and the provenance of cached sets |
| `PermissionCache.ServedSetsAreCoherent` | app/modules/rbac/use_cases/revoke_permission.py:26-32 | a served set differs from the user's current permissions only if a writer still owes its deletion (a role the user holds not yet listed, or the user still on its list) or commits between query and fill changed what this user may do; when no deletion is owed, so whenever no writer is left, it is stale exactly in the last case |
| `PermissionCache.ServedSetsAreRecent` | app/modules/auth/api/dependencies.py:280-289 | a served set was exact at an instant less than 300 s plus its fetch-to-fill delay ago, crashes and races included |
| `PermissionCache.SetsLast` | app/modules/auth/api/dependencies.py:285-289 | in every attained state a cached set is read exactly until 300 s after its fill |
| `PermissionCache.StepsSay` | app/modules/auth/api/dependencies.py:285-289 | a fill is served at once and for exactly 300 s, and is its request's only one; a crashed writer does nothing any more |
| `PermissionCache.RacingFillServesStale` | app/modules/auth/api/dependencies.py:285-289 | from every attained state without a writer left, and for every change of a user's role that changes what the user may do, a run that ends with no writer left and serves that user the permissions from before |
| `PermissionCache.StaleSetHappens` | app/modules/auth/api/dependencies.py:285-289 | such a state is reached from nothing |
| `Rbac.RbacUseCases.AssignPermission` | app/modules/rbac/use_cases/assign_permission.py:12-27 | errors in order; a run of the cache machine under interference; undisturbed, the tables gain exactly the pair and exactly the holders' keys are gone; if the commit raises, no key is, and the pair is there exactly if it took effect |
| `Rbac.RbacUseCases.RevokePermission` | app/modules/rbac/use_cases/revoke_permission.py:12-32 | the same for removal, with the assigned check |
| `Rbac.RbacUseCases.ChangeRolePermission` | app/modules/rbac/use_cases/revoke_permission.py:26-32 | commit, list holders, delete each key, under interference; the writer finishes its list |
| `Rbac.RbacUseCases.Invalidate` | app/modules/rbac/use_cases/assign_permission.py:24-27 | the deletion loop empties its list under interference; undisturbed it deletes exactly the listed keys |
| `Rbac.RbacUseCases.ListHolders` | app/modules/rbac/infrastructure/persistence/repository.py:186-189 | exactly the users who hold the role |
| `Rbac.RbacUseCases.ChangeUserRole` | app/modules/rbac/use_cases/assign_role.py:12-25 | assign and revoke of a role: errors in order, then commit and deletion of exactly that user's key |
| `Rbac.Authorizer.PermissionNamesOf` | app/modules/auth/api/dependencies.py:280-289 | a live cached set is used as it is; otherwise the user's current permissions are queried and cached for 300 s |
| `Rbac.EffectiveIsCounted` | app/modules/rbac/infrastructure/persistence/repository.py:144-174 | a name is among the user's current permissions exactly when the join count is positive, and exactly when an undeleted role of the user has an undeleted permission of that name |
| `Rbac.Authorizer.RequirePermission` | app/modules/auth/api/dependencies.py:269-293 | it decides by a live cached set if there is one, else by the tables; with an agreeing cache it grants exactly to superusers and to users with an undeleted permission of that name through an undeleted role, and leaves the cache agreeing for every user |
| `Rbac.Authorizer.HasAdminAccess` | app/admin/permissions.py:17-43 | the same decision for `admin:access`; without an id it denies where `require_permission` raises |
| `Rbac.CacheAgreesExactly` | app/modules/auth/api/dependencies.py:274-293 | in attained states the cache agrees about a user whose deletion is not owed, as with no writer left, exactly when no live set of the user's was filled after commits that changed what the user may do since its query |
| `TimedStore.RedisCache.Incr` | app/core/cache.py:107-108 | a live counter grows and keeps its TTL, an absent one starts at 1 without one |
| `TimedStore.RedisCache.Set` | app/core/cache.py:96-98 | at every instant from now on the key reads as the value until its TTL has passed and as absent after; other keys read as before |
| `TimedStore.ValueLastsItsTtl` | app/core/cache.py:90-111 | a value that was set is what is read until its TTL has passed, and nothing from then on, whatever commands are carried out on other keys meanwhile |
| `TimedStore.RedisCache.Delete` | app/core/cache.py:100-101 | the key reads as absent at every instant; other keys read as before |
| `TimedStore.RedisCache.Exists` | app/core/cache.py:103-105 | whether the key is live |
| `RateLimit.RateLimiter.Check` | app/core/rate_limit.py:26-34 | the counter becomes one more, or 1 with a TTL of one window, other keys are untouched, and the check admits exactly while the count is at most the limit |
| `RateLimit.CounterCountsLifetime` | app/core/rate_limit.py:26-34 | over every timed sequence of checks the counter counts the checks of its lifetime, expires one window after the first, and other keys are untouched |
| `RateLimit.LifetimeAdmitsFirst` | app/core/rate_limit.py:26-34 | each lifetime admits exactly its first `max` checks |
| `RateLimit.WindowBound` | app/core/rate_limit.py:26-34 | any half-open interval of one window contains at most 2 max - 1 admitted checks |
| `RateLimit.WindowBoundIsReached` | app/core/rate_limit.py:26-34 | that bound is reached for every limit and window |
| `Tokens.AuthService.RefreshToken` | app/modules/auth/use_cases/refresh.py:32-81 | it succeeds exactly for a known, unexpired, unrevoked refresh token of an account neither suspended nor deactivated, and names expiry and revocation as such; then exactly the old token is revoked and a new pair issued; else nothing changes |
| `Tokens.AuthService.Revoke` | app/modules/auth/use_cases/refresh.py:73-74 | the token is revoked from now until an instant at least a second away and less than a second before `exp` at the earliest, and at `exp` at the latest unless a second from now is later; nothing else in the store changes |
| `Tokens.AuthService.CreateTokenPair` | app/core/jwt.py:84-97 | two new jtis, an access and a refresh token of the user, that expire within the second before their lifetime ends and verify from now on if returned; earlier tokens are unchanged |
| `Tokens.AuthService.Logout` | app/modules/auth/use_cases/logout.py:27-86 | exactly the unexpired tokens of the right kind are revoked, the refresh token also if the access token is then rejected; expired ones are skipped, unknown ones and unexpired ones of the other kind rejected |
| `Tokens.AuthService.Authenticate` | app/modules/auth/api/dependencies.py:223-251 | accepts exactly known, unexpired, unrevoked access tokens of accounts neither suspended nor deactivated, and names expiry and revocation as such |
| `TokenRuns.RevocationTail` | app/modules/auth/use_cases/refresh.py:73-74 | a revocation ends less than a second before `exp`, and covers it exactly when the remaining life is whole or under a second |
| `TokenRuns.RevokedStaysOut` | app/modules/auth/use_cases/refresh.py:56-76 | over every run a revoked token is listed for as long as it verifies, on a whole-second clock; on a real clock except in its last second |
| `TokenRuns.RefreshedAtMostOnce` | app/modules/auth/use_cases/refresh.py:56-76 | over every run each refresh token is refreshed at most once on a whole-second clock; on a real clock again only in its last second |
| `TokenRuns.SecondRefreshHappens` | app/modules/auth/use_cases/refresh.py:73-74 | for all lifetimes a real-clock run that refreshes a token twice |
| `TokenRuns.RefreshedAgainExactly` | app/modules/auth/use_cases/refresh.py:56-76 | in every attained real-clock state some continuation refreshes a revoked token again exactly when it is a refresh token that still verifies and either its revocation ends before its `exp` or more than a second of its life is left |
| `TokenRuns.TokensAreConserved` | app/modules/auth/use_cases/logout.py:50-79 | the set of live refresh tokens after login, refresh, logout, status change and waiting, exactly: +1, 0, -1, also when the event cannot be published |
| `Otp.OtpService.Generate` | app/modules/otp/use_cases/generate_otp.py:29-62 | a new latest row, unused, that expires after 300 s for a login, 600 s for a password reset and 3600 s for a verification; if the cache works the code is read from it for that long, and nothing else in it changes |
| `Otp.OtpService.Validate` | app/modules/otp/use_cases/validate_otp.py:25-77 | a live cached code equal to the presented one decides, its key deleted before its row is marked; else the latest row does: expired, used, wrong, or marked before the key is deleted; with failing cache, commit and publish, row by row and key by key |
| `OtpRuns.FastPathRefinesSlowPath` | app/modules/otp/use_cases/validate_otp.py:39-77 | over every run, with failing caches too: validation gives the verdict it would give with an empty cache exactly when the cached code is not the one presented, or is that of the latest OTP and has not outlived its row's expiry, which it cannot if it was cached at the instant its expiry was computed; then also the same effect on the rows |
| `OtpRuns.CodesAreSingleUse` | app/modules/otp/use_cases/validate_otp.py:39-77 | over every run, whatever fails: each OTP is used at most once, no later than its expiry plus the time its code took to reach the cache, and at a time when no OTP that superseded it had reached the cache |
| `OtpRuns.SupersededIsAccepted` | app/modules/otp/use_cases/validate_otp.py:39-51 | over every run a superseded OTP's code is accepted exactly when it reached the cache, no later one of its user and type did, no validation deleted its entry, and the entry has not expired |
| `OtpRuns.FailedCacheAcceptsSuperseded` | app/modules/otp/use_cases/generate_otp.py:46-56 | for all codes a run in which a superseded code is accepted and used up |
| `OtpRuns.StepsSay` | app/modules/otp/use_cases/generate_otp.py:29-62 | in every attained state a generation adds one unused latest OTP that lasts as its kind does, and a use is recorded exactly for the row a validation newly marks |

## Left out

- Real NATS, PostgreSQL, Redis and SMTP I/O, asyncio scheduling and fetch timeouts: abstract stores and step outcomes.
- `json`, `base64`, Argon2 and PyJWT internals: inverse pairs, exact match of the hashed code, unforgeable tokens.
- Outgoing payloads with integers or nesting beyond the interpreter's limits, on which `json.dumps` raises, and NaN and Infinity, which JSON text from Python may hold and a JSONB column rejects.
- NUL characters, which a JSONB or text column rejects, and non-string dictionary keys, which `json.dumps` turns into strings.
- Text of error messages: an undecodable message carries a fixed one, a failing handler any one.
- Names beyond ASCII in `_camel_to_snake`, whose `lower` can change a string's length.
- Class paths that resolve to something other than an event dataclass, and validation in `__post_init__`.
- `publish`, its local handlers and its own audit row: only its effect on the stream (`PublishDirectly`).
- `aggregate_id` and `correlation_id` columns, listing and detail endpoints: no decisions depend on them.
- Deletion and retention expiry of dead letters and audit rows.
- Gaps that rolled-back transactions leave in database ids, and foreign keys to absent orders.
- Ordering transactions and relays in one state: the ordering log is over ordering transactions alone, the outbox machine over any business writes.
- Admin-panel writes, soft deletion of roles and permissions, and an RBAC service without a cache: RBAC runs are over the four use cases and the creation of roles and permissions.
- RateLimit.RateLimiter.Check: no other check of the key comes between its increment and its TTL; a crash there leaves a counter without a TTL.
- Tokens.AuthService.RefreshToken: one instant, so two refreshes of one token never overlap.
- Tokens.AuthService.Logout: one instant.
- Otp.OtpService.Validate: one instant, so two validations of one code never overlap.
- OtpRuns.SupersededIsAccepted: OTPs of one user and kind created in the same instant are ordered by creation.
- Random digits of one-time codes, rehashing and the credential cache at login.
- Middleware, response envelopes, schemas, the owner, car and user modules, pagination, migrations: no protocol in them.
- `InMemoryEventBus` and `NullCache`: degenerate implementations.
