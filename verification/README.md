# Where's my pizza: a verified model

The system takes restaurant orders over HTTP, stores them in Postgres and publishes them to a
topic exchange. Kitchen workers consume the messages, write the statuses `cooking` and `ready`,
announce each change and count their finished orders. A tracking service reads the tables. This
project models the order service, the kitchen workers, the broker and the tables as one
transition system and proves what holds in every state that any interleaving of their steps can
reach. Beside it stand the stopping of a worker, the lease on a worker's name, and the formats
the system prints and parses.

## How it is organised

- `Protocol.dfy` is the transition system: events, when they are enabled, and the next state. Its
  runs are the lists of events that `Exec` accepts. `MessageSafety`, `ServiceSafety`,
  `KitchenHistory` and `QuietRuns` prove what every step keeps; `Runs`, `Tracking` and
  `Redelivery` state the results about reachable states, `Progress` what can still happen from
  each of them. `Steps`, `OrderCalls` and parts of
  `KitchenWorker` tie its steps to the methods that run them in a row.
- `Lifecycle.dfy` and `Lease.dfy` are transition systems of their own, in the same style.
- `Database`, `Workers`, `OrderService`, `KitchenWorker`, `Consumer`, `Semaphore`, `Validation`,
  `Orders`, `Dto` hold the imperative code as classes and methods, proved against the functions
  that the transition systems use.
- `YamlLoader`, `OrderNumber`, `Routing`, `OrderTypes`, `Durations` hold the formats, on top of
  `Text`.

## Premises

- A SQL transaction is one atomic step. It commits or aborts; the order protocol also allows it to
  commit and yet report an error to its caller. Transactions on one order are serialised.
- A publish may be reported and accepted independently of each other. Only CreateOrder publishes
  order messages.
- Money is a whole number of cents. Times are integers. The surrogate order id is identified with
  the unique order number.
- A statement given a cancelled context fails. Work runs once per worker object.
- Message priority, prefetch limits and the order inside a queue do not restrict the runs.

## Where the code and its comments differ

The model follows the code.

- Comments above `isRecoverableError` promise a requeue when a processing step fails
  (internal/adapter/rabbit/order-consumer.go:175-179); the code requeues only a nil order, which
  no decoded body gives, so every failure dead-letters (`Consumer.NeverRequeued`).
- The loader's default for empty fields never applies to a bare `key:`, which opens a section
  (`YamlLoader.BareFieldSetsNothing`, `YamlLoader.DefaultOnlyForQuotes`).
- The delivery address rule is documented in characters and coded in bytes
  (`Validation.AddressRuleCountsBytes`, `Validation.ShortAddressAccepted`).
- The Stop that Work defers cancels the context it then hands to MarkOffline, so it never marks
  the worker offline (`Lifecycle.DeferredStopLeavesOnline`), and the next Stop panics
  (`Lifecycle.SecondStopPanics` is such a run, `Lifecycle.PanicsExactlyAfterFailure` says when).
- Stop waits for active orders, but an order between its check and its Add is not yet active and
  can run after the worker is marked offline (`Lifecycle.DrainCanMissAnOrder`). The drain is
  complete if and only if no handler stands between its check and its Add when the Wait returns
  (`Lifecycle.DrainCompleteExactly`).
- SetStatus does not look at the status it replaces. After a dropped connection, or a publish that
  delivered and yet reported an error, an order is cooked twice (`Redelivery.DropCooksTwice`,
  `Redelivery.MisreportCooksTwice`). Its statuses are a prefix of received, cooking, ready if and
  only if every write found the status before its own (`Redelivery.InLineExactlyInTurn`).

## Model

| member | source | states |
|---|---|---|
| Runs.ReachableSafe | internal/services/kitchen/service.go:154-254 | every state that any interleaving of calls, deliveries, failures and drops reaches satisfies all invariants |
| Runs.MessageConservation | internal/adapter/rabbit/order-consumer.go:105-146 | each message the exchange accepted occurs once, in one place: its type's queue, unacknowledged at one consumer of its type, acknowledged, or its type's DLQ |
| Runs.OneAtATime | internal/adapter/rabbit/order-consumer.go:105-146 | a consumer never holds two unsettled deliveries and settles none before its handler finished |
| Runs.SettledForCause | internal/adapter/rabbit/order-consumer.go:134-144 | a message is acknowledged exactly when a handler that succeeded settled it, whose worker's cooking and later ready entries are in the order's log, and is in its DLQ exactly when one that failed did |
| Runs.SettledAtMostOnce | internal/adapter/rabbit/order-consumer.go:105-146 | over every redelivery, at most one delivery settles a message |
| Runs.SettledForGood | internal/adapter/rabbit/order-consumer.go:134-144 | whatever happens later, an acknowledged message stays acknowledged and a dead-lettered one dead-lettered |
| Runs.QuietStatusLine | internal/services/kitchen/service.go:187-253 | without drops and misreported publishes, an order's statuses are always a prefix of received, cooking, ready |
| Runs.QuietAcknowledged | internal/adapter/rabbit/order-consumer.go:134-144 | in such runs an acknowledged message means all three statuses are logged |
| Runs.RowsFollowLog | internal/adapter/postgres/order.go:97-114 | in every reachable state, status, completed_at (the time of the last ready entry) and processed_by follow from the order's log, which starts with its only received |
| Runs.TotalsFollowItems | internal/adapter/postgres/order.go:78-114 | in every reachable state an order's total is the sum over the units of its own item rows and its priority is 10, 5 or 1 exactly on its side of 100 and 50 |
| Runs.CookingReadyPairs | internal/services/kitchen/service.go:187-229 | at every point of the log a worker's ready entries on an order are at most its cooking entries; the difference is its handlers now cooking plus those failed after cooking |
| Runs.ProcessedCounter | internal/adapter/postgres/worker.go:116-137 | orders_processed plus increments failed, pending or lost to a misreported commit equals the worker's ready entries over all orders |
| Runs.NotificationsTrue | internal/services/kitchen/service.go:202-244 | every notification is a pair of neighbouring entries in its order's log, by the worker it names |
| Runs.NotificationChain | internal/services/kitchen/service.go:202-244 | without drops and publish failures an order's notifications are its first status changes in order, each old status the previous new one |
| Runs.SequenceWithoutGaps | internal/adapter/postgres/order.go:121-157 | the values committed for a day are exactly 1 to last_value, each once and in order |
| Runs.NumbersCollideOnlyByFallback | internal/services/order/service.go:59-66 | two calls share an order number only if one drew at random, and a random number meets a sequence number only once the day's counter has reached 10000 |
| Runs.CreateOrderOutcome | internal/services/order/service.go:71-90 | a successful call stored its order and made exactly one successful publish call (none if no attempt is configured); a failed one made none |
| Runs.MessagesNameStoredOrders | internal/services/order/service.go:71-84 | every message decodes to an order whose row and items are stored, so no handler meets a missing order |
| Runs.PermitsBounded | internal/services/order/service.go:52-57 | permits in use are the calls between acquire and return, at most the maximum, and a release never blocks |
| Tracking.CurrentStatusAgrees | internal/adapter/postgres/status.go:23-51 | with increasing log timestamps GetCurrent can return only the last entry, and its status is the order's |
| Tracking.MissingExactlyWhenNotStored | internal/adapter/postgres/status.go:53-88 | the log of a number is empty exactly when no such order is stored |
| Redelivery.DropCooksTwice | internal/adapter/rabbit/order-consumer.go:105-146 | a run with one message and one dropped connection sets its order cooking twice |
| Redelivery.MisreportCooksTwice | internal/services/order/service.go:78-84 | a run without drops in which a delivered publish is reported as failed sets its order cooking twice |
| Redelivery.StepInLine | internal/adapter/postgres/order.go:160-211 | through any step an order stays in the line of received, cooking, ready exactly when it was in it and the status written follows the one found |
| Redelivery.InLineExactlyInTurn | internal/adapter/postgres/order.go:160-211 | after any run an order is in line if and only if each of its writes found the status before its own |
| Redelivery.QueuesAreRoutes | internal/adapter/rabbit/queue_init.go:33-94 | for every reachable message the declared topology routes its key to its type's queue alone, and its dead letter to that queue's DLQ alone |
| Progress.HandledAndAcknowledged | internal/adapter/rabbit/order-consumer.go:115-146 | a taken delivery handled without interruption and settled leaves both entries, its message acknowledged and the consumer free |
| Progress.HandledAndDeadLettered | internal/adapter/rabbit/order-consumer.go:134-144 | one whose first or second status change fails leaves its message in its type's DLQ and the consumer free |
| Progress.RefusedAndDeadLettered | internal/services/kitchen/service.go:155-161 | one that a stopping worker refuses is dead-lettered with nothing written |
| Progress.EveryOutcomePossible | internal/services/kitchen/service.go:187-250 | in every reachable state every outcome of the handler's next step can occur |
| Progress.HandlerFinishes | internal/adapter/rabbit/order-consumer.go:134-146 | in every reachable state a handler at work can still be settled; one that has not failed can still have its message acknowledged |
| Progress.AcknowledgesAndGoesOn | internal/adapter/rabbit/order-consumer.go:105-146 | a run in which a consumer acknowledges a message and takes the next |
| Progress.TakesNext | internal/adapter/rabbit/order-consumer.go:105-115 | a free consumer can take any message waiting in the queue of its type |
| Progress.EveryReplyPossible | internal/services/order/service.go:52-90 | in every reachable state every outcome of a call's next step can occur, a permit exactly while one is free, a stored order exactly while its number is |
| Progress.CallReplies | internal/services/order/service.go:52-90 | in every reachable state a call that has not replied still can, with success once its order is stored |
| MessageSafety.StepKeepsMessages | internal/adapter/rabbit/order-consumer.go:105-146 | each step keeps messages in one place of their type and each loop on one delivery |
| ServiceSafety.StepKeepsService | internal/services/order/service.go:53-90 | each step keeps permits, sequence, numbers, stored orders and messages in agreement with the tables |
| KitchenHistory.StepKeepsHistory | internal/services/kitchen/service.go:187-253 | each step keeps entries matched with handlers, notifications true and the counter exact |
| QuietRuns.StepKeepsOneLine | internal/services/kitchen/service.go:187-229 | each quiet step keeps one line of statuses per order, as far as its one handler has come |
| QuietRuns.StepKeepsChained | internal/services/kitchen/service.go:202-244 | each faithful step keeps the notifications the first changes of the log |
| QuietRuns.StepKeepsOneDelivery | internal/adapter/rabbit/order-consumer.go:105-146 | each quiet step delivers a message at most once |
| QuietRuns.StepKeepsOneMessage | internal/services/order/service.go:78-84 | each quiet step publishes at most one message per order |
| Broker.Accepted | internal/adapter/rabbit/order-producer.go:93-107 | accepting a message adds it in one place and moves no other |
| Broker.Moved | internal/adapter/rabbit/order-consumer.go:115-144 | delivering or settling a message moves that one and conserves all |
| Broker.Returned | internal/adapter/rabbit/order-consumer.go:109-113 | a dropped consumer's messages return to their queue and none is lost or doubled |
| Tables.CreateConsistent | internal/adapter/postgres/order.go:34-116 | storing a prepared order keeps every row in agreement with its log and its items |
| Tables.CreateEffect | internal/adapter/postgres/order.go:77-111 | storing adds the received entry and exactly the requested items to that order and nothing to any other |
| Tables.SetStatusConsistent | internal/adapter/postgres/order.go:168-211 | a status change keeps every row in agreement with its log |
| Database.OrderRepository.Create | internal/adapter/postgres/order.go:24-119 | succeeds exactly when no statement fails and number and type are admissible; stores row, items and entry, or leaves all tables as they were |
| Database.OrderRepository.GetAndIncrementSequence | internal/adapter/postgres/order.go:121-157 | returns the day's next value and commits it, or changes nothing |
| Database.OrderRepository.SetStatus | internal/adapter/postgres/order.go:160-212 | changes row and log together and returns the previous status, reports a missing order, or changes nothing |
| OrderService.PublishWithRetry | internal/services/order/service.go:102-118 | succeeds exactly when some attempt does or none is configured, makes at most one successful call, and sends exactly the messages of the attempts made |
| OrderService.SentAsReported | internal/services/order/service.go:102-118 | with true reports, success sends one message and failure none |
| OrderService.StoreAndPublish | internal/services/order/service.go:71-90 | succeeds exactly when the transaction commits and the publish loop succeeds; what is sent belongs to a stored order and decodes to it apart from its status |
| OrderService.CreateOrder | internal/services/order/service.go:43-91 | the permit is back on every path; when the call succeeds, and what it leaves in the order, the day's counter, the tables and the exchange, over every combination of failures |
| OrderCalls.UninterruptedCall | internal/services/order/service.go:43-91 | the protocol's steps of a call taken in a row, whatever fails, leave what the method leaves in counter, tables, exchange, permit and reply |
| OrderService.Prepare | internal/services/order/service.go:66-69 | number, total, priority and status are filled in from the request's own items |
| Semaphore.Semaphore.TryAcquire | pkg/semaphore/semaphore.go:30-39 | takes a permit exactly when one is free |
| Semaphore.Semaphore.Acquire | pkg/semaphore/semaphore.go:18-22 | takes a permit once there is room |
| Semaphore.Semaphore.Release | pkg/semaphore/semaphore.go:24-28 | returns one permit |
| Semaphore.Semaphore.Available | pkg/semaphore/semaphore.go:41-51 | used plus available is the capacity |
| Orders.CreateOrder.CalculateTotalAmount | internal/domain/models/order.go:50-59 | one item costs its quantity times its price, parts of the list add up, and with quantities from zero on the total is the sum over all units; nothing else changes |
| Orders.TotalAppend | internal/domain/models/order.go:50-59 | the total of two lists together is the sum of their totals |
| Orders.TotalByUnits | internal/domain/models/order.go:50-59 | an order costs what its units cost one by one |
| Orders.CreateOrder.CalculatePriority | internal/domain/models/order.go:61-74 | the priority is 10, 5 or 1 exactly on its side of 100 and 50 |
| Orders.CreateOrder.SetNumber | internal/domain/models/order.go:76-88 | the number parses back to the day and the sequence value |
| OrderNumber.ParseFormat | internal/domain/models/order.go:76-88 | printing a number loses nothing, across the three width branches |
| OrderNumber.FormatShape | internal/domain/models/order.go:76-88 | the number is the prefix, the day and three digits of the value in place, four from 1000 on, five from 10000 on |
| OrderNumber.FormatInjective | internal/domain/models/order.go:76-88 | numbers are equal exactly when day and sequence value are |
| OrderNumber.FallbackCollision | internal/services/order/service.go:93-96 | a random number collides with the day's sequence exactly when the counter has reached it, never below 10000 |
| Dto.DecodeEncode | internal/adapter/rabbit/dto.go:30-89 | an order published and decoded is the same order without its status |
| Dto.EncodeDecode | internal/adapter/rabbit/dto.go:30-89 | a message decoded and published again is the same message |
| Dto.SameOrderExactly | internal/adapter/rabbit/dto.go:30-89 | the two conversions are exactly the relation of saying the same field by field |
| Dto.FromInternalToPublish | internal/adapter/rabbit/dto.go:30-61 | every field and every item of the message equals the order's; no order gives no message |
| Dto.FromPublishToInternal | internal/adapter/rabbit/dto.go:63-89 | every field and every item of the order equals the message's, without a status; a message never gives the nil order |
| Consumer.Consume | internal/adapter/rabbit/order-consumer.go:105-146 | every delivery is taken, handed to the handler as the order its body says if it decodes, and settled by the handler's answer; as many orders are handled as bodies decode |
| Consumer.SettledInTurn | internal/adapter/rabbit/order-consumer.go:105-146 | each delivery is settled once, before the next is taken |
| Consumer.VerdictsExactly | internal/adapter/rabbit/order-consumer.go:115-183 | acknowledged, put back and dead-lettered each exactly in its case |
| Consumer.NeverRequeued | internal/adapter/rabbit/order-consumer.go:134-183 | a delivery is acknowledged exactly on success and otherwise dead-lettered, never requeued |
| KitchenWorker.KitchenWorker.ProcessOrder | internal/services/kitchen/service.go:170-254 | on success both statuses, the announcements that worked and one increment; on failure exactly what was written before it |
| KitchenWorker.KitchenWorker.ProcessOrderWrapper | internal/services/kitchen/service.go:154-167 | a stopping worker refuses without touching anything; otherwise it succeeds exactly when both status changes do, which leaves a cooking and a ready entry, and the order is no longer active |
| KitchenWorker.UninterruptedHandler | internal/services/kitchen/service.go:186-250 | the protocol's handler steps taken in a row leave the tables, notifications and counter that a successful ProcessOrder leaves |
| KitchenWorker.UninterruptedFailure | internal/services/kitchen/service.go:186-229 | with the first or second status change failing, they leave what a failed ProcessOrder leaves |
| KitchenWorker.KitchenWorker.MarkOnline | internal/services/kitchen/service.go:275-303 | registers the joined order types exactly when not working and the name is claimable, and only then works |
| KitchenWorker.KitchenWorker.HeartbeatLoop | internal/services/kitchen/service.go:256-273 | last_seen becomes the time of the last heartbeat that worked, failed ones being passed over, and stays if none did; a missing row stays missing |
| KitchenWorker.KitchenWorker.Stop | internal/services/kitchen/service.go:124-152 | how a call ends and what it leaves in the worker and its row, including the failed MarkOffline and the panic |
| Lifecycle.ReachableInv | internal/services/kitchen/service.go:125-167 | every interleaving of check, Add, Done, close, Wait, cancel and MarkOffline keeps the invariants |
| Lifecycle.DrainedBeforeOffline | internal/services/kitchen/service.go:125-167 | at MarkOffline every order added before the Wait returned has finished; one still running passed its check before the close and was added after the Wait |
| Lifecycle.DrainCompleteExactly | internal/services/kitchen/service.go:133-167 | some order can run after the Wait of a Stop call if and only if a handler stands between its check and its Add when the Wait returns; it can then outlast MarkOffline |
| Lifecycle.OneLateOrderPerType | internal/services/kitchen/service.go:97-115 | at most one order of each type ever runs late |
| Lifecycle.RefusedWritesNothing | internal/services/kitchen/service.go:155-161 | a delivery checked after the close writes no status |
| Lifecycle.RefusalHappens | internal/services/kitchen/service.go:155-161 | a run in which a delivery comes after the close and is refused |
| Lifecycle.HeartbeatsUntilDrained | internal/services/kitchen/service.go:257-273 | heartbeats go on until the drain ends, unless the parent context is cancelled, and can end exactly when a context is cancelled |
| Lifecycle.DeferredStopLeavesOnline | internal/services/kitchen/service.go:79-87 | the deferred Stop never marks the worker offline, its context being cancelled by then, and leaves it working with its channel closed |
| Lifecycle.PanicsExactlyAfterFailure | internal/services/kitchen/service.go:125-149 | a Stop that reaches its close panics exactly when an earlier one failed to mark offline |
| Lifecycle.SecondStopPanics | internal/services/kitchen/service.go:79-149 | a run in which the deferred Stop fails to mark the worker offline and the next Stop panics |
| Lifecycle.LoopReturns | internal/services/kitchen/service.go:154-167 | in every reachable state each loop can get through the delivery it is in |
| Lifecycle.StopFinishes | internal/services/kitchen/service.go:125-149 | in every reachable state a Stop call that waits can come to its end |
| Lifecycle.DrainCanMissAnOrder | internal/services/kitchen/service.go:133-149 | a run in which a worker is marked offline while an order runs |
| Lifecycle.UninterruptedStop | internal/services/kitchen/service.go:125-152 | after any run, the steps of a Stop call taken in a row end as the Stop method does: nothing to do, panic, offline or failed, with the flags that belong to it |
| Lease.LeaseSafety | internal/adapter/postgres/worker.go:61-114 | when holders write last_seen within twice the claimant's heartbeat, no two live workers hold a name, over every interleaving |
| Lease.SafeRunExactlyWhenTimely | internal/adapter/postgres/worker.go:61-91 | over a whole run, no two live workers ever hold the name if and only if every registration came in time |
| Lease.SafeExactlyWhenTimely | internal/adapter/postgres/worker.go:61-91 | a further registration keeps the name single-held if and only if it comes in time |
| Lease.CrashedNameReclaimable | internal/adapter/postgres/worker.go:58-91 | after any run, a name without live holder is claimable exactly when offline or unseen for more than the interval, and waiting that long suffices |
| Lease.BeatKeepsName | internal/adapter/postgres/worker.go:93-114 | a holder can always beat and then nobody else gets the name for twice the other's heartbeat |
| Lease.StopFreesName | internal/adapter/postgres/worker.go:139-161 | a holder can always stop and then anybody can claim the name at once |
| Workers.WorkerTable.MarkOnline | internal/adapter/postgres/worker.go:61-91 | registers exactly when the name is free, offline or stale, with the given types, now, and the counter kept; otherwise changes nothing |
| Workers.WorkerTable.UpdateLastSeen | internal/adapter/postgres/worker.go:93-114 | renews last_seen of an existing row only |
| Workers.WorkerTable.IncrOrdersProcessed | internal/adapter/postgres/worker.go:116-137 | adds one to the counter of an existing row only |
| Workers.WorkerTable.MarkOffline | internal/adapter/postgres/worker.go:139-161 | ends the lease: afterwards anybody can claim the name at any time |
| Workers.ListWorkers | internal/services/tracking/service.go:63-69 | exactly the workers unseen for longer than the threshold are shown offline, in place, and nothing else of a row changes |
| Workers.ShownOnlineIsSafe | internal/services/tracking/service.go:63-69 | a worker shown online cannot lose its name, exactly when the threshold is at most twice the heartbeat |
| YamlLoader.Load | pkg/configparser/load.go:18-86 | the loop leaves the environment and the error of reading the lines one by one |
| YamlLoader.CountIndent | pkg/configparser/load.go:30-37 | counts the leading blanks |
| YamlLoader.PopSections | pkg/configparser/load.go:39-43 | pops the sections that the indent has left |
| YamlLoader.PopsByIndent | pkg/configparser/load.go:39-43 | at any indent, one section is left for each two columns, or part of them, that the line stands further left |
| YamlLoader.HeaderLine | pkg/configparser/load.go:46-52 | after a section line the stack is the section's path |
| YamlLoader.SettingLine | pkg/configparser/load.go:53-79 | a setting line sets the upper-cased joined path and leaves the stack at the enclosing section |
| YamlLoader.ReadsPrinted | pkg/configparser/load.go:22-80 | reading a printed part of a document assigns its settings in order and returns to its section |
| YamlLoader.LoadsDocument | pkg/configparser/load.go:19-80 | a printed document, with comments, blank lines and quoted values, loads to exactly the map of its tree |
| YamlLoader.LoadsEachKey | pkg/configparser/load.go:75-78 | the last setting of a key gives its value and no other variable changes |
| YamlLoader.KeyByParts | pkg/configparser/load.go:63-65 | a key is the upper-cased names of its path with underscores between them |
| YamlLoader.SkippedExactly | pkg/configparser/load.go:23-28 | exactly the blank lines and those starting with # are passed over |
| YamlLoader.FillerLine | pkg/configparser/load.go:25-28 | such a line changes nothing, whatever the state |
| YamlLoader.StopsAtBadKey | pkg/configparser/load.go:76-78 | a variable that cannot be set ends the loading, what was set before stays |
| YamlLoader.BareFieldSetsNothing | pkg/configparser/load.go:46-52 | a field without value opens a section and sets nothing |
| YamlLoader.DefaultOnlyForQuotes | pkg/configparser/load.go:67-73 | the default is given exactly to values made of quotes |
| Routing.BindingMatchesOwnType | internal/adapter/rabbit/queue_init.go:103-110 | a published key matches a type's binding exactly when the types are equal, for any priority |
| Routing.MatchesWordByWord | internal/adapter/rabbit/queue_init.go:103-110 | the topic rules for bindings without #: as many words, each equal or * |
| Routing.DlqMatchesOwnQueue | internal/adapter/rabbit/queue_init.go:112-118 | a dead letter matches exactly its own queue's DLQ binding |
| Routing.InitQueues | internal/adapter/rabbit/queue_init.go:14-97 | succeeds exactly when every declaration does, then queues, DLQs and bindings are exactly those of the types; a failure leaves nothing foreign |
| Routing.RoutesToOwnQueue | internal/adapter/rabbit/queue_init.go:33-94 | each order reaches exactly its type's queue and each dead letter exactly that queue's DLQ |
| OrderTypes.ValidateOrderTypes | internal/app/services/kitchen-worker.go:204-241 | accepts exactly the empty string or lists of valid distinct entries, in input order; an error names the first entry that breaks a rule |
| OrderTypes.ValidateEntries | internal/app/services/kitchen-worker.go:210-240 | the same for the split list |
| OrderTypes.AtMostThree | internal/app/services/kitchen-worker.go:221-232 | an accepted list has at most three types |
| OrderTypes.RegisteredListReads | internal/services/kitchen/service.go:285-289 | an accepted list joined for registration is accepted again and reads as the same list |
| OrderTypes.PaddedListReads | internal/app/services/kitchen-worker.go:210-232 | spaces around entries and blank entries make no difference |
| Durations.PrettyDuration | pkg/utils/utils.go:17-62 | what is printed reads back as the same number of seconds, and its words spell hours, minutes and seconds |
| Durations.PrintedShape | pkg/utils/utils.go:17-62 | the parts that are not zero, largest first, each with its unit in the singular or plural |
| Durations.ReadsBack | pkg/utils/utils.go:17-62 | the printed form determines the duration |
| Durations.PrintsInjectively | pkg/utils/utils.go:17-62 | distinct durations print differently |
| Validation.Validator.AddError | pkg/validator/validator.go:33-39 | the first error of a key wins |
| Validation.Validator.Check | pkg/validator/validator.go:41-46 | an error is added exactly for a failed check on a new key |
| Validation.ValidateOrderType | internal/adapter/http/handler/dto/validate.go:85-143 | table and address are reported exactly when the rule of the order's type is broken |
| Validation.ValidateItems | internal/adapter/http/handler/dto/validate.go:63-81 | an item field is reported exactly when some item breaks its rule |
| Validation.ValidateCreateOrderRequest | internal/adapter/http/handler/dto/validate.go:36-82 | errors appear under exactly the keys whose rule is broken; a fresh validator is valid exactly when all rules, written out, hold |
| Validation.AcceptableExactly | internal/adapter/http/handler/dto/validate.go:36-143 | the rules key by key are together the field rules and the rules by type |
| Validation.AcceptedOrderBounds | internal/adapter/http/handler/dto/validate.go:57-81 | accepted orders total 0.01 to 199998.00 and have priority 1, 5 or 10 |
| Validation.AddressRuleCountsBytes | internal/adapter/http/handler/dto/validate.go:116-122 | an address is accepted exactly when its characters and the additional bytes of those outside ASCII come to ten; where that differs from ten characters, and that it never does in ASCII |
| Validation.ShortAddressAccepted | internal/adapter/http/handler/dto/validate.go:116-122 | an address of five characters is accepted |

## Left out

- HTTP server, routing, middleware, handlers and JSON: plumbing over the standard library.
- Postgres and RabbitMQ clients, reconnecting and the broker-side retry: their outcomes are the choices of the events.
- The notification subscriber: only the sequence of published updates matters here.
- Flags, configuration structs, printing and logging: only easy members.
- Work: its goroutines are steps of the lifecycle and lease transition systems on values; Stop, markOnline and heartbeatLoop are also methods, which show one call that nothing interrupts.
- Go's WaitGroup misuse panics: an Add concurrent with a Wait on a zero counter is taken as allowed.
- Queue order, message priority and prefetch: not needed for any result and left unconstrained.
- Statuses completed and cancelled: no code writes them.
- Floating-point prices and sub-second durations: exact cents and whole seconds instead.
- Regular expressions: the customer-name pattern is a character predicate.
- Line splitting of the configuration file: the loader is given lines.
- Validation.ValidateCreateOrderRequest: does not state the wording of the error messages, only their keys.
- Tracking.CurrentStatusAgrees: says nothing for equal timestamps, where the query's order is open.
