# Verified model of the order pipeline

A Dafny model of a small shop backend: a checkout against Postgres, a transactional outbox with
its relay, a RabbitMQ consumer, a Redis rate limiter, a Redis cache, a worker pool, an order event
stream over SSE, cursor paging, and a retry wrapper. `dafny verify dfyconfig.toml` checks all of it.

## How it is built

* **`Events`, `Decimal`** – the order event, its two builders, its validator; decimal text.
* **`Checkout`** – one `placeOrder` or `checkout` transaction run alone, as a function on tables, and
  the books ("ledger") any series of them keeps. `Database` is the same code as methods that update
  fields, with BEGIN, ROLLBACK and COMMIT, proved against that function.
* **`Shop`, `ShopTheorems`** – any number of these transactions interleaved statement by statement
  under READ COMMITTED with row locks: a blocked UPDATE re-checks its WHERE when it gets the row, one
  whose committed row already fails the WHERE does not wait, `ON CONFLICT DO NOTHING` waits for the
  other claimer, sequences move on at once. One inductive invariant, then the theorems. `ShopAlone`: each
  answer, refusals and replays too, is the one the request would get alone at that moment.
* **`Relay`** – `relayOnce` and `runRelay` as methods; the order of a drain.
* **`Consumer`** – the delivery handler and the two ways of applying the effect, as methods.
* **`Delivery`, `DeliverySafety`, `Pipeline`** – relays, broker and consumers as a step system over
  the shop's committed tables, with crashes between any two steps, lost confirms, redelivery, the
  delivery limit and handlers that outlive their connection; then its product with `Shop`.
* **`DeliveryProgress`, `PipelineProgress`** – what can still happen: deliveries never get stuck.
* **`RateLimit`, `RateLimitPods`, `RateLimitClients`, `RateLimitOrder`** – the sliding-window script on a
  sorted set with an expiring key, any number of pods calling it for any number of clients, and what the
  order of their timestamps is needed for.
* **`Cache`, `CacheBurst`, `CacheReader`** – cache-aside with an expiring lock: readers interleaved
  between any two awaits, timed; what a burst costs; the code of one reader as a method.
* **`Workers`** – the SKIP LOCKED pool, the claiming query taken row by row; `runWorker` as a method.
* **`OrderEvents`, `Orders`** – the numbered events of an order and their ring of a hundred; a client
  over all its connections; the in-memory order book.
* **`EventStream`, `Sse`** – the event stream parser of sections 9.2.5 and 9.2.6 of WHATWG HTML, and
  the printer and handler that feed it. **`JsonText`, `EventJson`** – a reader for flat JSON objects
  (RFC 8259), and the text of an event.
* **`Base64Url`, `Pagination`** – base64url (section 5 of RFC 4648), cursors, pages, walks.
* **`Retry`, `LostUpdates`** – `withRetry` as a method, and its clients against one row under first
  updater wins, or under READ COMMITTED.

Clocks, tokens, random numbers, identity values and event times are inputs of steps. Amounts are
unbounded integers, with the bounds of Postgres `integer` (2^31 - 1) written out where a statement
would fail on them. Times are milliseconds.

## Where code and documentation differ

* `RelayStats.published` is described as the number of publish calls (`src/outbox/relay.ts:31-32`)
  but only grows after a confirm (`:97`). The model follows the code: picked = published + failed.
* The outbox builder names the currency "UAH" whatever the order is in
  (`src/outbox/outbox.ts:39-56`). `Pipeline.EventCurrency` and `Events.BuildersAgree` say exactly when
  event and order agree; what a consumer acts on does not depend on it.
* The limiter is said to admit no more than the limit in any window. That needs timestamps that do
  not go back from one evaluation to the next: a call stamped behind another is counted against a
  window that is pruned already. And it needs clocks no further apart than the key outlives its window:
  beyond, the key expires under an admission that still counts, whatever the order.
  `RateLimitOrder.PromiseNeedsOrder` and `RateLimitOrder.OrderNeedsMargin` say exactly when the promise
  holds, over all runs and over those in order, for every limit, window and difference of clocks. Each
  single decision equals the count above the window of the latest timestamp
  (`RateLimit.DecidesLikeFullHistory`), as long as no call is a whole window behind (`Timely`).
* `Retry-After` is when the oldest entry leaves. With one limit for all pods that is when the client is
  admitted (`RateLimit.RetryAfterIsTrue`); when pods with a higher limit have filled the set it may be too
  early, and `RateLimit.RetryAfterIsExact` says when.
* A confirm means "queued" only if the binding exists: `Pipeline.NoLossExactlyWithBinding`. A shop that
  can sell at all has runs that lose an event exactly if the binding is not in place from the start.
* A cached `null` is a miss (`src/redis/cache.ts:91-92`), so the lock does not protect a key whose value
  is null: `CacheBurst.NullIsLoadedEveryTime`. `CacheBurst.SingleFlightExactly` has all the conditions
  under which a cold burst costs one load.
* By the letter of section 9.2.6 a client starts every stream with an empty id buffer, and the blank
  line after `retry:` sets its last event id to that. A client that had seen something and whose
  connection breaks between that line and the end of the first event therefore comes back without an id
  and is sent the whole buffer again; before or after that it keeps its place: `Sse.OpeningForgetsTheId`.
  A client that keeps its id in the buffer, as some browsers do, always does: `Sse.ResumesAfterCut`, and it
  is the one `OrderEvents.Resumption` speaks of.
* `paginate` and the limit+1 query differ for forged cursors with an offset beyond `bigint`, and only
  for those: `Pagination.BothFormsAgree`.
* The comment in `src/demo-retry.ts:113-114` expects one of eight clients to need about ten attempts.
  As far as conflicts go eight are always enough and seven may not be: `LostUpdates.EnoughAttempts`.

## Model

| member | source | states |
|---|---|---|
| Events.BuildersAgree | src/outbox/outbox.ts:39-56 | The outbox builder and the contract builder make the same event of an order exactly when its currency is UAH; a consumer reads the same identity, order and quantity out of both in every case. |
| Events.BuiltEventParses | src/messaging/contracts.ts:35-74 | The validator accepts a built event exactly when its quantity is positive, and gives back the id, order and quantity it was built from. |
| Events.JsonNames | src/messaging/contracts.ts:16-35 | Each property of the event is the member of that name in its message. |
| Events.AcceptsExactly | src/messaging/contracts.ts:53-74 | A message is accepted, whatever else it holds, exactly if it has a non-empty id, the type order.placed, version 1, an order id and a positive whole quantity, and it is read as those. |
| Events.RefusesForAReason | src/messaging/contracts.ts:53-74 | The error names the first of these that is missing or wrong. |
| Events.EventIdInjective | src/outbox/outbox.ts:47 | Events of different orders never share an id, events of one order always do. |
| Checkout.SerialKeepsLedger | src/checkout.ts:91-190 | Conservation over any series of successful transactions: stock and balances plus what was ordered give the initial ones, nothing negative, orders, items, task rows, outbox rows and keys one to one with the transactions. |
| Checkout.ReplayGivesTheOriginal | src/outbox/place-order.ts:87-130 | Replaying the key of any earlier transaction gives its original order, total, task id and outbox row, with the stock and balance of now. |
| Checkout.ReplayReads | src/outbox/place-order.ts:87-130 | Whatever the tables hold, a replay reads the order of the key with its total, its least task and outbox row, the stock and balance of now, 0 or nothing for what is missing; it fails exactly if there is no such order. |
| Checkout.RefusesExactly | src/checkout.ts:95-152 | A request fails with a reason exactly if the tables and the request give that reason, and succeeds if they give none. |
| Checkout.CheckoutSells | src/checkout.ts:99-189 | A success moves the quantity out of the stock and the total out of the balance of that product and buyer only, adds one order, line and task that say who bought what at which price, and answers with them. |
| Checkout.PlaceOrderMeans | src/outbox/place-order.ts:57-82 | A request with a new key fails for the reason the tables give and changes nothing, or its order is sold, its key bound, and its outbox row tells of it. |
| Database.Connection.ClaimKey | src/outbox/place-order.ts:57-68 | A key is claimed exactly when nobody has it; then it is NULL until bound. |
| Database.Connection.DecrementStock | src/checkout.ts:101-123 | The conditional decrement succeeds exactly when the product exists and the stock suffices, returns the new stock and the price, and otherwise changes nothing. |
| Database.Connection.Debit | src/checkout.ts:126-152 | The conditional debit succeeds exactly when the buyer exists and the balance suffices, and otherwise changes nothing. |
| Database.Connection.CheckoutInTransaction | src/checkout.ts:91-190 | The statements succeed with one order, line and task of that buyer, product and quantity, stock and balance down by as much, and fail with the reason the old tables give. |
| Database.Connection.PlaceOrder | src/outbox/place-order.ts:47-83 | One request: a new key fails for the reason the old tables give, or leaves an order, its line, its task, the bound key and an outbox row with order, buyer, product, quantity and total of that order; a known key changes nothing and reads its order; any failure or a throwing hook leaves all tables as before, and identity values move on regardless. |
| Shop.CommitIsSerial | src/checkout.ts:101-189 | A transaction at its commit writes exactly what it would write running alone at that moment, though others committed in between. |
| Shop.RunKeepsInv | src/outbox/place-order.ts:53-83 | The invariant of the interleaved transactions over every run: what each open transaction has read still holds, no row is locked twice, identity values are fresh, all answers are true, the tables are those of a serial run. |
| ShopTheorems.Serializable | src/outbox/place-order.ts:53-83 | Any interleaving ends in the tables of the committed transactions run alone in commit order; each succeeds alone too and gets the very answer its request got. |
| ShopAlone.EveryAnswerIsSerial | src/outbox/place-order.ts:53-83 | In any interleaving every answer, be it an order, a replay or a refusal, is what the request would get alone on the tables committed at that moment. |
| ShopAlone.BeginsWith | src/outbox/place-order.ts:53-58 | A transaction keeps its request and the time it began. |
| ShopAlone.TakesIdsAndTimes | src/outbox/place-order.ts:68-71 | Each INSERT takes the next value of its own sequence, the event the time it is made. |
| ShopAlone.AloneMeansTransact | src/checkout.ts:91-190 | A request that meets no other is answered, and is refused for a reason exactly if its transaction fails with it, created exactly if it succeeds, replayed exactly if its key is taken. |
| ShopTheorems.Conservation | src/checkout.ts:99-189 | In every committed state initial stock = stock + quantities, initial balance = balance + totals, totals = quantity times unit price, nothing negative, orders, items and task rows one to one, outbox rows as many as keys. |
| ShopTheorems.OneOrderPerKey | src/outbox/place-order.ts:57-130 | A committed key is bound to one order and never NULL; all who are served under it hear of the same order, total, task id and outbox row; exactly one created it; "key without order" is never thrown. |
| ShopTheorems.RollbackFreesTheKey | src/outbox/place-order.ts:53-83 | A request that rolls back, refused for any reason or lost, leaves the tables alone and its key free: the next one with it gets past the claim. |
| ShopTheorems.WaitsGoUp | src/checkout.ts:33-34 | A holder that waits too waits for a row of a higher class: key, product, buyer. |
| ShopTheorems.NoWaitCycle | src/checkout.ts:101-138 | No chain of waits is a cycle, and none has more than four transactions, however many are open. |
| ShopTheorems.SomeoneCanStep | src/checkout.ts:101-138 | While any transaction is open, one of them can run its next statement to the end. |
| ShopTheorems.RefusalsAreTrue | src/checkout.ts:95-152 | Every refusal is a true statement about the committed tables; out_of_stock for an existing product and a valid quantity means that the stock is below it. |
| ShopTheorems.BurstSellsExactly | src/demo-race.ts:54-63 | N concurrent requests of quantity q on stock S with sufficient funds, all answered and none lost, give exactly min(N, S div q) orders in any schedule. |
| Relay.PickIsOldest | src/outbox/relay.ts:82-90 | A batch is unpublished, unlocked rows in the order of creation time and id, none younger than one left behind, which is only if the batch is full. |
| Relay.PassMeans | src/outbox/relay.ts:94-113 | In a committed pass a row is marked exactly if its publish was confirmed, one more attempt is counted exactly if it was not, and other rows are untouched. |
| Relay.NoRowIsPassedOver | src/outbox/relay.ts:78-90 | A committed, unpublished, unlocked row is in the batch or after all of it, however small its id and however late its commit. |
| Relay.MarkedLeaveTheQueue | src/outbox/relay.ts:82-112 | Marking the first n pending rows leaves exactly the others pending, in the same order. |
| Relay.OutboxRelay.RelayOnce | src/outbox/relay.ts:65-117 | A pass throws exactly if the hook throws for a published row, and then, at the first such row, every mark and count of the batch is undone while what was sent stays sent; otherwise picked = published + failed, marked = published, attempts grow by the failures, rows are sent in order. |
| Relay.OutboxRelay.RunRelay | src/outbox/relay.ts:127-140 | With a publisher that never fails and no hook, k passes send exactly the first k times batch pending rows, in (created_at, id) order, and mark them; nothing is pending then exactly if k is at least ceil(pending / batch). |
| Relay.DrainTakes | src/outbox/relay.ts:127-140 | A relay that has drained k batches has no pending rows left exactly if k is at least ceil(pending / batch). |
| Consumer.Warehouse.ApplyPickingTask | src/messaging/effect.ts:24-37 | One row with the event's id, order and quantity is added exactly if the event has none, and the answer says which; a refused statement adds nothing. |
| Consumer.Warehouse.ApplyWithInbox | src/outbox/inbox.ts:26-57 | Mark and effect come together or, wherever the database fails, not at all; a marked event is a duplicate and changes nothing; any other gets its row, with its id, order and quantity, unless it has one. |
| Consumer.Consumer.OnMessage | src/messaging/consumer.ts:74-117 | Unreadable messages are rejected and touch nothing; a readable one is acked, with its effect there, exactly if neither the database nor the hook fails, and sent back otherwise; after the effect it counts already, as applied or, if it was known, as skipped; every delivery counts once. |
| Consumer.Redelivered | src/messaging/consumer.ts:97-107 | A message handled again by any consumer, however its first handling ended, is acked and has its row exactly once. |
| Consumer.HandlerDoesTheSame | src/messaging/consumer.ts:84-107 | The steps of a delivery in `Delivery`, nobody being in its way, end at the ack with the inbox and picking rows this code leaves. |
| Consumer.InsertedAdds | src/outbox/inbox.ts:49-56 | The insert adds one row with the id, the order and the quantity of the event, at the end, or nothing if the event has its row. |
| Consumer.InsertedHasEffect | src/outbox/inbox.ts:49-56 | The effect is there after an insert, and inserting twice is inserting once. |
| DeliverySafety.StepKeepsInv | src/messaging/consumer.ts:74-120 | Every step of relays, broker and consumers keeps the invariant: handlers hold disjoint claims, picking rows are genuine and one per event, a message is settled only for a reason. |
| DeliverySafety.DeliveryStarts | src/messaging/consumer.ts:74-82 | A delivery takes its message out of the queue and starts one handler for it. |
| DeliverySafety.ReturnsAreCounted | src/messaging/topology.ts:60-71 | Every failed handling and lost connection counts as one return and nothing else does; up to the fifth the message is ready again, the sixth dead-letters it. |
| DeliverySafety.ShopCommitKeepsInv | src/outbox/place-order.ts:68-82 | New commits of the shop keep it too. |
| Pipeline.ExactlyOnceEffect | src/outbox/inbox.ts:26-57 | Whatever crashes, is lost, published twice or redelivered, with inbox and natural-key consumers mixed: an order has at most one picking row, each belongs to a committed order and carries its quantity. |
| Pipeline.NoLoss | src/outbox/relay.ts:73-114 | With the binding in place every order of placeOrder has its outbox row, and its event is at every moment unpublished, queued, in a handler's hands, dead-lettered or applied. |
| Pipeline.LossOnlyWithoutBinding | src/messaging/publisher.ts:15-20 | An event that is nowhere was handed back by the broker for want of a binding. |
| Pipeline.NoLossExactlyWithBinding | src/messaging/publisher.ts:15-20 | Over all runs of shop and delivery no committed order's event is ever lost if and only if the binding is in place, or nothing can be sold: no buyer can pay for one piece of a product in stock whose price Postgres can hold. |
| PipelineProgress.EveryEventArrives | src/messaging/consumer.ts:74-120 | From any reachable state some continuation without failures applies every outbox event of which no copy had been dead-lettered before; with the binding none is handed back. |
| DeliveryProgress.ComesToRest | src/outbox/inbox.ts:31-47 | However many relays and handlers are under way and wait for each other's rows, without failures they can all finish, every outbox row is published and every message settled. |
| DeliveryProgress.RunBuriesNone | src/messaging/consumer.ts:83-96 | A run without failures dead-letters no message a consumer can read. |
| Pipeline.AckAndDeadLetter | src/messaging/consumer.ts:83-107 | An acked message has its effect committed; a dead-lettered one was unreadable or beyond the delivery limit, and the event of an outbox row is always readable, so it is there exactly if it came back more than five times. |
| Pipeline.InboxMeansEffect | src/outbox/inbox.ts:31-55 | An inbox row never exists without its effect. |
| Pipeline.RelaySafety | src/outbox/relay.ts:82-113 | A committed published_at means a confirmed publish of that row; no row is in the hands of two relays, and none that is published. |
| Pipeline.EventTellsOfItsOrder | src/outbox/outbox.ts:39-56 | In every reachable state the event of an outbox row, and the message made of it, names the id, buyer and total of its order and the product and quantity of its line; the row bears the ids and times its transaction was given. |
| Pipeline.DirectEventTellsOfItsOrder | src/checkout.ts:222-235 | So does the event published after a commit without an outbox. |
| Pipeline.EventCurrency | src/outbox/outbox.ts:39-56 | In every reachable state an outbox event names its order's total and id, and its currency exactly when the product is sold in UAH. |
| RateLimit.SlidingWindowLimiter.Check | src/redis/rate-limit.ts:80-103 | One request evaluates the script on the client's set and leaves the sets of all other clients alone, with a member no other call has; Retry-After is the least number of whole seconds, at least one, that covers the reset time. |
| RateLimit.KeptIsHistory | src/redis/rate-limit.ts:27-34 | With clocks within the key's margin, what survives prunes and key expiries is exactly the admission history above the window of the latest timestamp. |
| RateLimit.DecidesLikeFullHistory | src/redis/rate-limit.ts:27-47 | The pruned set admits exactly when fewer than limit admissions of the entire history lie above that window, and reports that count. |
| RateLimit.ServeKeepsInv | src/redis/rate-limit.ts:27-47 | Every evaluation less than a window behind the latest timestamp keeps the tie between the set and the history. |
| RateLimit.RetryAfterIsExact | src/redis/rate-limit.ts:36-47 | With nobody else served and the key still there, a limited request is admitted from resetMs later on and not a millisecond sooner, if and only if the set is not still full when its oldest entry leaves. |
| RateLimit.RetryAfterIsTrue | src/redis/rate-limit.ts:36-47 | After any calls of pods with one limit it is never still full: a refusal counts exactly limit entries and its reset time is right. |
| RateLimitPods.MemberInjective | src/redis/rate-limit.ts:80-83 | Members are equal only if pod, time and counter are, whatever pods are called. |
| RateLimitPods.PodsMakeValidRuns | src/redis/rate-limit.ts:80-95 | Requests of any number of pods never share a member, so the results on runs apply to them. |
| RateLimitPods.EveryDecision | src/redis/rate-limit.ts:27-47 | After any run, a call whose timestamp is not behind is admitted exactly when fewer than limit admissions lie in (now - window, now]. |
| RateLimitPods.NoWindowExceedsLimit | src/redis/rate-limit.ts:27-47 | With timestamps in order and clocks within the key's margin no interval of one window length, anywhere in any run of any pods, holds more than limit admissions. |
| RateLimit.KeyPerClient | src/redis/rate-limit.ts:88 | Different clients have different keys. |
| RateLimitClients.ClientsAreApart | src/redis/rate-limit.ts:80-95 | Of any series of requests of any clients to any pods, those of one client are a run of the limiter for that client alone: its set, its admissions and its members are those of the run. |
| RateLimitClients.EveryClientIsLimited | src/redis/rate-limit.ts:27-47 | So whoever else is served, no window of a client whose timestamps are in order holds more than limit admissions. |
| RateLimitClients.EveryClientIsDecidedAlone | src/redis/rate-limit.ts:27-47 | And its next request is admitted exactly if fewer than limit of its own admissions lie in the window that ends there. |
| RateLimitClients.Check | src/redis/rate-limit.ts:80-95 | The code of a pod makes exactly that step. |
| RateLimitOrder.PromiseNeedsOrder | src/redis/rate-limit.ts:27-95 | For every limit, window and difference of clocks: no window of any run exceeds the limit if and only if the clocks agree, or the limit is one and the difference at most half the key's margin, or limit or window is zero. |
| RateLimitOrder.OrderNeedsMargin | src/redis/rate-limit.ts:27-47 | Over the runs whose timestamps do not go back: if and only if the difference is at most half the key's margin, or limit or window is zero. |
| Cache.TtlWithJitter | src/redis/cache.ts:60-66 | The time to live lies between base and base + jitter. |
| Cache.TtlIsUniform | src/redis/cache.ts:60-66 | Each second from base to base + jitter is given for an equal share of the random numbers. |
| Cache.HitIsImmediate | src/redis/cache.ts:91-107 | A value that is there is the answer at the first look and at any poll, without lock or load. |
| Cache.MissGoesOn | src/redis/cache.ts:91-107 | Null, nothing or an expired value sends a reader to the lock or back to waiting. |
| Cache.LoadsAreTimed | src/redis/cache.ts:103-119 | A load begins and is counted at a vain look under the lock or a vain wait, and is recorded with that time and what it gave. |
| Cache.MutualExclusion | src/redis/cache.ts:90-124 | In any run at most one reader is between taking and releasing the lock with its lock time not yet run out. |
| Cache.OnlyTheOwnerUnlocks | src/redis/cache.ts:46-51 | In any run the only step that ends or replaces a lock that has not run out, its owner at work, crashed or gone, is the unlock of the one reader with its token. |
| Cache.OwnerHasTheLock | src/redis/cache.ts:90-124 | In any run a reader between taking and releasing the lock has it, with its token, for the whole time to live. |
| Cache.BoundedStaleness | src/redis/cache.ts:73-125 | Every answer is the value of some load; a cached one is not null and its load started less than base + jitter + the longest load-and-write time before, even when old loads overwrite newer ones. |
| CacheBurst.SingleFlight | src/redis/cache.ts:90-125 | If load and write end within the lock's time to live and the wait, the value is not null and stays cached, any number of readers of a cold key make one load and all get its value. |
| CacheBurst.SingleFlightExactly | src/redis/cache.ts:90-125 | Every run in time costs at most one load if and only if the value is not null, load and write end before the lock runs out, and nobody who polls meanwhile can look at the clock after the deadline while the value lasts. |
| CacheBurst.NullIsLoadedEveryTime | src/redis/cache.ts:91-92 | n readers of a null value, one after the other in no time and within any limits, make n loads. |
| CacheReader.CacheAside.WaitForValue | src/redis/cache.ts:101-108 | The polling loop returns the first value a poll finds, or nothing after all polls up to the deadline found none. |
| CacheReader.CacheAside.Read | src/redis/cache.ts:90-125 | A hit changes nothing; a reader with the lock loads once and leaves value and lock right; one without it leaves both alone and loads only after a vain wait. |
| Workers.NeverTwice | src/demo-workers.ts:45-123 | In every reachable state, lost workers and unheard commits included: no task row in the hands of two workers, processed is 1 exactly for done rows and never more, counts never exceed what was processed. |
| Workers.CountsAreTheirOwn | src/demo-workers.ts:102-119 | In every reachable state a worker's count is the number of done rows that bear its name; one that was lost may be one short. |
| Workers.WorkerGoesRound | src/demo-workers.ts:92-123 | A success is counted and starts the idle rounds anew, an empty scan is an idle round, the third in a row is the last. |
| Workers.SurvivorFinishes | src/demo-workers.ts:92-123 | Whatever was lost before, if from some moment nothing fails and one worker is at the start of a query after a success or its first, no row is pending once all are gone. |
| Workers.PoolFinishes | src/demo-workers.ts:84-126 | If no transaction fails, once all workers exited every row was processed exactly once and the workers' counts add up to the number of rows. |
| Workers.PoolStops | src/demo-workers.ts:92-123 | Every run is shorter than a known bound, and it can only end with all workers gone: none ever waits. |
| Workers.TaskTable.ClaimWithSql | src/demo-workers.ts:45-55 | The claim is the first pending row nobody has locked, or nothing if there is none. |
| Workers.TaskTable.RunWorker | src/demo-workers.ts:84-126 | A worker alone does each free row once, touches no other, counts them, and stops after three idle rounds. |
| OrderEvents.ReplayIsComplete | src/orders/order-events.service.ts:75-78 | The replay is exactly what was missed if and only if that is at most a hundred events; else it is the last hundred. |
| OrderEvents.NothingForTheFuture | src/orders/order-events.service.ts:75-78 | A client that claims to have seen as many events as there are, or more, is sent none. |
| OrderEvents.OrderEventsService.Publish | src/orders/order-events.service.ts:54-69 | The event gets the next number of its order, the ring stays the last min(100, n) events, subscribers get it, other orders are untouched. |
| OrderEvents.OrderEventsService.ReplaySince | src/orders/order-events.service.ts:75-78 | The answer from the ring is that of the whole history cut to its last hundred events. |
| OrderEvents.OrderEventsService.LastEventId | src/orders/order-events.service.ts:81-83 | The last number is the number of events ever published for the order. |
| OrderEvents.Resumption | src/orders/orders.controller.ts:76-84 | A client never more than a hundred behind when it connects sees, over all connections, each event of its order once, in order, without gaps. |
| OrderEvents.TooLateSkips | src/orders/orders.controller.ts:76-84 | One that comes later and reads on has skipped exactly the events before the last hundred. |
| Orders.OrdersService.UpdateStatus | src/orders/orders.service.ts:87-100 | The status of the one order with that id changes and one event tells of it, numbered next, from the old status to the new; an unknown id changes nothing. |
| Orders.BookAfterUpdate | src/orders/orders.service.ts:87-100 | Each event's previous status stays the status of the event before it, and the last event's status the order's. |
| Orders.OrdersService.Create | src/orders/orders.service.ts:103-141 | A new key makes one order with the next id and the catalogue's total; a known key makes none and gets its order as it is now, or is refused for another body; a missing product leaves no trace. |
| Orders.TotalOfOne | src/orders/orders.service.ts:119-126 | One item costs its quantity times its price, or names itself as missing. |
| Orders.TotalOfBoth | src/orders/orders.service.ts:119-126 | Items cost the sum of what they cost apart; the first missing product is named. |
| Orders.CreateTwice | src/orders/orders.service.ts:103-141 | The same call again gets the same order and makes no second one, though prices changed. |
| EventStream.CutAnywhere | src/orders/orders.controller.ts:70-86 | Whatever the stream, a client cut off anywhere has dispatched a prefix of what the whole stream dispatches. |
| EventJson.EventIsRead | src/orders/orders.controller.ts:128-130 | Reading the JSON text of an event by its member names gives the event back, whatever its strings hold. |
| Sse.EventsComeThrough | src/orders/orders.controller.ts:72-86 | A client that parses a whole response and reads its data has the events themselves, in order, each under its number, as order.status, and comes back after 1000 ms. |
| Sse.EventsArePrintable | src/orders/orders.controller.ts:128-130 | The id and JSON text of any event have no line break and no NUL, whatever its strings hold. |
| Sse.StreamRoundTrip | src/orders/orders.controller.ts:72-86 | Parsing the retry line and any interleaving of events and pings gives exactly the events in order, each with its id; pings dispatch nothing and keep the last id; the reconnection time is 1000. |
| Sse.BrokenStream | src/orders/orders.controller.ts:72-86 | Of a response cut anywhere the client has seen the first events and no others, and its last event id is that of the last one seen, or what its buffer began with. |
| Sse.ResumesAfterCut | src/orders/orders.controller.ts:70-90 | A client that kept its id and had seen n events, cut off anywhere in the text of the rest, has read the next m events as they are, reports n + m, and is then sent exactly what follows, if and only if that is at most a hundred events. |
| Sse.NumberInText | src/orders/orders.controller.ts:133-136 | The number a header begins with is read, after any white space and before anything else. |
| Sse.SpacesAre | src/orders/orders.controller.ts:133-136 | White space is what ECMAScript takes for it. |
| Sse.SignBeforeNumber | src/orders/orders.controller.ts:133-136 | A plus sign before the number does not matter, a minus sign means 0. |
| Sse.EventIdRoundTrip | src/orders/orders.controller.ts:128-136 | Reading an id undoes printing it. |
| Sse.GarbageMeansFromTheStart | src/orders/orders.controller.ts:132-136 | No header, or one that does not begin with a number, means 0. |
| Sse.ComingBack | src/orders/orders.controller.ts:76-79 | The printed id of the last event seen gets exactly the events after it, if and only if they are at most a hundred. |
| Sse.OpeningForgetsTheId | src/orders/orders.controller.ts:70-90 | A client that follows the standard reports all it has seen after a cut if and only if it had seen nothing, or the cut comes before the end of the opening or after the first event; else it reports nothing and is sent the buffer, which is what it misses only if that is exactly a hundred events. |
| Sse.ForgottenAfterTheOpening | src/orders/orders.controller.ts:70-72 | The failing inputs: any id but 0 and a connection that breaks right after the opening. |
| Sse.OrderStream.Replay | src/orders/orders.controller.ts:76-79 | The handler first writes exactly the missed events, each readable as itself, the header winning over the query. |
| Sse.OrderStream.OnEvent | src/orders/orders.controller.ts:81-84 | Then each event of its own order, readable as itself, and no other. |
| Base64Url.DecodeOfEncode | src/common/pagination.ts:7-14 | Decoding undoes encoding for all bytes. |
| Base64Url.CharsAreTheTable | src/common/pagination.ts:7-9 | The characters are those of table 2 in section 5 of RFC 4648, in its order. |
| Base64Url.SplitKeepsBits | src/common/pagination.ts:7-9 | Three bytes and their four sextets are the same number; one or two bytes get zero bits at the end. |
| Base64Url.SplitByGroups | src/common/pagination.ts:7-9 | Groups of three bytes are written one after the other. |
| Base64Url.EncodeIsUrlSafe | src/common/pagination.ts:7-9 | A token has only letters, digits, - and _, four characters for three bytes. |
| Pagination.CursorRoundTrip | src/common/pagination.ts:7-21 | decodeCursor undoes encodeCursor for every safe integer, with any JSON parser that reads what JSON.stringify prints. |
| Pagination.CanonicalParseIsFaithful | src/common/pagination.ts:14-15 | There is such a parser: the one that accepts the printed form only. |
| Pagination.CursorTextIs | src/common/pagination.ts:7-9 | A cursor holds {"o":n}. |
| Pagination.CursorsTaken | src/common/pagination.ts:11-21 | No cursor means 0; a token is taken exactly if its o is a whole number from 0, and any other is refused with the one message. |
| Pagination.PageHolds | src/common/pagination.ts:25-31 | A page holds the rows from its offset on, as many as asked for or the default, and the cursor of the row after them exactly if there is one. |
| Pagination.BothFormsAgree | src/products/products.service.ts:43-58 | The limit+1 query gives the same answer as paginate, errors included, exactly for cursors whose offset is a bigint. |
| Pagination.WalkIsComplete | src/common/pagination.ts:25-31 | Following next_cursor with any limits of at least one, items appended meanwhile, yields a prefix of the collection without loss or repetition, and all of it exactly when there is no next cursor. |
| Pagination.WalkEnds | src/common/pagination.ts:25-31 | The walk is over once the limits asked for cover the collection. |
| Retry.WithRetry | src/retry.ts:70-101 | The work runs at least once and at most max(1, maxAttempts) times, again only after 40001 or 40P01; attempts, retries and delays are those of the failed runs; the last error is thrown on. |
| Retry.RetryableAre | src/retry.ts:57-60 | Only 40001 and 40P01 are worth another attempt. |
| Retry.Defaults | src/retry.ts:74-75 | Six attempts and 15 ms unless the caller says otherwise. |
| Retry.DelayIs | src/retry.ts:86-88 | A delay is base times 2^(n - 1) times (1/2 + random), to the nearest millisecond. |
| Retry.FirstLineIs | src/retry.ts:92 | The log keeps the message up to its first line break. |
| Retry.DelaysAreGeometric | src/retry.ts:86-88 | The delays after n failures add up to between half and one and a half of the sum of the bases, give or take half a millisecond each. |
| Retry.BaseSumIsGeometric | src/retry.ts:86-88 | That sum is base times (2^n - 1). |
| LostUpdates.NoLostUpdates | src/demo-retry.ts:52-71 | Under REPEATABLE READ with the wrapper the balance is at every moment start less one decrement for each commit, and commits are the successes plus those nobody heard of. |
| LostUpdates.EnoughAttempts | src/demo-retry.ts:105-125 | Some schedule makes a client give up if and only if it may try fewer times than there are clients. |
| LostUpdates.AllButOneLost | src/demo-retry.ts:87-94 | Under READ COMMITTED all of any number of clients can succeed and leave one decrement. |

## Left out

- The HTTP layer, Nest modules, validation against the OpenAPI document, problem+json, health checks, configuration: wiring. The 404 before a stream opens is part of this.
- The WebSocket gateway, `app.cjs`, the session store, the job queue wrapper, the repositories, seeds, migrations, reports and backup scripts.
- Demo drivers other than `runWorker` and `readModifyWrite`; deletion of orders, which only they do.
- Catalogue edits: prices and products do not change while orders are placed. Initially there are no orders, outbox rows or keys.
- Foreign-key locks of inserts, and the row lock Postgres keeps after a re-check that failed: the next step of such a transaction only reads and rolls back.
- Ids that are not numbers and quantities that are not finite; identity values beyond bigint.
- The JSON text of the order event between relay and consumer: a structured value stands for it. Forged but readable messages are not sent; unreadable ones are.
- Relay batches are picked in one step; the attempts column is in `Relay` only, not in `Delivery`.
- The order of equal scores in the sorted set, which no answer depends on. Redis failures other than at the steps named in `Cache`.
- Cached values are opaque strings or null, and the keys of the cache do not interact, so one key is modelled. Floating-point rounding of Math.random() products.
- The idle delay and the working time of workers; two forms of the claiming query that are one query to Postgres.
- `OrdersService.list`: it is `Pagination.Paginate` on the order book.
- Orders.OrdersService.Create: stated for calls that do not overlap, because the source awaits the catalogue between its look at the key and its write of the key. The hash of the body is an input.
- Pagination.DecodeCursor: JSON.parse and Number() are a parameter; the base64url reader passes over characters of no alphabet, in whatever place.
- Sse.ParseEventId: ids beyond 2^53, which a number would round.
- CacheReader.CacheAside.Read: one reader alone; what others write during its wait is a function of time. The interleavings are in `Cache`.
- OrderEvents.Resumption: for clients that report the id of the last event they saw; see `Sse.OpeningForgetsTheId`.
