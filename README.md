# wb-tech-backend order core, modelled in Dafny

This model covers the ingestion, persistence and cache path of the wb-tech-backend order service.

- **Ingestion.** An order message arrives on the bus. It is decoded and validated. Only a message that passes is handed to the service.
- **Persistence.** The service's write is the repository's `AddOrder`. Inside one transaction it decomposes the composite order into table rows:
  - one delivery row;
  - one payment row;
  - one item row per item, in input order;
  - one order row that carries the generated delivery id, the payment id and the ordered list of item ids.

  It then puts the input order into the in-process cache, but only when the order insert hands back the order's own uid.
- **Reads.** Point reads (`GetOrder`) are answered from the cache alone. List reads (`ListOfOrders`) go to the store through `GetOrders`, which joins orders with their deliveries and payments.
- **Warm-up.** `NewRepository` fills the cache from `GetOrders` and then adds a built-in test order.

Modules:

- `Entities` holds the row and composite records and the `validate` tags of a delivery.
- `Store` is the four tables and their id counters as a value (`Db`), together with:
  - the statement plan of a write;
  - the decomposition `Decompose` and the recomposition `Recompose`;
  - the joined read and the cache fold;
  - the lemmas about all of these.
- `Repository` is a class whose fields are the tables, the counters and the cache. Its methods update them in place. A transaction is modelled as follows: take a snapshot, run the closure body, and restore the snapshot on any error.
- `Service` and `Nats` model the facade and the bus callback.

The store's own behaviour is a parameter of the model:

- `Answers` says which statements of a write fail and which uid the order insert returns.
- `ReadFaults` says which queries of `GetOrders` fail, and a predicate over `Query` says which queries of `GetOrders2` fail.
- A failed connection is a boolean parameter.

The JSON decoder, the `validate` tags of the composite order and the validator's email rule are function parameters.

The central results are:

- `Store.RoundTrip`: recomposing the rows written for `o` gives back `o`.
- `Repository.Repository.AddOrder`: all or nothing, with the cache written only on success.
- `Store.AddKeepsCoherent` and `Store.WarmedCoherent`: the cache stays coherent with the tables across warm-up and every write.

## Model

| member | source | states |
|---|---|---|
| Entities.DeliveryValid | internal/repository/entities.go:5-14 | a delivery is valid iff its seven fields name, phone, zip, city, address, region and email are non-empty and `isEmail(email)` holds |
| Entities.PaymentValid | internal/repository/entities.go:16-28 | every payment is valid: Payment carries no `validate` tags |
| Entities.ItemValid | internal/repository/entities.go:30-43 | every item is valid: Item carries no `validate` tags |
| Entities.ZeroOrder | internal/service/service.go:43 | the zero order: every string empty, every number 0, no items |
| Entities.RowOf | internal/repository/repository.go:112-115 | the order row keeps every scalar field of the order and carries exactly the given delivery id, payment id and item id list |
| Entities.Compose | internal/repository/repository.go:318-333 | the recomposed order keeps every scalar field of the row and carries exactly the given delivery, payment and items |
| Entities.ComposeRowOf | internal/repository/repository.go:318-333 | composing the row built from `o` with o's own parts gives back `o` |
| Store.Linked | internal/repository/repository.go:112-115 | the row stored under a uid carries that uid, and its delivery id, its payment id and each of its item ids name an existing row |
| Store.Valid | internal/repository/repository.go:57-115 | every id in a table lies below that table's counter, so the next id is fresh, and every order row is linked |
| Store.Empty | cmd/main.go:31-37 | the tables as the migrations create them, with no rows, satisfy the store invariant (all ids below their counters, every order row linked) |
| Store.Plan | internal/repository/repository.go:57-116 | the statements of a write, in order: delivery, payment, one item insert per item in input order, order row; n + 3 statements in all |
| Store.ItemSteps | internal/repository/repository.go:92-111 | the k-th item statement inserts item k; n statements in all |
| Store.PlanAt | internal/repository/repository.go:57-116 | statement 0 is the delivery insert, 1 the payment insert, 2 to n + 1 the item inserts in input order, n + 2 the order row |
| Store.FirstFailure | internal/repository/repository.go:61-127 | the first failing statement: None iff no statement fails; otherwise it fails and every earlier statement succeeds |
| Store.FirstFailureAt | internal/repository/repository.go:61-127 | a failing statement preceded only by succeeding statements is the first failure |
| Store.Outcome | internal/repository/repository.go:61-133 | AddOrder's error: the first failing statement of the plan if there is one, else the mismatch when the returned uid is not the input uid, else none |
| Store.OutcomeAtFailure | internal/repository/repository.go:61-127 | when statement i is the first to fail, the write reports that statement and reaches (`Attempted`) exactly statements 0..i |
| Store.OutcomeWithoutFailure | internal/repository/repository.go:116-133 | when no statement fails, the write reaches every statement and succeeds iff the returned uid is the input uid, else it reports the mismatch |
| Store.Attempted | internal/repository/repository.go:57-127 | the statements the write reaches: the plan up to and including the first failing statement, or the whole plan; Transact leaves the rows of all but a failing last one |
| Store.AttemptedAtFailure | internal/repository/repository.go:61-127 | the write reports a failed statement iff some statement fails, and then it reaches one statement more than the position of that failure |
| Store.OutcomeSpec | internal/repository/repository.go:56-134 | success iff every statement succeeds and the uid comes back; a reported failing statement is the last one the write reaches; the statements reached are a prefix of the plan, and every one before the last succeeds |
| Store.ItemIds | internal/repository/repository.go:91-111 | the `itemsIds` list of a write: the k-th entry is the counter plus k, one entry per item inserted |
| Store.ItemRows | internal/repository/repository.go:91-111 | the rows inserted for the items are keyed exactly by the consecutive ids from the counter, and id start + k holds item k |
| Store.ItemRowsKeys | internal/repository/repository.go:91-111 | the item rows' keys are exactly the generated item ids |
| Store.ItemIdsSnoc | internal/repository/repository.go:110 | one more loop round appends the next generated id to `itemsIds` |
| Store.ItemRowsSnoc | internal/repository/repository.go:93-109 | one more loop round adds the row of the next item under the next id |
| Store.Written | internal/repository/repository.go:57-111 | the tables after the first m statements of a write went through; the orders table is untouched |
| Store.WrittenItems | internal/repository/repository.go:91-111 | past the delivery and payment rows, each further statement adds the next item row under the next item id |
| Store.WrittenThenOrderRow | internal/repository/repository.go:112-116 | the full write is the delivery, payment and item rows followed by the order row carrying their ids |
| Store.Decompose | internal/repository/repository.go:57-116 | the tables after the full write of `o`: its delivery, payment and items under the next ids, the counters advanced past them, and the order row under o's uid carrying those ids |
| Store.DecomposeRow | internal/repository/repository.go:112-115 | the order row written is stored under o's uid with the new delivery and payment ids, and the k-th item id holds the k-th item |
| Store.DecomposeAddsOnly | internal/repository/repository.go:57-115 | on a valid store the write adds exactly one delivery row, one payment row, one row per item and the order row under fresh ids, and every earlier row keeps its value |
| Store.DecomposeValid | internal/repository/repository.go:55-135 | the write keeps the store invariant |
| Store.LookupItems | internal/repository/repository.go:300-317 | the lookup succeeds iff every id has an item row, and then yields the items in id-list order |
| Store.Recompose | internal/repository/repository.go:256-335 | GetOrders2's composite order for one uid: none when no row is stored under it, else the recomposition of that row |
| Store.RecomposeRow | internal/repository/repository.go:269-333 | a row recomposes iff its delivery, its payment and all its item ids exist, and then into the order with the row's scalar fields, those records and the items in list order |
| Store.ValidRecomposes | internal/repository/repository.go:245-337 | on a valid store every order row recomposes, into an order carrying its own uid |
| Store.RoundTrip | internal/repository/repository.go:300-333 | recomposing the rows that the write of `o` produced gives `o` back, including its item order and count |
| Store.DecomposeKeepsOthers | internal/repository/repository.go:55-135 | on a valid store, writing `o` leaves every other stored order reading back as before |
| Store.JoinedUids | internal/repository/repository.go:188-217 | the uids whose order row finds both its delivery row and its payment row, as the inner join does |
| Store.Joined | internal/repository/repository.go:188-217 | the order of a joined row: the row's scalar fields, its delivery and payment, and no items |
| Store.JoinedOnValid | internal/repository/repository.go:188-217 | on a valid store every order row survives the join, and each joined order carries its row's uid |
| Store.JoinedDropsItems | internal/repository/repository.go:188-244 | on a valid store the joined order is the recomposed order with an empty item list |
| Store.JoinedReadUids | internal/repository/repository.go:201-217 | the orders read from the join, one per row, have distinct uids and cover exactly the stored uids |
| Store.Upserted | internal/repository/repository.go:42-44 | upserting orders into a cache gives a cache whose keys are the old keys plus the orders' uids |
| Store.UidsSnoc | internal/repository/repository.go:42-44 | the uids of a list are the uids of its prefix plus the uid of its last order |
| Store.UpsertedDistinct | internal/repository/repository.go:42-44 | upserting orders with distinct uids caches each under its own uid and leaves every other entry as it was |
| Store.UpsertedJoin | internal/repository/repository.go:38-44 | upserting the orders read from the join of a valid store into an empty cache caches exactly the stored uids, each under its joined order |
| Store.WarmedFromJoin | internal/repository/repository.go:38-51 | warming an empty cache from the join of a valid store and then adding the test order caches every stored uid, and the test uid; each stored uid holds its joined order, except that the test order overwrites its own uid |
| Store.Coherent | internal/repository/repository.go:38-51 | every stored uid is cached, and every cached entry is either the test order under its own uid or the stored order under that uid, recomposed with or without its items |
| Store.WarmedCoherent | internal/repository/repository.go:24-53 | the warmed cache is coherent with the store |
| Store.AddKeepsCoherent | internal/repository/repository.go:129-131 | a successful write of `o`, with `o` cached under its uid, keeps the cache coherent with the store |
| Repository.TestOrder | internal/repository/repository.go:45-50 | the order decoded from the built-in JSON text, field for field, under uid "b563feb7b2b84b6test" with one item |
| Repository.WarmLosesItems | internal/repository/repository.go:38-44 | after the test order is written to empty tables, it recomposes in full, but its joined order, which is what warm-up caches, is a different value because its item is gone |
| Repository.ReadsFail | internal/repository/repository.go:194-241 | GetOrders fails iff the join query is rejected, or an item query is rejected while some row joins (the item loop runs once per joined row) |
| Repository.ItemQueriesPass | internal/repository/repository.go:300-317 | none of the first n item queries of an order's row is rejected |
| Repository.RowReads | internal/repository/repository.go:269-317 | GetOrders2 reads a row in full iff its delivery and payment queries and one item query per item id go through, and the delivery, payment and item rows they look for all exist |
| Repository.Repository.constructor | internal/repository/repository.go:31-37 | a repository over the given tables with an empty cache |
| Repository.Repository.NewRepository | internal/repository/repository.go:24-53 | a failed connect or a failed GetOrders returns no repository and that error; otherwise the tables are as given, the cache holds every joined stored order under its uid plus the test order under "b563feb7b2b84b6test" (written last), and the cache is coherent |
| Repository.Repository.Warm | internal/repository/repository.go:42-44 | the cache afterwards is the old cache with every order upserted in list order |
| Repository.Repository.Restore | internal/repository/repository.go:56 | rollback: the tables and counters are put back to the snapshot, and the cache is untouched |
| Repository.Repository.AddOrder | internal/repository/repository.go:55-135 | the error is that of the first failing statement or the uid mismatch; on error the tables and the cache are unchanged; on success exactly the write of `o` appears and the cache maps o's uid to `o`; the store invariant and cache coherence are kept; after success `o` reads back from the tables |
| Repository.Repository.Transact | internal/repository/repository.go:56-134 | the error is the outcome; when statement i is the first to fail, the tables hold exactly the rows of statements 0..i-1, which are all but the last statement reached; when none fails (success or uid mismatch) the tables hold the full write; the cache holds `o` only on success |
| Repository.Repository.InsertParts | internal/repository/repository.go:57-111 | delivery, payment and item inserts in plan order, stopping at the first failure with its plan position; the tables then hold the rows of the statements before it (all of them on success), with the ids generated so far |
| Repository.Repository.InsertHead | internal/repository/repository.go:57-90 | the delivery insert, then the payment insert; it reports the first that fails, and the tables hold the rows of the statements before it |
| Repository.Repository.InsertDeliveryRow | internal/repository/repository.go:57-73 | the delivery row goes in under the next delivery id and the counter advances, unless the insert fails, when table and counter are unchanged |
| Repository.Repository.InsertPaymentRow | internal/repository/repository.go:74-90 | the payment row goes in under the next payment id and the counter advances, unless the insert fails, when table and counter are unchanged |
| Repository.Repository.InsertItems | internal/repository/repository.go:91-111 | item rows in input order under consecutive ids; `itemsIds` has one id per item inserted, the k-th being item k's; it stops at the first failing insert k, leaving exactly the rows, counter and ids of items 0..k-1 |
| Repository.Repository.InsertOrderRow | internal/repository/repository.go:112-133 | the order row carries the generated ids and the scalar fields, and the orders table is unchanged when the insert fails; the cache is written with `o` only when the returned uid equals o's uid, and a mismatch is an error |
| Repository.Repository.LoadItems | internal/repository/repository.go:300-317 | the item loop of the recomposition equals LookupItems on the id list when none of the item queries fails, and fails otherwise |
| Repository.Repository.GetOrders2 | internal/repository/repository.go:245-337 | succeeds iff the orders query and, for every row, its delivery, payment and item queries go through and every row they look for exists; it then returns each stored order once, recomposed |
| Repository.Repository.GetOrders | internal/repository/repository.go:188-244 | fails iff the join query fails or an item query fails for some joined row; otherwise it returns each joined row once, as an order without items; on an empty store it returns the empty list |
| Service.Service.constructor | internal/service/service.go:26-32 | the service wraps the given repository |
| Service.Service.GetOrder | internal/service/service.go:40-46 | hit iff the uid is cached, and then the cached order; a miss gives the zero order and a not-found error; it reads only the cache |
| Service.Service.AddOrder | internal/service/service.go:34-36 | exactly the repository's AddOrder, cache coherence kept; after a success GetOrder of o's uid gives `o` |
| Service.Service.ListOfOrders | internal/service/service.go:37-39 | exactly GetOrders' result and error, which the cache plays no part in; empty on an empty store |
| Service.StartOnEmptyTables | internal/repository/repository.go:38-51 | on tables with no rows the repository comes up unless the join query is rejected; GetOrder then finds the built-in test order, with its one item and its test e-mail address, and reports any other uid as not found |
| Nats.Gate | internal/nats/nats.go:44-66 | the message passes iff it decodes, the order's tags hold and the delivery is valid; otherwise it reports the first failing stage in the order decode, order, delivery; a payment or item never rejects |
| Nats.Nats.constructor | internal/nats/nats.go:33-37 | the consumer wraps the given service |
| Nats.Nats.OnMessage | internal/nats/nats.go:42-71 | a rejected message changes nothing; an accepted one is written by a single AddOrder whose outcome is reported and not retried; cache coherence is kept |

## Left out

- SQL text, the squirrel builder, the pgx pool and row scanning are not modelled, and neither are the query and transaction managers of package pgdb (not part of this model). Each statement is "take the next id of its table or fail", as `Answers` says. A failing `rows.Err()` or `Scan` counts as the statement failing. The inserts and the lookups of GetOrders2 call `rows.Scan` without a `rows.Next()` before it (repository.go:69, 86, 105, 125, 279, 294, 311). Whether that fails depends on the rows that the pgdb query manager returns, which are not part of this model. If it fails, every AddOrder fails at the delivery insert (`a.fails(InsertDelivery)`), and GetOrders2 fails at the first delivery lookup.
- Commit of the transaction is assumed to succeed. The closure writes the cache before the commit (internal/repository/repository.go:130). A commit failing after that write would leave the cache holding an order that the tables do not have, and the model does not show that case.
- Restore: rollback also restores the id counters. Postgres sequences are not rolled back, so real ids can have gaps. The model relies only on ids being fresh.
- The database schema and its constraints (migrations) are not part of this model. A second write with an existing uid overwrites that order row. A duplicate-key rejection would be one more `Answers` failure.
- GetOrderById is not modelled. Its item query joins on `o.item_id`, a column the order row lacks.
- Repository.Repository.GetOrders2: a failed query, row error or scan is the `Query` it belongs to failing; the model does not tell the three apart.
- Repository.Repository.GetOrders2: the source queries tables `delivery` and `payment` (repository.go:269, 285), which are not the `deliveries` and `payments` that the inserts write. It also calls `rows.Close()` inside its row loop (repository.go:267), so it ends after one row. The model reads the tables the inserts write and goes over every row, because it models the recomposition strategy.
- Repository.Repository.GetOrders: its per-order item loop (repository.go:219-241) appends to a copy of the order, so the orders it returns have no items (see Findings). The loop is kept only as a possible failure, through `ReadFaults.itemQueryFails`. That item query joins on `o.item_id` (repository.go:221), a column the order insert never writes. If the orders table has no such column, the query fails whenever some row joins: `itemQueryFails` holds, and NewRepository then fails on every non-empty store. A scan error in the join loop is folded into `joinQueryFails`. An error that ends `rows.Next()` early in the join loop (repository.go:202-218) is never checked, since the only `rows.Err()` call (repository.go:198) comes before the loop. The source can then return a prefix of the joined rows with no error. The model does not have that case: its GetOrders returns every joined row or fails. So NewRepository's complete cache, and `Coherent` after warm-up, hold for the source only when the join iteration runs to the end; the same goes for the list that ListOfOrders returns.
- The order of rows in a query result is unspecified. The model picks rows in an arbitrary order and states results for every order.
- Nats.Gate: the callback validates the records of package models, whose tags are not part of this model; those of models.Delivery, models.Payment and models.Item are taken to be the tags of entities.go. `orderTagsOk` stands for the whole check of the order struct. The validator descends into nested structs, so that check may already reject a bad delivery, which then counts as `OrderInvalid`.
- Entities.ZeroOrder: Go tells a nil item slice from an empty one; JSON encodes them as null and [] respectively. The orders of GetOrders and the zero order have a nil slice, and GetOrders2 builds an empty one. The model has the empty sequence for both.
- JSON decoding, the `validate` tags of the composite order and the validator's email rule are function parameters (`decode`, `orderTagsOk`, `isEmail`). The composite order type of package models is not part of this model. Its shape is the one that GetOrders2 builds (repository.go:318-333).
- Decoding the built-in test order's JSON text is taken to succeed. The result is written out as the constant `TestOrder`.
- `time.Time` is an opaque value (`Time`) compared by equality.
- The 64-bit ids and the integer fields are unbounded; wrap-around is not modelled.
- The NATS connection, the subscription, the busy-wait on `sub.IsValid()`, unsubscribing, the wait group and logging are transport and are not modelled.
- Concurrent, unsynchronised access to the cache is not considered. The model is sequential.
- The HTTP handlers and server, config loading, the process bootstrap in cmd/main.go and the publisher in cmd/pub/main.go are outside the core.
- Service.Service.GetOrder: the text of the not-found error is not modelled. The error is modelled as `NotFound(orderId)`.

## Findings

| source | as written | input that shows it | evidently intended | confidence | as-written member | corrected member |
|---|---|---|---|---|---|---|
| internal/repository/repository.go:219-241 | `for _, order := range orders` appends each item to the loop's copy of the order, so the orders that GetOrders returns, and that NewRepository caches, have no items | the test order written to tables with no rows: its joined order has an empty item list, but the order has one item | each order returned with its items in list order, as GetOrders2 builds it | not executed | Repository.WarmLosesItems | Store.RoundTrip |
