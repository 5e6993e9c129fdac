# skynet-accounts: history queries, tier billing and email checks in Dafny

This project models three pieces of decision logic from the Skynet accounts service (`skynet-accounts`), with MongoDB calls and billing calls replaced by their outcomes.

1. **Upload and download history.** The service lists a user's uploads and downloads a page at a time. Each list comes from a seven-stage MongoDB aggregation:
   - `$match` on the caller's filter;
   - `$sort` on `timestamp`, newest first;
   - `$skip` the offset, then `$limit` to the page size;
   - `$lookup` into `skylinks`;
   - `$replaceRoot` with `$mergeObjects`, which overlays each record on its skylink;
   - `$project`.

   The number of matching records comes from a two-stage `$match`/`$count` aggregation.

   The model defines each stage list as a `seq<Stage>`. It also defines a small interpreter for the stages over in-memory collections, with records as `map<string, Value>`. On top of that interpreter it proves:
   - the row count of a page;
   - the newest-first order;
   - which fields of a record win over its skylink's;
   - the download size rule;
   - the count.

   The same file builds the MongoDB connection string and provisions the collections and indexes the service needs; both are modelled as well.
2. **Subscription tiers.** Four things are modelled:
   - The billing webhook classifies events by their type.
   - `processSub` reconciles a user's tier and expiry with a subscription, and saves only when something changed.
   - The plan table maps billing products to tiers; `planForTier` is its inverse.
   - `assignTier` updates the billing side first and the database second. When the database update fails, it reverts the billing side once.
3. **Email validation.** A recogniser checks an address against the anchored pattern `^[A-Z0-9a-z._%+-]+@[A-Za-z0-9.-]+\.[A-Za-z]{2,64}$`. It cuts the address at its first `@` and at the last `.` after it. The model proves the recogniser equivalent to the language the pattern denotes.

The modules, in dependency order:

| file | module | contents |
|---|---|---|
| outcomes.dfy | Outcomes | `Option`, `Result`, errors with context, and `errors.Compose` |
| documents.dfy | Documents | BSON-like values, documents, field lookup, `$gt`, the sort key |
| aggregate.dfy | Aggregate | the stage datatype and the interpreter |
| pipelines.dfy | Pipelines | the two history pipeline builders, and what each stage makes of a page |
| history.dfy | History | row count, order, and rejection of bad page parameters |
| count.dfy | Counting | the `count` query and its decoding |
| strings.dfy | Strings | `strings.Contains`, and cutting at the first or last occurrence of a character |
| connection.dfy | Connection | the connection string and reading it back |
| schema.dfy | Schema | the index table, `ensureCollection`, and provisioning a catalog |
| tiers.dfy | Tiers | the plan table, `planForTier`, and the tier of a product |
| subscription.dfy | Subscriptions | `processSub` over a user store |
| assign.dfy | AssignTier | `assignTier` with its compensating call, and the new-customer parameters |
| webhook.dfy | Webhook | the webhook's event dispatch and responses |
| email.dfy | Email | `Email.Validate` |

Things outside Dafny are parameters of the functions that use them:
- A failure of an external call is an `Option<Error>` parameter. This covers the aggregate call, the user lookup and save, the billing update, the collection creation and the index creation. The subscription fetch is a function parameter returning a `Result`.
- Each JSON decoder is a function parameter that returns a `Result`.
- `url.QueryEscape` is a function parameter.
- Go visits maps in no fixed order, so the model takes the order as a parameter. Every order gives `planForTier` the same plan. For provisioning, every order of the same collections succeeds or fails alike and succeeds with the same catalog. Which error a failing provisioning returns can depend on the order.

## Model

| member | source | states |
|---|---|---|
| Outcomes.Compose | api/stripe.go:201 | composing errors drops the absent ones: the result is none exactly when every input is none; otherwise it is a composite holding exactly the present errors, in argument order |
| Outcomes.PresentAppend | api/stripe.go:201 | the present errors of two argument lists are those of the first followed by those of the second |
| Outcomes.PresentLast | api/stripe.go:201 | each argument adds its error, if any, behind the errors of the arguments before it |
| Outcomes.ComposeTwo | api/stripe.go:189-201 | composing an error with a possibly-nil second one gives a composite of the first followed by the second, when there is one |
| Aggregate.Filter | database/database.go:284 | `$match` keeps only records of the input that match the filter, every matching record among them, and never more records than the input |
| Aggregate.FilterKeepsMatches | database/database.go:284 | each matching record is kept as often as it occurs in the input, and no other record is kept |
| Aggregate.FilterKeepsOrder | database/database.go:284 | the kept records are in the order of the input |
| Aggregate.SortBy | database/database.go:263 | `$sort` returns a permutation of its input that is ordered on the key |
| Aggregate.Joined | database/database.go:266-273 | `$lookup` joins a record to exactly the foreign documents whose `_id` equals its `skylink_id`, a missing field counting as null |
| Aggregate.MergeFirst | database/database.go:274-282 | the merged root keeps every field of the record with its value |
| Aggregate.MergeAll | database/database.go:274-282 | `$replaceRoot` succeeds exactly when it succeeds on every record, keeping the count and order of records |
| Aggregate.ProjectAll | database/database.go:283 | `$project` fails exactly when its entries mix inclusion and exclusion; otherwise it projects each record in place |
| Aggregate.StepKeeps | database/database.go:263-284 | `$match` and `$lookup` always succeed, `$match` never adds a record and `$lookup` keeps one per input; `$sort` succeeds exactly for a direction of 1 or -1 and then keeps the same records |
| Aggregate.StepSlices | database/database.go:264-265 | `$skip` succeeds exactly for a non-negative count and leaves the suffix past it; `$limit` succeeds exactly for a positive count and leaves the prefix of min(count, length) records |
| Aggregate.StepCounts | database/database.go:334 | `$count` succeeds exactly for a valid field name and then yields no row for no input, otherwise one row holding the number of records |
| Aggregate.Run | database/database.go:284 | running no stages returns the input; running one stage is that stage |
| Aggregate.RunAppend | database/database.go:284 | running two stage lists one after the other is running their concatenation |
| Pipelines.UploadsPipeline | database/database.go:262-285 | seven stages: the caller's match stage first and unchanged, then sort on `timestamp` descending, skip, limit, the lookup, the merge, and a projection that removes only `fromSkylinks` |
| Pipelines.DownloadsPipeline | database/database.go:290-329 | the same first six stages as uploads, then an inclusion projection |
| Pipelines.Page | database/database.go:263-265 | the page holds max(0, min(pageSize, matched - offset)) records |
| Pipelines.SkylinkOf | database/database.go:266-273 | the skylink of a record is the first skylink whose `_id` equals the record's `skylink_id`, or none when no skylink matches |
| Pipelines.Enriched | database/database.go:274-282 | the merged record keeps all of its own fields and takes only the fields it lacks from its skylink; a record without a skylink stays as it is |
| Pipelines.UploadRow | database/database.go:283 | an upload row is the merged record with only `fromSkylinks` removed |
| Pipelines.DownloadRow | database/database.go:314-327 | a download row has no field besides `_id`, the five named fields and `size`; every field other than `size` carries the merged record's value; `size` is present exactly when the `$cond` yields a value, and is that value |
| Pipelines.JoinedStartsWithSkylink | database/database.go:266-278 | the join array is empty exactly when there is no skylink; otherwise element 0, the one `$arrayElemAt` reads, is the skylink |
| Pipelines.MergedWithNothing | database/database.go:274-282 | a record whose join array is empty is kept as it is |
| Pipelines.MergedWithFirst | database/database.go:274-282 | a record is overlaid on the first element of its join array, the record's fields winning |
| Pipelines.MergedRecord | database/database.go:274-282 | the merge stage turns a joined record into the enriched record |
| Pipelines.EffectiveSize | database/database.go:320-326 | `bytes` when it is an integer greater than 0 or any non-null non-integer value (BSON orders those above numbers); otherwise the skylink's `size`, absent when that is |
| Pipelines.DownloadsComputesSize | database/database.go:320-326 | the `$cond`/`$gt` entry yields `bytes` when `bytes` is greater than 0 and `size` otherwise |
| Pipelines.DownloadsNames | database/database.go:314-327 | the downloads projection produces no field besides `_id` and the six it names (`skylink`, `name`, `user_id`, `skylink_id`, `timestamp`, `size`) |
| Pipelines.DownloadsProjectionIsRow | database/database.go:314-327 | projecting a merged download gives its download row |
| Pipelines.RunsToLookup | database/database.go:263-273 | the first five stages of either pipeline turn a collection into the joined records of the page |
| Pipelines.MergeStage | database/database.go:274-282 | the merge stage never fails on joined records |
| Pipelines.UploadsProjectStage | database/database.go:283 | the uploads projection turns merged records into upload rows |
| Pipelines.DownloadsProjectStage | database/database.go:314-327 | the downloads projection turns merged records into download rows |
| Pipelines.UploadsPipelineRuns | database/database.go:262-285 | the uploads pipeline returns the upload rows of the page, record by record and in page order |
| Pipelines.DownloadsPipelineRuns | database/database.go:290-329 | the downloads pipeline returns the download rows of the page, record by record and in page order |
| History.PageOfMatches | database/database.go:263-265 | a page is newest first and holds only records of the collection that the filter matches |
| History.HistoryRowCount | database/database.go:263-265 | with offset >= 0 and page size >= 1, both queries succeed with max(0, min(pageSize, matched - offset)) rows, at most the page size, and equally many |
| History.UploadsNewestFirst | database/database.go:263 | every upload row comes from a matched record, and the rows are in non-increasing `timestamp` order |
| History.DownloadsNewestFirst | database/database.go:291 | every download row comes from a matched record, and the rows are in non-increasing `timestamp` order |
| History.RejectsBadPage | database/database.go:264-265 | a negative offset or a page size below 1 makes a history pipeline fail |
| History.HistoryRejectsBadPage | database/database.go:292-293 | a negative offset or a page size below 1 makes both queries fail |
| Counting.CountPipeline | database/database.go:334 | the count pipeline is the caller's match stage followed by `$count` into `count` |
| Counting.DecodeCount | database/database.go:349-355 | decoding the row yields the integer in `count`, 0 when the field is missing, and an error for a non-integer |
| Counting.CountDocs | database/database.go:333-357 | a failed query gives 0 with the "DB query failed" context; an empty result gives 0 and no error; every error comes with the count 0 |
| Counting.CountPipelineRuns | database/database.go:334 | `$count` gives no row when nothing matches, and otherwise one row holding the number of matches |
| Counting.CountIsMatched | database/database.go:345-356 | without a query failure, `count` returns the number of matching records and no error, 0 included |
| Counting.PageSizeFromCount | database/database.go:333-357 | a page of uploads on the same filter holds max(0, min(pageSize, count - offset)) rows |
| Connection.ConnectionString | database/database.go:136-150 | the string begins with `mongodb://` and ends with the fixed options suffix, and its length is that of its parts |
| Connection.ParseConnectionString | database/database.go:139-149 | the escaped user and password and the verbatim host and port can be read back from the string |
| Connection.ConnectionStringInjective | database/database.go:139-149 | with an injective escape, different credentials give different strings |
| Strings.ContainsAt | api/stripe.go:60 | `strings.Contains` holds exactly when the substring occurs at some position |
| Schema.SchemaUniqueIndexes | database/database.go:159-171 | exactly two indexes are unique: `sub_unique` on `users.sub` and `skylink_unique` on `skylinks.skylink` |
| Schema.SchemaIndexedFields | database/database.go:172-203 | there are six collections: uploads and downloads are indexed on `user_id` and `skylink_id`, and the registry collections on `user_id` alone |
| Schema.SchemaTableClashFree | database/database.go:159-204 | no two indexes of one collection in the table share a name or keys |
| Schema.EnsureCollection | database/database.go:223-236 | an existing collection is used as it is; a missing one is created, and the creation's failure is returned |
| Schema.CreateIndexes | database/database.go:210-215 | existing indexes are kept in place, every requested index is present afterwards, and no other index appears |
| Schema.ProvisionCollection | database/database.go:206-215 | one turn of the loop succeeds exactly when the collection exists or is created, `CreateMany` does not fail, and no index clashes; a failure of `CreateMany` comes back with the "failed to create indexes" context |
| Schema.Provision | database/database.go:205-218 | after provisioning, each collection and index that existed is still there; each scheduled collection exists with all its indexes; every other collection is unchanged |
| Schema.ProvisionSettled | database/database.go:205-218 | provisioning a catalog that already has everything changes nothing, when `CreateMany` does not fail |
| Schema.ProvisionIdempotent | database/database.go:205-218 | a second provisioning, in any order and with any collection-creation outcome, changes nothing and does not fail, when `CreateMany` does not fail |
| Schema.ProvisionSucceeds | database/database.go:205-218 | provisioning succeeds in any order when no index clashes and no call fails |
| Schema.ProvisionOkIff | database/database.go:205-218 | over a map's keys (no collection twice), provisioning succeeds exactly when each collection's turn, run on the original catalog, succeeds |
| Schema.ProvisionPerCollection | database/database.go:205-218 | after a successful provisioning each listed collection holds what its own turn made from the original catalog, and every other collection is as it was |
| Schema.ProvisionOrderFree | database/database.go:205 | two visiting orders of the same collections both succeed or both fail, and succeed with the same catalog |
| Schema.ServiceSchemaProvisions | database/database.go:159-218 | the service's own schema table provisions without error, in any order, on a catalog whose indexes do not clash with it, when no call fails |
| Tiers.FindPlan | api/stripe.go:208-215 | the loop returns a plan listed with tier t when one exists, and "" when none does |
| Tiers.TierForPlan | api/stripe.go:147-150 | a listed product grants its tier; an unknown product grants the free tier |
| Tiers.PlanTableFacts | api/stripe.go:28-33 | the plan table lists four plans on four distinct tiers, so no two plans share a tier |
| Tiers.FindPlanAnyOrder | api/stripe.go:208-215 | over any listing of an injective table, the loop returns the one plan of tier t, and "" exactly when no plan has tier t |
| Tiers.PlanForTier | api/stripe.go:208-215 | when some plan has tier t the result is a plan of tier t; when none has, it is "" |
| Tiers.PlanForTierSound | api/stripe.go:208-215 | `planForTier(t)` names a plan of tier t, and is "" exactly when no plan has tier t |
| Tiers.PlanForTierAnyOrder | api/stripe.go:209-213 | every iteration order of the plan map gives the same plan |
| Tiers.PlanForTierInverse | api/stripe.go:208-215 | `planForTier(stripePlans[p]) == p` for every listed plan p |
| Tiers.TierPlans | api/stripe.go:28-33 | each of the four tiers maps to its own plan |
| Subscriptions.UserByStripeId | api/stripe.go:134 | the lookup succeeds exactly when the query does not fail and the customer has a user |
| Subscriptions.Reconciled | api/stripe.go:139-154 | only the tier and the expiry change. A non-active subscription demotes the user to free and keeps the expiry. An active one grants the product's tier, or free for an unlisted product, until the period end |
| Subscriptions.ProcessSub | api/stripe.go:132-160 | a failed lookup returns an error with context and saves nothing; the reconciled user is saved exactly when its tier or expiry changed; the save's outcome is the result |
| Subscriptions.After | api/stripe.go:155-158 | only a save that succeeded changes the store |
| Subscriptions.ProcessSubReconciles | api/stripe.go:132-160 | with no failure, processing leaves the stored user reconciled with the subscription |
| Subscriptions.ProcessSubTwice | api/stripe.go:155-159 | processing the same subscription a second time saves nothing and reports nothing |
| AssignTier.Assign | api/stripe.go:179-204 | the outcome depends on which call fails. If the billing update fails, only that call is made and its error is returned. If the database update fails, exactly one revert to the old tier's plan follows. The error is then a composite: the database failure with its context, followed by the revert failure with its context when the revert failed. If nothing fails, there are two calls and no error |
| AssignTier.AssignOutcome | api/stripe.go:185-202 | starting from agreeing sides: success puts both sides on the new tier; a billing failure changes nothing; a database failure with a working revert restores the old plan; the sides disagree only when the revert itself failed, and then the error is the database failure followed by the revert failure |
| AssignTier.NewCustomerParams | api/stripe.go:165-175 | a new customer is described by the user's subject, carries the user's email, and is named first name, space, last name |
| AssignTier.NewCustomerPlan | api/stripe.go:167 | a new customer gets the plan of the user's tier; a free-tier user gets the free plan |
| Webhook.Classify | api/stripe.go:60-77 | an event is a subscription event exactly when its type contains `customer.subscription`; a schedule event's type contains `subscription_schedule`; any other event contains neither |
| Webhook.ClassifyByOccurrence | api/stripe.go:57-77 | a type containing `customer.subscription` is a subscription event, even when it also contains `subscription_schedule`; a type containing only `subscription_schedule` is a schedule event; anything else is another event |
| Webhook.Handle | api/stripe.go:38-103 | a read failure is answered with its status code and error. A reconciliation runs only on a parsed subscription, and the handler then answers success. When nothing is written, nothing is processed |
| Webhook.SubscriptionEventHandled | api/stripe.go:60-73 | a subscription event reconciles the payload's subscription and answers success; a payload that does not parse changes nothing and nothing is written, so net/http answers an empty 200 OK |
| Webhook.ScheduleEventHandled | api/stripe.go:77-100 | a schedule event reconciles the subscription fetched by its id. An unparsable payload, an empty id or a failed fetch processes nothing; nothing is written, so net/http answers an empty 200 OK |
| Webhook.ResponseIgnoresProcessing | api/stripe.go:67-71 | the response is the same whatever the reconciliation's lookup and save do |
| Webhook.OtherEventHandled | api/stripe.go:102 | any other event is answered with success and processes nothing |
| Email.Validate | user/user.go:40-42 | an accepted address contains `@` and `.` and is at least six characters long |
| Email.ValidateMatchesPattern | user/user.go:40-42 | `Validate` holds exactly when the address is a non-empty local part, `@`, a non-empty domain, `.`, and 2 to 64 letters, each over its character class |
| Email.ValidAddressShape | user/user.go:14 | a valid address has exactly one `@`, and 2 to 64 letters after its last `.`; every other character is in the local part's class |
| Email.InvalidAddresses | user/user.go:14 | an address is rejected when it has no `@` or more than one, a character outside the classes (a trailing newline included), or no `.`. It is also rejected when the part after its last `.` has fewer than 2 or more than 64 characters, or holds a non-letter |

## Left out

- The MongoDB driver: connecting (`New`), `Disconnect`, and the cursor's `Close` with its logging. The model replaces the server with the interpreter, and a failure of the call itself with a parameter.
- `readStripeEvent`: reading the body, its size limit and its JSON decoding are I/O. Only their outcome is modelled: an error with its HTTP status, or an event.
- The billing SDK calls (`customer.New`, `customer.Update`, `sub.Get`) are foreign. Each is an outcome parameter; `createStripeCustomer` is modelled up to the parameters it passes to `customer.New`.
- `User.SetPassword` is a SHA-256 placeholder (foreign hashing).
- Logging throughout, and the `WriteError`/`WriteSuccess` HTTP writers, which are only recorded as the response.
- Go's `regexp` engine is not modelled. `Email.Validate` decides the one pattern by hand, and `Email.MatchesPattern` states the pattern's language.
- The tier constants are defined in a file that is not part of this model. They are fixed at 1 to 4; only their being distinct matters.
- Subscriptions.Reconciled: the expiry is integer Unix seconds. The `time.Time` location and monotonic-clock subtleties of the comparison are not modelled.
- Counting.CountDocs: the count is an unbounded integer, not an `int64`. A `$count` result cannot exceed the collection size anyway.
- History.UploadsNewestFirst: the newest-first order is proved only for collections where every record carries `timestamp`. A record without one can take the skylink's `timestamp` in the merge, so its row need not keep its position's order.
- History.DownloadsNewestFirst: the same condition on `timestamp` as for uploads.
- Documents.KeyOf: the sort key puts missing and null first, then every non-date value, then dates by time. BSON's full cross-type order among non-date values is not modelled; history timestamps are dates.
- Aggregate.Joined: a `skylink_id` that is an array is compared as a whole value. `$lookup`'s element-wise matching of array local fields is not modelled.
- Aggregate.SortBy: records with equal keys keep their input order. MongoDB's `$sort` is not stable and may return records with equal `timestamp` in any order, so `Pipelines.Page`, `Pipelines.UploadsPipelineRuns` and `Pipelines.DownloadsPipelineRuns` fix one of the orders the server may return.
- Aggregate.ProjectAll: an inclusion `$project` keeps `_id` by default, as MongoDB does, so download rows also carry `_id`.
- Outcomes.Compose: the errors library is not part of this model. `Compose` follows its documented behaviour, and `AddContext` becomes a `Context` wrapper.
- Schema.EnsureCollection: the model follows the branches of `ensureCollection` as written, with a collection missing from the catalog standing for a nil handle. The MongoDB driver's `db.Collection` never returns nil, so the running program never takes the creation branch and never returns `createFault`'s error; a missing collection is instead created by the server when its indexes are. The `createFault` path, and the creation requirement of `Schema.ProvisionSucceeds`, describe the code's intent rather than what the driver does. The second nil check after creation cannot fail in the model.
- Schema.CreateIndexes: the server's rule for an index that already exists is taken as "same definition: skip; same name or keys with other options: error".
- Subscriptions.ProcessSub: a subscription's product is always a string. The code reads `s.Plan.Product.ID` for an active subscription, and the billing SDK leaves `Plan` nil for a subscription with several items. On such a subscription `processSub` dereferences nil and panics after the user lookup, before any save, and the webhook writes no response; the model does not have this crash. A nil `s.Customer` would panic the same way at the lookup.
- Documents.Matches: the caller's `$match` stage is modelled as equality on top-level fields, with MongoDB's null and array-element rules. Query operators, dotted paths and `$and`/`$or` are not modelled. No theorem about the history pipelines or the count depends on the filter's form; each holds for whatever `Matches` decides.
