# LiveDrop order tracking, assistant and storefront — a Dafny model

This project models the core of the LiveDrop shop:

- **Live order status.** The API server's `text/event-stream` endpoint sends the stored status of an order. It then advances the order PENDING → PROCESSING → SHIPPED → DELIVERED on a 5-second interval and closes the stream 2 seconds after delivery. The browser client (`SSEOrderTracker` and `useOrderTracking`) reconnects with exponential backoff. The `OrderTracking` card renders what the client receives.
- **REST routes.** Orders: creating one against the product stock, lookup, listing by customer, status updates. Products: a paginated listing and creation. Customers: lookup by email or id, and creation under a unique email.
- **Server assistant.** The keyword intent classifier, and the engine that answers a query:
  - it normalises the LLM base URL;
  - it parses the markdown knowledge base;
  - it picks relevant policies;
  - it extracts order ids and citations;
  - it formats product searches;
  - it dispatches `processQuery` to its handlers.
- **Storefront.** The offline support assistant, the zustand cart store, the catalog page's tag list and filters, and the product page.

State that the source mutates is modelled imperatively:

- `OrderStatusStream.StreamServer` holds `activeConnections`, `orderIntervals`, the live timers and what was written.
- `SseClient.SseOrderTracker` holds the EventSource, the attempt counter and the pending timeouts.
- `Cart.CartStore` holds `items`.
- `Records.Database` holds the collections.

Loops in the source are methods with invariants: the server engine's `extractCitations`, `formatProductSearch` and `parseMarkdownKnowledgeBase`; the storefront engine's `score`; the catalog page's `allTags`. Pure code is functions, with lemmas relating them.

A few cross-cutting choices:

- Dates are milliseconds since the epoch (`Records.Date`).
- Prices are integers (see Left out).
- Time (`Date.now()`), `Math.random()`, the LLM, the MongoDB store and the HTTP calls of the storefront are parameters of the operations that use them.

Where the code does something other than its comments and evident design suggest, the model follows the code. The one exception is the LLM base-URL normalisation: the defect is recorded under Findings, and the engine's state uses the corrected form (see Left out). The places where the model follows the code are:

- A tick that moves an order to SHIPPED always sets `estimatedDelivery` to three days ahead, even when one was already set.
- The server's interval is not cleared by the DELIVERED tick itself. The interval stops on the next tick (the DELIVERED branch) or at the delayed cleanup.
- `disconnect()` on the client does not cancel the timeouts it has scheduled.
- A second subscriber to the same order replaces the first in `activeConnections` without ending it.
- The stream registers the response before the order is looked up, so an unknown order receives an `{ error }` frame on an open stream, not a 404.
- The client passes an `{ error }` frame to `onUpdate` like any status.
- An order item with a negative quantity passes the stock check and increases the stock.
- The engine's `warranty` category can never be produced by the markdown parser, so a warranty question never finds a markdown entry.
- The storefront pages call the asynchronous `listProducts`/`getProduct` as if they returned values. The model gives the pages the values those calls are evidently meant to produce.

## Model

| member | source | states |
|---|---|---|
| Records.Database.constructor | apps/api/src/db.js:1-68 | the collections start as given, with unique customer emails |
| OrderStatusStream.StatusPayload | apps/api/src/sse/order-status.js:34-56 | a failing lookup gives `Failed to fetch order status`, a missing order `Order not found`, otherwise the snapshot of the stored order's status, carrier, tracking number, estimate and the current time |
| OrderStatusStream.NotFoundJson | apps/api/src/sse/order-status.js:37-39 | an unknown id receives exactly `{"error":"Order not found"}` |
| OrderStatusStream.TickFollowsLifecycle | apps/api/src/sse/order-status.js:78-98 | PENDING, PROCESSING and SHIPPED advance to the next lifecycle status, DELIVERED stops the interval, any other status is ignored |
| OrderStatusStream.TickStepOf | apps/api/src/sse/order-status.js:78-105 | what one tick does to an order; stated by TickFollowsLifecycle, TickFields and ProgressionFromPending |
| OrderStatusStream.TickFields | apps/api/src/sse/order-status.js:84-105 | an advance keeps the carrier or sets `FedEx` and `FX<now>` tracking and a 3-day estimate on PROCESSING→SHIPPED, and stamps `updatedAt` |
| OrderStatusStream.ProgressionFromPending | apps/api/src/sse/order-status.js:78-98 | from PENDING, successive ticks visit the lifecycle strictly in order and stay at DELIVERED |
| OrderStatusStream.TickOutcomeOf | apps/api/src/sse/order-status.js:64-126 | a throwing or missing lookup stops the interval; an unknown status keeps it without saving; DELIVERED and a throwing save stop it; an advance with a working store is saved |
| OrderStatusStream.StreamServer.AtMostOneTimerPerOrder | apps/api/src/sse/order-status.js:58-62 | no order id has two live intervals |
| OrderStatusStream.StreamServer.ReceivedEvents | apps/api/src/sse/order-status.js:38-54 | what a response received decodes, event by event, to the JSON texts written to it |
| OrderStatusStream.StreamServer.constructor | apps/api/src/sse/order-status.js:3-7 | both maps empty, nothing written or ended |
| OrderStatusStream.StreamServer.SendStatusUpdate | apps/api/src/sse/order-status.js:34-56 | appends exactly one frame, the status payload, for that response |
| OrderStatusStream.StreamServer.StartAutoProgression | apps/api/src/sse/order-status.js:58-129 | the previous interval of the order is cleared and a fresh one registered; the timer invariant is kept |
| OrderStatusStream.StreamServer.HandleOrderStatusStream | apps/api/src/sse/order-status.js:9-31 | an empty id answers 400 and changes nothing (lines 149-152); otherwise 200, the response is registered, one frame is sent and progression starts |
| OrderStatusStream.StreamServer.CleanupConnection | apps/api/src/sse/order-status.js:131-143 | ends and drops the registered response, drops and clears the interval, nothing else |
| OrderStatusStream.StreamServer.FireCleanup | apps/api/src/sse/order-status.js:115-117 | the delayed cleanup does what `cleanupConnection` does and is consumed |
| OrderStatusStream.StreamServer.Tick | apps/api/src/sse/order-status.js:64-126 | the tick's outcome decides whether the interval stays, whether the order is saved, and the frame and delayed cleanup sent to a registered response |
| EventStream.IsoString | apps/api/src/sse/order-status.js:48 | the `toISOString` text of a time has no line break |
| EventStream.Escape | apps/api/src/sse/order-status.js:51 | `JSON.stringify` of a string leaves no raw line break |
| EventStream.EscapePlain | apps/api/src/sse/order-status.js:51 | text without quotes, backslashes or control characters is written verbatim |
| EventStream.Json | apps/api/src/sse/order-status.js:38-54 | the JSON text of either payload has no line break |
| EventStream.PlainErrorJson | apps/api/src/sse/order-status.js:38 | a plain error message gives `{"error":"<message>"}` |
| EventStream.Frame | apps/api/src/sse/order-status.js:51 | a frame is one `data: ` line carrying the payload's JSON, ended by exactly one blank line; no other line break occurs in it |
| EventStream.JsonTexts | apps/api/src/sse/order-status.js:51 | one JSON text per payload, in order |
| EventStream.ParseAccumulates | apps/storefront/src/lib/sse-client.ts:31-35 | event-stream parsing: characters without line breaks only extend the current line |
| EventStream.DataLine | apps/storefront/src/lib/sse-client.ts:33-35 | a `data: ` line contributes its text and a line feed to the data buffer |
| EventStream.DataFieldLine | apps/storefront/src/lib/sse-client.ts:33-35 | a `data` field whose colon is followed by a space contributes what follows the space |
| EventStream.FrameDispatches | apps/storefront/src/lib/sse-client.ts:33-35 | one frame dispatches exactly one message whose data is the payload's JSON |
| EventStream.DataFrameDispatches | apps/storefront/src/lib/sse-client.ts:33-35 | any line-free data frame dispatches exactly its data |
| EventStream.BlankLineDispatches | apps/storefront/src/lib/sse-client.ts:33-35 | the blank line after a data line dispatches the buffered data without its last line feed |
| EventStream.BodyDispatches | apps/api/src/sse/order-status.js:51 | round trip: the events a client dispatches from a body of frames are the JSON texts that were written |
| SseClient.StreamRouteParam | apps/storefront/src/lib/sse-client.ts:28 | a path matched by `/api/orders/:id/stream` yields a non-empty id without `/` that rebuilds the path |
| SseClient.StreamUrlRoutes | apps/storefront/src/lib/sse-client.ts:28 | the URL the client opens reaches the stream route with the tracker's own order id |
| SseClient.Backoff | apps/storefront/src/lib/sse-client.ts:63-78 | attempt k waits 1000·2^(k-1) ms |
| SseClient.BackoffSchedule | apps/storefront/src/lib/sse-client.ts:13-14 | the whole schedule is 1000, 2000, 4000, 8000, 16000 ms |
| SseClient.SseOrderTracker.constructor | apps/storefront/src/lib/sse-client.ts:10-21 | no source, zero attempts, no timeouts or callbacks |
| SseClient.SseOrderTracker.IsConnected | apps/storefront/src/lib/sse-client.ts:88-90 | connected exactly when a source exists and is OPEN |
| SseClient.SseOrderTracker.Disconnect | apps/storefront/src/lib/sse-client.ts:80-86 | closes and drops the current source; a second call changes nothing |
| SseClient.SseOrderTracker.Connect | apps/storefront/src/lib/sse-client.ts:23-31 | closes any current source and opens a new one on the order's stream URL |
| SseClient.SseOrderTracker.HandleReconnect | apps/storefront/src/lib/sse-client.ts:63-78 | at five attempts nothing is scheduled; otherwise the counter grows and one reconnect with the backoff delay is scheduled |
| SseClient.SseOrderTracker.OnOpen | apps/storefront/src/lib/sse-client.ts:57-60 | the attempt counter is reset and the source is OPEN |
| SseClient.SseOrderTracker.OnError | apps/storefront/src/lib/sse-client.ts:51-55 | `onError` is invoked, then a reconnect is requested as above, on the base the failed source was opened with, so it reopens the same URL |
| SseClient.SseOrderTracker.OnMessage | apps/storefront/src/lib/sse-client.ts:33-49 | unparsable data changes nothing; a parsed value goes to `onUpdate`; DELIVERED schedules the completion |
| SseClient.SseOrderTracker.FireTimer | apps/storefront/src/lib/sse-client.ts:41-77 | a reconnect timeout reopens the stream; the completion timeout disconnects and invokes `onComplete` |
| SseClient.MountOrderTracking | apps/storefront/src/lib/sse-client.ts:102-124 | no tracker for a null or empty id; otherwise a fresh tracker connected to the default base |
| SseClient.HookConnected | apps/storefront/src/lib/sse-client.ts:107-120 | `isConnected` holds exactly when the last callback was an update |
| SseClient.HookStatus | apps/storefront/src/lib/sse-client.ts:107-110 | `status` is null before any update and afterwards the last update received |
| SseClient.HookError | apps/storefront/src/lib/sse-client.ts:107-115 | the reconnect message shows exactly when an error came after the last update |
| OrderTracking.IndexOf | apps/storefront/src/components/OrderTracking.tsx:79-80 | `indexOf`: the first position of the value, or -1 exactly when absent |
| OrderTracking.StepsProgress | apps/storefront/src/components/OrderTracking.tsx:77-90 | for a known status the steps up to it are completed with a check mark, later ones not, and only its own step is active |
| OrderTracking.LifecycleIndex | apps/storefront/src/components/OrderTracking.tsx:79-80 | each lifecycle status is found at its own position |
| OrderTracking.Render | apps/storefront/src/components/OrderTracking.tsx:9-96 | the component for the hook's state; stated by RenderCases, CardShows, StepsProgress and AfterUpdateLive |
| OrderTracking.RenderCases | apps/storefront/src/components/OrderTracking.tsx:11-27 | the spinner shows exactly before the first update; rendering fails exactly for an error payload or a status outside the lifecycle (statuses naming `Object.prototype` members are treated as outside it, see Left out); otherwise the badge is the status's own |
| OrderTracking.CardShows | apps/storefront/src/components/OrderTracking.tsx:32-70 | the live indicator follows `isConnected`; the error box appears for an error; carrier and tracking appear together only when both are set; the estimate appears when present |
| OrderTracking.AfterUpdateLive | apps/storefront/src/components/OrderTracking.tsx:9-50 | after an update with a known status the card shows live tracking, no error and that status's badge |
| OrderRoutes.Step | apps/api/src/routes/orders.js:25-47 | one iteration of the item loop; stated by RunLines, RunTotal, RunStock and RunStops |
| OrderRoutes.Run | apps/api/src/routes/orders.js:22-48 | the item loop over all items, the reference the `CreateOrder` loop is proved equal to; stated by RunLines, RunTotal, RunStock, RunStops and RunStaysStopped |
| OrderRoutes.LinesTotalAppend | apps/api/src/routes/orders.js:35-36 | the total grows by price times quantity of the added line |
| OrderRoutes.RunLines | apps/api/src/routes/orders.js:22-48 | when every item passes, the lines mirror the items in order with the stored name and price |
| OrderRoutes.RunTotal | apps/api/src/routes/orders.js:22-48 | the total is the sum of price times quantity over the lines |
| OrderRoutes.RunStock | apps/api/src/routes/orders.js:45-47 | each product's stock drops by exactly the quantity requested of it |
| OrderRoutes.RunStops | apps/api/src/routes/orders.js:25-33 | processing stops at the first missing product (404) or short stock (400), with the stock decrements of the earlier items kept |
| OrderRoutes.RunStaysStopped | apps/api/src/routes/orders.js:22-48 | after a failure, later items change nothing |
| OrderRoutes.NewOrder | apps/api/src/routes/orders.js:51-58 | the saved order is PENDING, with the lines and total, and no shipping fields |
| OrderRoutes.CreateOrder | apps/api/src/routes/orders.js:7-68 | 400 without a customer id or items, 404 for an unknown customer; otherwise the item run decides the reply, the stock and the saved order |
| OrderRoutes.GetOrder | apps/api/src/routes/orders.js:71-85 | the stored order with 200 exactly when the id exists, else 404 |
| OrderRoutes.ListOrders | apps/api/src/routes/orders.js:88-105 | 400 without a customer id; otherwise always 200 with exactly the customer's orders |
| OrderRoutes.StatusUpdate | apps/api/src/routes/orders.js:108-138 | 400 without a status or for one outside the enumeration, 404 for an unknown id; otherwise always 200 with the order with the new status, the given shipping fields and `updatedAt` |
| OrderRoutes.StatusMayGoBack | apps/api/src/routes/orders.js:116-126 | a delivered order can be set back to PENDING |
| OrderRoutes.UpdateOrderStatus | apps/api/src/routes/orders.js:108-138 | saves the updated order exactly when the reply is a success |
| ProductRoutes.Plan | apps/api/src/routes/products.js:8-62 | defaults apply to absent parameters; a text clause only for a non-empty search, a tag clause only for a non-empty tag |
| ProductRoutes.PlanDefaults | apps/api/src/routes/products.js:8-14 | no parameters: everything by name, twenty to a page, from the start |
| ProductRoutes.Pages | apps/api/src/routes/products.js:76 | `Math.ceil(total/limit)` is the least page count covering all matches for a positive limit; for a negative limit it is the non-positive ceiling of the quotient (`r * limit <= total < (r - 1) * limit`); it is null for a zero limit |
| ProductRoutes.PageCovers | apps/api/src/routes/products.js:64-76 | every match falls inside the window of its page |
| ProductRoutes.PageWindow | apps/api/src/routes/products.js:64-66 | `skip`/`limit` give a prefix of the matches from `skip` on, of `limit` elements (its absolute value) when enough remain; with a zero limit or a short last page it is every match from `skip` on (empty past the end); a negative skip fails |
| ProductRoutes.ListProducts | apps/api/src/routes/products.js:6-83 | a negative skip answers 500; otherwise always 200 with the page window of the matches, their count, the page, the limit and the page count |
| ProductRoutes.GetProduct | apps/api/src/routes/products.js:86-99 | the stored product with 200 exactly when the id exists, else 404 |
| ProductRoutes.NewProduct | apps/api/src/routes/products.js:102-118 | refused with 400 exactly without a name or with a missing or zero price; otherwise the product with the given fields and defaults |
| ProductRoutes.CreateProduct | apps/api/src/routes/products.js:102-126 | saves the new product exactly when it is accepted |
| CustomerRoutes.FindCustomerByEmail | apps/api/src/routes/customers.js:6-25 | 400 without an email, 404 when no customer has it, otherwise the only customer with that email |
| CustomerRoutes.GetCustomer | apps/api/src/routes/customers.js:27-41 | the stored customer with 200 exactly when the id exists, else 404 |
| CustomerRoutes.CreateCustomer | apps/api/src/routes/customers.js:44-71 | 400 without a name or email, 409 for a taken email, otherwise 201 and the customer is stored; emails stay unique |
| CustomerRoutes.InsertKeepsEmailsUnique | apps/api/src/routes/customers.js:52-65 | inserting a customer with an untaken email keeps emails unique |
| Patterns.AlnumRunAt | apps/api/src/assistant/engine.js:294 | the maximal run of ASCII letters and digits at a position |
| Patterns.FirstOrderIdFrom | apps/api/src/assistant/engine.js:294-296 | the leftmost position where `/\b[A-Za-z0-9]{6,}\b/` matches, or none |
| Patterns.MatchOrderId | apps/api/src/assistant/intent-classifier.js:112-116 | a match exists exactly when the regex tests true, and it is the whole run at the leftmost match position |
| Patterns.MatchIsAlnumRun | apps/api/src/assistant/engine.js:292-297 | a match is at least six ASCII letters and digits |
| IntentClassifier.OrderStatusIsKeywords | apps/api/src/assistant/intent-classifier.js:110-118 | the id-pattern disjunct adds nothing beyond the keywords |
| IntentClassifier.FirstMatch | apps/api/src/assistant/intent-classifier.js:89-95 | the result is an eligible intent of the list that matches |
| IntentClassifier.FirstMatchIsFirst | apps/api/src/assistant/intent-classifier.js:89-95 | no eligible intent before the one found matches; none found means none matches |
| IntentClassifier.ClassifyIntent | apps/api/src/assistant/intent-classifier.js:75-99 | a listed intent; violation exactly when a violation keyword occurs in the lowercased, trimmed input; order status exactly when there is no violation and an order phrase occurs |
| IntentClassifier.ClassifyFallsThrough | apps/api/src/assistant/intent-classifier.js:86-98 | with neither violation nor order status, the result is the first listed intent that matches, or `chitchat` when none does |
| IntentClassifier.DefaultKeywords | apps/api/src/assistant/intent-classifier.js:44-70 | the built-in policy and violation keyword lists |
| IntentClassifier.DeliveryIsPolicyQuestion | apps/api/src/assistant/intent-classifier.js:44-48 | "delivery" is classified as a policy question in the built-in configuration, although it is also an order-status keyword |
| IntentClassifier.DeliveryClassified | apps/api/src/assistant/intent-classifier.js:75-99 | the same for every configuration with those keywords |
| IntentClassifier.DeliveryNoViolation | apps/api/src/assistant/intent-classifier.js:78-81 | "delivery" holds no violation keyword |
| IntentClassifier.NoViolationIn | apps/api/src/assistant/intent-classifier.js:67-70 | a text without h, a, n and o holds no violation keyword |
| IntentClassifier.GetIntentBehavior | apps/api/src/assistant/intent-classifier.js:120-122 | the configured behaviour text when it is non-empty; the fallback exactly for an unconfigured intent, an empty behaviour text, or one that is the fallback text itself |
| IntentClassifier.DefaultBehaviors | apps/api/src/assistant/intent-classifier.js:35-73 | every listed intent has a behaviour text |
| AssistantEngine.SchemeLength | apps/api/src/assistant/engine.js:18 | the length of a leading case-insensitive `http://` or `https://`, else 0 |
| AssistantEngine.DropTrailing | apps/api/src/assistant/engine.js:22 | `replace(/\/+$/, '')`: the longest prefix not ending with a slash |
| AssistantEngine.DropTrailingDrops | apps/api/src/assistant/engine.js:22 | only slashes are removed |
| AssistantEngine.NormalizeAsWritten | apps/api/src/assistant/engine.js:16-24 | the URL as the code normalises it: the trimmed URL, with `https://` in front when it has no scheme, loses exactly its final run of slashes — the result is a prefix of it, all that is cut off is slashes, and it does not end with a slash |
| AssistantEngine.NormalizeAsWrittenNotIdempotent | apps/api/src/assistant/engine.js:16-24 | a bare `http://` becomes `http:`, which a second pass turns into `https://http:` |
| AssistantEngine.NormalizeKeepsScheme | apps/api/src/assistant/engine.js:15-24 | the corrected normalisation keeps the input's scheme, or supplies `https://` |
| AssistantEngine.NormalizedTrimmed | apps/api/src/assistant/engine.js:17 | the normalised URL has no white space at either end |
| AssistantEngine.NormalizeIdempotent | apps/api/src/assistant/engine.js:15-24 | normalising twice equals normalising once |
| AssistantEngine.Engine.constructor | apps/api/src/assistant/engine.js:9-25 | the base URL is normalised (in its corrected form, see Left out) when set and non-empty and kept otherwise; the knowledge base and configuration are as loaded |
| AssistantEngine.Engine.Query | apps/api/src/assistant/engine.js:93-163 | `processQuery` on the engine's own base URL, knowledge base and configuration: the reply of `ProcessQuery`, with the classified intent or `error` |
| AssistantEngine.CategorizeContent | apps/api/src/assistant/engine.js:80-91 | the category is one of the fixed rules or `general` |
| AssistantEngine.CategorizeFirstMatch | apps/api/src/assistant/engine.js:80-91 | the first rule in the fixed order with a keyword in the lowercased title and content decides |
| AssistantEngine.CategoryPrecedence | apps/api/src/assistant/engine.js:82-90 | a text with a keyword of a rule gets that rule or an earlier one |
| AssistantEngine.WithCategory | apps/api/src/assistant/engine.js:280-282 | the entries of that category, in order |
| AssistantEngine.WithCategoryAppend | apps/api/src/assistant/engine.js:280-282 | filtering a concatenation is the concatenation of the filtered parts, so knowledge-base order is kept |
| AssistantEngine.WithCategorySingle | apps/api/src/assistant/engine.js:280-282 | a single entry is kept exactly when its category matches |
| AssistantEngine.WithCategoryFirst | apps/api/src/assistant/engine.js:280-282 | the first result is the first knowledge-base entry of that category |
| AssistantEngine.FindRelevantPolicies | apps/api/src/assistant/engine.js:262-290 | never more entries than the knowledge base holds |
| AssistantEngine.FindRelevantFirstMatch | apps/api/src/assistant/engine.js:276-289 | the first category in declaration order with a keyword in the lowercased input selects its entries, exactly the filtered knowledge base in its own order |
| AssistantEngine.ExtractOrderId | apps/api/src/assistant/engine.js:292-297 | the leftmost maximal run of six or more ASCII letters and digits |
| AssistantEngine.DocIdInjective | apps/api/src/assistant/engine.js:68 | different pieces get different `DocNN` ids |
| AssistantEngine.SectionPartsTrimmed | apps/api/src/assistant/engine.js:58-64 | title and body of a piece are trimmed |
| AssistantEngine.KeptIndexesIncrease | apps/api/src/assistant/engine.js:57-76 | the pieces are visited once each, in increasing order |
| AssistantEngine.EntriesStep | apps/api/src/assistant/engine.js:57-76 | one more piece adds its entry exactly when its title and body are non-empty |
| AssistantEngine.KnowledgeBase | apps/api/src/assistant/engine.js:54-78 | the entries of the markdown text: the reference definition the parsing loop is proved equal to; its properties are stated by EntryFacts, EntryTrimmed and KnowledgeBaseIdsDistinct |
| AssistantEngine.EntryFacts | apps/api/src/assistant/engine.js:57-76 | each entry comes from a piece after the header with non-empty title and body; its id, category and text are that piece's |
| AssistantEngine.EntryTrimmed | apps/api/src/assistant/engine.js:58-64 | every entry's question and answer are trimmed and non-empty |
| AssistantEngine.KnowledgeBaseIdsDistinct | apps/api/src/assistant/engine.js:68 | no two entries share an id |
| AssistantEngine.NoMarkerNoEntries | apps/api/src/assistant/engine.js:56-57 | a file without `## Doc` has no entries |
| AssistantEngine.ParseMarkdownKnowledgeBase | apps/api/src/assistant/engine.js:54-78 | the loop produces exactly the knowledge base of the file, stamped with the time |
| AssistantEngine.NotWarranty | apps/api/src/assistant/engine.js:80-91 | content is never categorised as warranty |
| AssistantEngine.NoWarrantyEntries | apps/api/src/assistant/engine.js:54-91 | no markdown entry has the warranty category |
| AssistantEngine.WarrantyFindsNoMarkdownEntry | apps/api/src/assistant/engine.js:262-290 | a warranty question finds no markdown entry |
| AssistantEngine.Citations | apps/api/src/assistant/engine.js:299-307 | the bracketed ids of a text, left to right: the reference definition the `exec` loop is proved equal to; its properties are stated by NextCitationStep and CitationsAppend |
| AssistantEngine.NextCitationStep | apps/api/src/assistant/engine.js:300-305 | `exec` skips no match: the citations from a position are the one found, then those after it |
| AssistantEngine.ExtractCitations | apps/api/src/assistant/engine.js:299-307 | the loop returns the captures of all non-overlapping matches of `/\[([A-Za-z0-9.]+)\]/g`, left to right |
| AssistantEngine.CitationsAppend | apps/api/src/assistant/engine.js:185 | appending ` [id]` to an answer adds exactly `id` to its citations |
| AssistantEngine.ProductListing | apps/api/src/assistant/engine.js:375-387 | the header, then one numbered block per product |
| AssistantEngine.ListingShowsEach | apps/api/src/assistant/engine.js:377-385 | every product's block, numbered by its position, occurs in the listing |
| AssistantEngine.FormatProductSearch | apps/api/src/assistant/engine.js:375-387 | the loop builds exactly that listing |
| AssistantEngine.PolicyAnswer | apps/api/src/assistant/engine.js:165-187 | the LLM's answer when it replies; otherwise the first relevant entry's answer with its citation, or the fixed fallback |
| AssistantEngine.OrderIdFor | apps/api/src/assistant/engine.js:189-192 | an id in the text wins; else the context's; a null context throws |
| AssistantEngine.OrderAnswer | apps/api/src/assistant/engine.js:193-208 | no id asks for one; with one, a found order's formatted status is the reply, a missing order's reply names the id looked up, a failing lookup gets the apology |
| AssistantEngine.SearchAnswer | apps/api/src/assistant/engine.js:211-229 | found products are listed; none, or a failure, gives the fixed texts |
| AssistantEngine.HandlerText | apps/api/src/assistant/engine.js:105-146 | the reply text of each handler other than order status; its properties are stated by ProcessQueryText and RepliesNameAssistant |
| AssistantEngine.TextsNameAssistant | apps/api/src/assistant/engine.js:231-246 | the complaint reply and each of the three greetings contain the assistant's name |
| AssistantEngine.RepliesNameAssistant | apps/api/src/assistant/engine.js:121-128 | a complaint or chitchat reply introduces the assistant by the configured identity's name |
| AssistantEngine.ProcessQuery | apps/api/src/assistant/engine.js:93-163 | the reply to one query; what it is, is stated by ProcessQueryError, ProcessQueryReports, ProcessQueryText, TextIdWins and PolicyFallbackCites |
| AssistantEngine.IntentNamesDistinct | apps/api/src/assistant/engine.js:93-163 | intent names and `error` are all different |
| AssistantEngine.ProcessQueryError | apps/api/src/assistant/engine.js:150-161 | the apology with intent `error` exactly for an order-status question without an id in the text and a `null` context; otherwise the intent is the classifier's |
| AssistantEngine.ProcessQueryReports | apps/api/src/assistant/engine.js:102-120 | `functionsCalled` is `getOrderStatus` for an order-status reply, `searchProducts` for a product search and empty otherwise; only a policy reply has citations, and they are those of its text |
| AssistantEngine.ProcessQueryText | apps/api/src/assistant/engine.js:104-146 | each intent is answered by its own handler |
| AssistantEngine.TextIdWins | apps/api/src/assistant/engine.js:189-192 | an order id in the text takes precedence over any context |
| AssistantEngine.PolicyFallbackCites | apps/api/src/assistant/engine.js:180-187 | without an LLM reply, the fallback answer cites the entry it came from |
| AssistantEngine.DocIdIsCitable | apps/api/src/assistant/engine.js:68 | markdown ids are citation text |
| SupportEngine.MaskId | apps/storefront/src/assistant/engine.ts:8-11 | ids of at most four characters stay whole; longer ones become three bullets and the last four characters |
| SupportEngine.MaskRevealsOnlyTail | apps/storefront/src/assistant/engine.ts:8-11 | two long ids with the same last four characters mask alike, so only those four are revealed |
| SupportEngine.TokensAreWords | apps/storefront/src/assistant/engine.ts:14-15 | the tokens are non-empty runs of lowercase letters and digits |
| SupportEngine.Score | apps/storefront/src/assistant/engine.ts:13-19 | the loop counts exactly the distinct message words also in the question |
| SupportEngine.Scores | apps/storefront/src/assistant/engine.ts:47 | one score per entry, in order |
| SupportEngine.TopOf | apps/storefront/src/assistant/engine.ts:47-48 | the first entry with the highest score (the stable descending sort's head) |
| SupportEngine.FirstRefFrom | apps/storefront/src/assistant/engine.ts:6 | the leftmost position where `/[A-Z0-9]{10,}/` matches |
| SupportEngine.OrderRef | apps/storefront/src/assistant/engine.ts:41 | the first match of `/[A-Z0-9]{10,}/`, or none; stated by OrderRefIsRun |
| SupportEngine.OrderRefIsRun | apps/storefront/src/assistant/engine.ts:41 | the reference used is a whole, maximal run of at least ten capitals and digits |
| SupportEngine.SmallTalkFirst | apps/storefront/src/assistant/engine.ts:22-39 | small talk is answered before any lookup, without a citation, greetings before farewells before thanks |
| SupportEngine.HiIsGreeting | apps/storefront/src/assistant/engine.ts:25-31 | any message containing "hi" gets the greeting |
| SupportEngine.ShippingIsGreeting | apps/storefront/src/assistant/engine.ts:25-31 | so "shipping" gets the greeting, not an answer |
| SupportEngine.AskSupportFails | apps/storefront/src/assistant/engine.ts:41-46 | the request fails exactly when it is not small talk and names an unknown order |
| SupportEngine.RefusalWhenNothingMatches | apps/storefront/src/assistant/engine.ts:47-52 | the refusal without a citation exactly when there is no small talk, no order and no word overlap |
| SupportEngine.AnswerIsRefusal | apps/storefront/src/assistant/engine.ts:47-52 | once small talk is ruled out, the refusal exactly when there is neither a status nor a confident entry |
| SupportEngine.ConfidentIff | apps/storefront/src/assistant/engine.ts:47-49 | an entry is confident exactly when some entry shares a word with the message |
| SupportEngine.StatusReply | apps/storefront/src/assistant/engine.ts:53-64 | with a known order the reply opens with its status line, the top answer follows, and the citation is present only for a confident top entry |
| SupportEngine.AnswerReply | apps/storefront/src/assistant/engine.ts:53-65 | without an order, a message sharing a word gets the top entry's answer cited with its qid |
| SupportEngine.ConfidentIsTop | apps/storefront/src/assistant/engine.ts:47-49 | the confident entry is the first with the highest score |
| SupportEngine.Answer | apps/storefront/src/assistant/engine.ts:47-65 | the reply once any order is looked up; stated by RefusalWhenNothingMatches, AnswerIsRefusal, StatusReply and AnswerReply |
| SupportEngine.AskSupport | apps/storefront/src/assistant/engine.ts:21-66 | `askSupport(input)`; stated by SmallTalkFirst, AskSupportFails and the Answer lemmas |
| Cart.Bumped | apps/storefront/src/lib/store.ts:27 | lines with the id grow by `qty`; all other lines are unchanged |
| Cart.Added | apps/storefront/src/lib/store.ts:23-32 | the lines `add` leaves; stated by AddedLines, AddedKeepsIdsUnique, AddedKeepsQtysPositive and AddedTotal |
| Cart.AddedLines | apps/storefront/src/lib/store.ts:23-32 | adding an existing id bumps that line; a new id is appended with `qty` |
| Cart.AddedKeepsIdsUnique | apps/storefront/src/lib/store.ts:23-32 | adding keeps one line per id |
| Cart.AddedKeepsQtysPositive | apps/storefront/src/lib/store.ts:23-32 | adding a positive quantity keeps every quantity positive |
| Cart.Removed | apps/storefront/src/lib/store.ts:33 | exactly the lines with another id remain |
| Cart.RemovedAppend | apps/storefront/src/lib/store.ts:33 | the filter distributes over concatenation, so order is kept |
| Cart.RemovedAbsent | apps/storefront/src/lib/store.ts:33 | removing an absent id changes nothing |
| Cart.RemovedKeepsIdsUnique | apps/storefront/src/lib/store.ts:33 | removing keeps one line per id |
| Cart.RemovedKeepsQtysPositive | apps/storefront/src/lib/store.ts:33 | removing keeps quantities positive |
| Cart.AtLeastOne | apps/storefront/src/lib/store.ts:34 | `Math.max(1, qty)`: `qty` when it is at least one, else one |
| Cart.WithQty | apps/storefront/src/lib/store.ts:34 | lines with the id get the quantity clamped to at least 1; others are unchanged |
| Cart.WithQtyKeepsInvariants | apps/storefront/src/lib/store.ts:34 | setting a quantity keeps ids, unique ids and positive quantities |
| Cart.Total | apps/storefront/src/lib/store.ts:38 | `cartTotal`; stated by TotalAppend, AddedTotal, BumpedTotal and RemovedTotal |
| Cart.TotalAppend | apps/storefront/src/lib/store.ts:38 | the total of an empty cart is 0 and totals add over concatenation |
| Cart.AddedTotal | apps/storefront/src/lib/store.ts:23-38 | adding raises the total by `qty` times the line's price |
| Cart.BumpedTotal | apps/storefront/src/lib/store.ts:27-38 | bumping raises the total by `qty` times the id's price |
| Cart.RemovedTotal | apps/storefront/src/lib/store.ts:33-38 | removing lowers the total by the id's lines |
| Cart.IdPriceUnique | apps/storefront/src/lib/store.ts:24 | with unique ids the id's price is that line's price |
| Cart.CartStore.constructor | apps/storefront/src/lib/store.ts:14-22 | the saved list, or an empty cart |
| Cart.CartStore.Add | apps/storefront/src/lib/store.ts:23-32 | the new items are the added list; uniqueness is kept; the total rises accordingly |
| Cart.CartStore.Remove | apps/storefront/src/lib/store.ts:33 | the new items are the filtered list; uniqueness is kept; the total falls by the removed lines |
| Cart.CartStore.SetQty | apps/storefront/src/lib/store.ts:34 | the new items have the clamped quantity; uniqueness and positivity are kept |
| Cart.CartStore.Clear | apps/storefront/src/lib/store.ts:35 | an empty cart with total 0 |
| Catalog.SubsequenceTrans | apps/storefront/src/pages/catalog.tsx:18-23 | two successive filters leave a subsequence of the catalog |
| Catalog.LessTrans | apps/storefront/src/pages/catalog.tsx:14 | the string order of `sort()` is transitive |
| Catalog.LessTotal | apps/storefront/src/pages/catalog.tsx:14 | and total on different strings |
| Catalog.Insert | apps/storefront/src/pages/catalog.tsx:14 | inserting into a sorted list keeps it sorted, with exactly one more element |
| Catalog.SortStrings | apps/storefront/src/pages/catalog.tsx:14 | `sort()` returns the same elements, sorted; no duplicates are introduced |
| Catalog.SortedStrictly | apps/storefront/src/pages/catalog.tsx:14 | a sorted list without duplicates is strictly increasing |
| Catalog.AllTags | apps/storefront/src/pages/catalog.tsx:11-15 | exactly the tags of some product, each once, in strictly increasing order |
| Catalog.MatchingTokens | apps/storefront/src/pages/catalog.tsx:21 | the products matching every token, in catalog order, each as often as in the catalog |
| Catalog.WithTag | apps/storefront/src/pages/catalog.tsx:23 | the products carrying the tag, in catalog order, each as often as in the catalog |
| Catalog.InsertByPrice | apps/storefront/src/pages/catalog.tsx:24-25 | the insertion step keeps price order and adds exactly one element |
| Catalog.SortByPrice | apps/storefront/src/pages/catalog.tsx:24-25 | the sorted copy is a permutation, ordered by price up or down |
| Catalog.InsertAtPrice | apps/storefront/src/pages/catalog.tsx:24-25 | the insertion step puts the inserted product before every product of its own price |
| Catalog.SortByPriceStable | apps/storefront/src/pages/catalog.tsx:24-25 | the sort is stable: for every price, the products of that price keep their catalog order |
| Catalog.Selected | apps/storefront/src/pages/catalog.tsx:17-23 | a subsequence of the catalog, holding the products matching the search and the tag (empty ones do not filter), each as often as in the catalog |
| Catalog.Filtered | apps/storefront/src/pages/catalog.tsx:17-27 | the products the catalog shows; stated by FilteredShows and FilteredNothing |
| Catalog.FilteredShows | apps/storefront/src/pages/catalog.tsx:17-27 | the shown products are the selection, sorted by price for `asc` and `desc`, in catalog order otherwise |
| Catalog.FilteredNothing | apps/storefront/src/pages/catalog.tsx:17-27 | with no search, tag or order, the whole catalog in order |
| ProductPage.RelatedAll | apps/storefront/src/pages/product.tsx:14 | the catalog products with another id and a common tag, in order, each as often as in the catalog |
| ProductPage.RelatedFacts | apps/storefront/src/pages/product.tsx:14 | the shown products are the first three (or all, when fewer) of the related ones: none the product itself, each sharing a tag, in catalog order |
| ProductPage.Description | apps/storefront/src/pages/product.tsx:22 | the description when non-empty, else the placeholder; never empty |
| ProductPage.StockLabel | apps/storefront/src/pages/product.tsx:23 | `In stock` exactly when the stock is positive, else `Out of stock` |
| ProductPage.Render | apps/storefront/src/pages/product.tsx:7-23 | the page for the route's id; stated by RenderNotFound, RelatedFacts, Description and StockLabel |
| ProductPage.RenderNotFound | apps/storefront/src/pages/product.tsx:8-12 | `Not found.` exactly without an id or without a product of that id; otherwise that product is shown |
| ProductPage.AddToCart | apps/storefront/src/pages/product.tsx:25 | the cart gets one unit of the product; uniqueness is kept; a new line raises the total by the price |

## Left out

- MongoDB itself is replaced by maps in `Records.Database`. Connection failures, the 500 replies of the routes and Mongo's query semantics (`$text` relevance, sorting by `createdAt`) are not modelled. `ProductRoutes.ListProducts` takes the matching documents as a parameter.
- Interleavings of `await`: every tick, request and callback is modelled as one atomic step. The store faults a step can meet are explicit parameters.
- Floating point: prices and totals are integers. `toFixed`, locale dates (`toLocaleDateString`) and `fmtCurrency` formatting are not modelled.
- Unicode case folding: `toLowerCase` is modelled on ASCII letters only. White space is the ASCII set plus the common Unicode spaces.
- Strings are ordered by character. JavaScript's `sort()` compares UTF-16 code units, which differ from this order for characters outside the Basic Multilingual Plane.
- `parseInt` of the page and limit parameters, and date parsing of `estimatedDelivery` in a status update: the model receives the parsed values.
- `OrderRoutes.ListOrders`: returns the set of the customer's orders, not their order in the reply.
- URL encoding of ids in request paths.
- MongoDB's id generation: `OrderRoutes.CreateOrder` and `ProductRoutes.CreateProduct` take the new document's id as a parameter. The caller must supply an id not yet stored, as a generated ObjectId is.
- `loadKnowledgeBase` file I/O: the markdown text is a parameter. Entries stamped at different instants are modelled with one stamp.
- `buildPolicyPrompt` and `callLLM`: prompt text and HTTP call. Only whether the LLM replies, and what it replies, is modelled.
- `Math.random()`: the greeting index is a parameter.
- `AssistantEngine.HandlerText`: the fixed texts of the complaint, chitchat, off-topic, violation and default handlers are reproduced, not characterised further.
- The storefront's order lookup (`getOrderStatus` over HTTP) is a map from order reference to status.
- `localStorage` persistence of the cart: `save` is not modelled. A saved cart is passed to the constructor as it was loaded, without validation.
- The storefront pages call the asynchronous API functions as if they returned values. The model takes those values as parameters and does not model the promise.
- `ProductPage.AddToCart`: states the total change only for a product not yet in the cart. For one already there, `Cart.CartStore.Add` states the change.
- React rendering, styling and the `console` logging are left out. So are the close and error events that only log.
- `AssistantEngine.Engine.constructor`: stores the corrected normalisation `NormalizeBaseUrl`, not the code's `NormalizeAsWritten`. The two differ for a bare scheme (`http://` is stored as `http:` by the code) and for slashes mixed with white space at the end (the code turns `https://a.com/ /` into `https://a.com/ `, the corrected form into `https://a.com`). Both are modelled; the Findings row relates them.
- `OrderTracking.Render` and `OrderTracking.RenderCases`: a status that names an `Object.prototype` member (`toString`, `constructor`, `__proto__`) is treated as unknown, so the render fails. In the browser `statusConfig[status]` yields the inherited value, `.color` is undefined and the card renders. The server only sends lifecycle statuses.
- `SupportEngine.Score`: the two token sets are built outside the loop, as the source builds them before `forEach`; the loop itself is modelled.

## Findings

| source | as written | input that shows it | evidently intended | confidence | as-written member | corrected member |
|---|---|---|---|---|---|---|
| apps/api/src/assistant/engine.js:16-24 | trims, adds `https://` when `^https?://` does not match, then strips trailing slashes | `LLM_BASE_URL=http://` normalises to `http:`; normalising that again gives `https://http:` | normalisation is idempotent and keeps the given scheme | not executed | AssistantEngine.NormalizeAsWrittenNotIdempotent | AssistantEngine.NormalizeIdempotent |
