# Fitness platform back end: scheduled blog publishing and its guards, in Dafny

This project models the core of a Node.js/Express back end for a fitness
platform. At its centre is the scheduled blog-publishing engine: a
`BlogScheduler` object. It wakes every minute and publishes each blog whose
status is `SCHEDULED` and whose scheduled time has come. It counts what it
published, remembers the last failure, and reports its state. Around it sit:

- the four admin handlers that change a blog's status;
- the request validators of the blog and event APIs;
- the event guards and the event-registration handler, with its bounded TTL cache;
- the input sanitiser and the global error handler;
- the authentication middlewares;
- the membership, chatbot and nutrition rules;
- the production request metrics.

The database is an in-memory `map` from id to record, and every query is a
function of it. Every database call that can fail takes a fault parameter, so
failures are explicit inputs rather than nondeterminism. The clock is an
integer millisecond (or month, or day) parameter, and the repeating timer is
an explicit `Tick`. `jwt.verify`, Zod's string formats and Joi's schemas are
oracles passed in as functions.

Objects whose fields the source updates in place are classes:
- the scheduler and the blog table;
- the TTL cache;
- the event controller's tables;
- the request being sanitised;
- the metrics object.

Each of their methods is proved against a pure function of the old state.
The rest is datatypes, functions and lemmas.

Modules, one per file:
- `BlogModel`, `BlogStores`, `BlogScheduling`: the blog record and its
  transitions, the table, and the scheduler (`blog.scheduler.js`,
  `blog.controller.js`).
- `BlogValidation`, `BlogMiddleware`: `blog.validation.js` and `blog.middleware.js`.
- `EventValidation`, `EventMiddleware`, `EventCache`, `EventRegistration`:
  `event.validation.js`, `event.middleware.js` and the cache and registration
  of `event.controller.optimized.js`.
- `InputSanitizer`, `ErrorHandling`, `Auth`: `inputValidation.js`,
  `errorHandler.js` and `auth.middleware.js`.
- `Memberships`, `Chatbot`, `Nutrition`, `Monitoring`: `membership.service.js`,
  `chatbot.service.js`, `nutrition.service.js` and `productionMonitoring.js`.
- Shared modules:
  - `Wrappers`: `Option` and `Result`.
  - `Text`: `trim`, ASCII `toLowerCase`, `split` and number printing.
  - `JsValues`: JavaScript values, truthiness and object spread.
  - `ZodChecks`: the Zod checks the schemas use.
  - `Http`: middleware outcomes and reply bodies.

## Model

| member | source | states |
|---|---|---|
| BlogModel.PublishNow | src/features/blog/blog.controller.js:137-146 | publishing sets PUBLISHED and `publishedAt` to now, keeps the scheduled time and every content field |
| BlogModel.SaveAsDraft | src/features/blog/blog.controller.js:156-165 | save-as-draft sets DRAFT and clears `publishedAt` only; the scheduled time survives |
| BlogModel.Schedule | src/features/blog/blog.controller.js:175-185 | scheduling sets SCHEDULED at the given time and keeps `publishedAt` |
| BlogModel.Unschedule | src/features/blog/blog.controller.js:195-204 | unscheduling sets DRAFT and clears the scheduled time only |
| BlogModel.ScheduledPublish | src/features/blog/blog.scheduler.js:111-121 | the scheduler's publish sets PUBLISHED, stamps now and clears the scheduled time, content untouched |
| BlogModel.ApplyKeepsContent | src/features/blog/blog.controller.js:137-211 | every transition keeps the record's id and content fields |
| BlogModel.TransitionIgnoresStatus | src/features/blog/blog.controller.js:137-211 | no transition reads the current status: records differing only in status end up equal |
| BlogModel.TransitionsIdempotent | src/features/blog/blog.controller.js:156-204 | save-as-draft, schedule at a fixed time and unschedule are idempotent |
| BlogModel.ScheduleThenUnschedule | src/features/blog/blog.controller.js:175-204 | schedule then unschedule gives a draft with no scheduled time, the same as unscheduling alone |
| BlogModel.ConsistentTransitions | src/features/blog/blog.controller.js:175-204 | schedule, unschedule and the scheduler's publish leave "scheduled time present iff SCHEDULED" true |
| BlogModel.ManualHandlersKeepScheduledTime | src/features/blog/blog.controller.js:137-165 | manual publish and save-as-draft of a scheduled blog leave a stale scheduled time |
| BlogModel.ScheduledPublishNotDue | src/features/blog/blog.scheduler.js:54-60 | a blog the scheduler published is never due again |
| BlogModel.PublishNowNotDue | src/features/blog/blog.controller.js:137-146 | a manually published blog leaves the scheduler's query though its scheduled time stays set |
| BlogModel.IsDue | src/features/blog/blog.scheduler.js:54-60 | a due blog is SCHEDULED and has a scheduled time; a null time never matches the `lte` filter |
| BlogStores.DueIds | src/features/blog/blog.scheduler.js:54-60 | the scan's query returns exactly the SCHEDULED blogs with scheduled time at or before now |
| BlogStores.ScheduledIds | src/features/blog/blog.scheduler.js:128-132 | the ids of exactly the SCHEDULED blogs |
| BlogStores.PublishedAll | src/features/blog/blog.scheduler.js:81-96 | publishing a set of ids keeps the table's key set |
| BlogStores.BlogStore.constructor | src/features/blog/blog.scheduler.js:3 | the table starts with the given records, each under its own id |
| BlogStores.BlogStore.CountScheduled | src/features/blog/blog.scheduler.js:128-132 | `count` of the SCHEDULED blogs |
| BlogStores.BlogStore.FindFirstScheduled | src/features/blog/blog.scheduler.js:135-146 | the loop returns a SCHEDULED blog no later than every other one, or none when there is none |
| BlogStores.BlogStore.Update | src/features/blog/blog.scheduler.js:114-121 | update by id applies the transition to that record only; an unknown id fails with P2025 and changes nothing |
| BlogStores.NothingDueAfterScan | src/features/blog/blog.scheduler.js:54-96 | after a scan the only due blogs left are the ones whose update failed |
| BlogStores.ScheduledCountAfterScan | src/features/blog/blog.scheduler.js:81-96 | the SCHEDULED count drops by exactly the number published |
| BlogScheduling.NextCheck | src/features/blog/blog.scheduler.js:163 | the next check is present iff a check happened, exactly 60000 ms after it |
| BlogScheduling.BlogScheduler.constructor | src/features/blog/blog.scheduler.js:6-13 | a new scheduler is stopped, without timer, check time, start time or error, with nothing published |
| BlogScheduling.BlogScheduler.Start | src/features/blog/blog.scheduler.js:16-35 | starting while running changes nothing; otherwise it arms the timer, records the start, and runs one full scan |
| BlogScheduling.BlogScheduler.Stop | src/features/blog/blog.scheduler.js:38-45 | after stop the engine is not running and has no timer, whatever the state before; counters are kept |
| BlogScheduling.BlogScheduler.Tick | src/features/blog/blog.scheduler.js:27-29 | a timer firing is one scan while armed and nothing once stopped; the running flag, the interval and the start time never change |
| BlogScheduling.BlogScheduler.ManualCheck | src/features/blog/blog.scheduler.js:178-181 | a manual check is one scan and leaves the run state alone |
| BlogScheduling.BlogScheduler.ProcessScheduledBlogs | src/features/blog/blog.scheduler.js:48-108 | a scan sets the check time before the query; a failing query records an error without blog id and changes nothing else; otherwise the scan's effect holds and `totalPublished` never decreases |
| BlogScheduling.BlogScheduler.PublishDue | src/features/blog/blog.scheduler.js:80-96 | the loop tries every due blog: it publishes each one whose update works, adds exactly their number to `totalPublished`, and records one failed blog's id and message as `lastError` |
| BlogScheduling.BlogScheduler.HandleDue | src/features/blog/blog.scheduler.js:82-95 | one item: published and counted, or its failure recorded with its id and the table unchanged |
| BlogScheduling.BlogScheduler.PublishScheduledBlog | src/features/blog/blog.scheduler.js:111-121 | the per-item publish changes only that record; a failure leaves the table unchanged and is reported |
| BlogScheduling.BlogScheduler.GetStatus | src/features/blog/blog.scheduler.js:125-174 | the status never fails; with a working store it reports the run state, count, earliest scheduled blog and next check; otherwise only running, interval, current time and the error text |
| BlogScheduling.ScanEnd | src/features/blog/blog.scheduler.js:80-96 | the loop's bookkeeping at its end is the whole scan's effect |
| BlogScheduling.PublishedAllStep | src/features/blog/blog.scheduler.js:84 | publishing one more id extends the published table by that one record |
| BlogScheduling.ScanLeavesOnlyFailuresDue | src/features/blog/blog.scheduler.js:54-96 | after a scan exactly the failed due blogs are still due, and the counter grew by the drop in SCHEDULED blogs |
| BlogScheduling.ScanPublishesExactlyDue | src/features/blog/blog.scheduler.js:54-96 | a scan publishes a blog iff it was due and its update did not fail; every other blog is unchanged |
| BlogScheduling.CleanScan | src/features/blog/blog.scheduler.js:80-96 | with no fault a scan publishes every due blog, counts them all and keeps the last error |
| BlogValidation.ParseStatus | src/features/blog/blog.validation.js:7 | a string is accepted iff it is one of the four status names, and maps to that status |
| BlogValidation.StatusRoundTrip | src/features/blog/blog.validation.js:7 | every status parses back from its own name and from no other string |
| BlogValidation.SlugPatternMeaning | src/features/blog/blog.validation.js:13 | `^[a-z0-9-]+$` accepts exactly the non-empty strings of lower-case letters, digits and hyphens |
| BlogValidation.TitleRulesMeaning | src/features/blog/blog.validation.js:11 | a title passes iff it has 1 to 200 characters |
| BlogValidation.SlugRulesMeaning | src/features/blog/blog.validation.js:12-13 | a slug passes iff it has 1 to 100 characters, each in `[a-z0-9-]` |
| BlogValidation.EnumFieldMeaning | src/features/blog/blog.validation.js:17 | an optional status passes iff it is absent or names a status |
| BlogValidation.BlogAcceptedIff | src/features/blog/blog.validation.js:10-25 | create and update schemas accept a blog iff every field rule holds (content at least 1, excerpt up to 500, meta fields up to 60/160/200, URL and datetime formats) |
| BlogValidation.ParseBlog | src/features/blog/blog.validation.js:10-25 | either blog schema accepts iff every field rule holds for its optionality, parses to the schema's keys, and a refusal carries issues |
| BlogValidation.ParseCreateBlog | src/features/blog/blog.validation.js:10-22 | the create schema accepts iff every field rule holds, parses to the schema's keys with status DRAFT by default, and a refusal carries issues |
| BlogValidation.ParseUpdateBlog | src/features/blog/blog.validation.js:25 | the partial schema accepts iff every rule holds with title, slug and content optional; a refusal carries issues |
| BlogValidation.CreateAcceptedIsUpdateAccepted | src/features/blog/blog.validation.js:25 | whatever create accepts, update accepts |
| BlogValidation.EmptyUpdateAccepted | src/features/blog/blog.validation.js:25 | the update schema accepts the empty object and yields it |
| BlogValidation.StatusDefault | src/features/blog/blog.validation.js:17-25 | a create without status yields DRAFT; an update without status yields none; a given status is kept |
| BlogValidation.ScheduleAcceptedIff | src/features/blog/blog.validation.js:28-39 | a schedule time is accepted iff it is a datetime strictly after now − 60000 ms; exactly now − 60000 is refused |
| BlogValidation.ParseSchedule | src/features/blog/blog.validation.js:28-39 | a missing schedule time is refused; an accepted body parses to the schedule time alone; a refusal carries issues |
| BlogValidation.ParseStatusParam | src/features/blog/blog.validation.js:52-54 | the status route parameter is accepted iff present and a status name |
| BlogMiddleware.Validate | src/features/blog/blog.middleware.js:10-38 | parses `{...body, ...params, ...query}`; success continues with the parsed value, a Zod failure answers 400 with one entry per issue |
| BlogMiddleware.FindUnique | src/features/blog/blog.middleware.js:52-54 | a lookup by id returns the record or nothing, or the store's failure |
| BlogMiddleware.BlogExists | src/features/blog/blog.middleware.js:41-73 | no id answers 400, a store failure 500, an unknown id 404; otherwise continues with exactly that blog |
| BlogMiddleware.FindBySlug | src/features/blog/blog.middleware.js:87-89 | the lookup by slug finds a blog iff some blog holds the slug |
| BlogMiddleware.SlugExists | src/features/blog/blog.middleware.js:76-108 | no slug answers 400, a failure 500, an unknown slug 404 naming the slug; continues iff a blog holds the slug, with exactly the stored blog |
| BlogMiddleware.SlugUnique | src/features/blog/blog.middleware.js:111-140 | no slug passes, a store failure answers 500, and any other refusal is the 400 "already exists" |
| BlogMiddleware.SlugUniqueDecision | src/features/blog/blog.middleware.js:116-129 | a slug is refused iff a blog with a different id holds it; the blog being updated may keep its own slug |
| BlogMiddleware.BlogErrorHandler | src/features/blog/blog.middleware.js:143-190 | ZodError answers 400 with its issues or one 'unknown' entry; P2002 400; P2025 404; else 500 with the message only in development |
| BlogMiddleware.BlogErrorStatuses | src/features/blog/blog.middleware.js:143-190 | the blog error handler answers only 400, 404 or 500 |
| JsValues.SpreadMerge | src/features/blog/blog.middleware.js:13-17 | the merged object has every key of the three; query overrides params, which override body |
| Http.IssueEntries | src/features/blog/blog.middleware.js:24-27 | one `{field, message}` entry per issue, in order |
| ZodChecks.StringIssues | src/features/blog/blog.validation.js:11-21 | a string raises no issue iff every check of its chain holds; at most one issue per check |
| ZodChecks.StringField | src/features/blog/blog.validation.js:11-21 | a string field passes iff absent and optional, or a string meeting all its checks |
| ZodChecks.EnumField | src/features/events/event.validation.js:7-10 | an enum field passes iff absent and optional, or a string among the values |
| ZodChecks.FutureDateField | src/features/events/event.validation.js:36-45 | a date passes iff it is a datetime strictly after one minute before now (or absent and optional) |
| ZodChecks.ElementIssues | src/features/events/event.validation.js:21-27 | array elements raise no issue iff each is a string meeting the checks |
| ZodChecks.StringArrayField | src/features/events/event.validation.js:21-34 | a string-array field passes iff absent and optional, or an array of conforming strings |
| EventValidation.CoverImageField | src/features/events/event.validation.js:29-33 | the cover image passes iff absent, or a string that is empty or starts with `http://` or `https://` |
| EventValidation.EntryFeeField | src/features/events/event.validation.js:46 | the entry fee passes iff absent or a number ≥ 0 |
| EventValidation.ImageUrlsMeaning | src/features/events/event.validation.js:34 | `imageUrls` passes iff absent or an array of URL strings |
| EventValidation.DetailsMeaning | src/features/events/event.validation.js:19-26 | `details` passes iff absent or an object whose lists are string arrays and whose route info is a string |
| EventValidation.EventAcceptedIff | src/features/events/event.validation.js:13-51 | create and update accept an event iff every field rule holds (title 1..200, description 1..2000, location ≤ 500, date, fee, status) |
| EventValidation.ParseEvent | src/features/events/event.validation.js:13-51 | either event schema accepts iff every field rule holds for its optionality, parses to the event with its defaults, and a refusal carries issues |
| EventValidation.ParseCreateEvent | src/features/events/event.validation.js:13-48 | the create schema accepts iff every field rule holds, parsing to the event with its defaults; a refusal carries issues |
| EventValidation.ParseUpdateEvent | src/features/events/event.validation.js:51 | the partial schema accepts iff every rule holds with the required fields optional; a refusal carries issues |
| EventValidation.CreateEventAcceptedIsUpdateAccepted | src/features/events/event.validation.js:51 | whatever create accepts, update accepts |
| EventValidation.EmptyCoverImageIsAbsent | src/features/events/event.validation.js:28-33 | an empty cover image passes and is dropped from the parsed event |
| EventValidation.EventDefaults | src/features/events/event.validation.js:34-51 | create fills DRAFT and the empty image list; update fills neither |
| EventValidation.EventDateBoundary | src/features/events/event.validation.js:36-45 | a date exactly one minute before now is refused; a date of now is not refused for its date |
| EventValidation.PhonePatternMeaning | src/features/events/event.validation.js:57 | the phone pattern matches exactly an optional '+', a digit 1-9 and up to 15 digits, so 1 to 17 characters |
| EventValidation.PhoneRulesMeaning | src/features/events/event.validation.js:56-57 | a phone passes its three checks iff it matches the pattern; the length checks never decide |
| EventValidation.RegistrationAcceptedIff | src/features/events/event.validation.js:54-59 | a registration is accepted iff name has 1..100 characters, the phone matches, and the e-mail is valid and ≤ 255 |
| EventValidation.ParseRegistration | src/features/events/event.validation.js:54-59 | a missing name, phone or e-mail is refused; an accepted body parses to exactly those three values as given |
| EventValidation.ParseResponseStatus | src/features/events/event.validation.js:62-64 | a response status update is accepted iff the status is PENDING, CONFIRMED or CANCELLED |
| EventMiddleware.EventExists | src/features/events/event.middleware.js:41-57 | an unknown id answers 404 naming it, a failure is forwarded; continues iff the event exists, with it |
| EventMiddleware.EventIsPublished | src/features/events/event.middleware.js:82-93 | continues iff the event is PUBLISHED; otherwise 404 |
| EventMiddleware.EventIsOpenForRegistration | src/features/events/event.middleware.js:96-117 | continues iff PUBLISHED and dated after now; unpublished and past events get their own 400 |
| EventMiddleware.RegistrationClosesAtEventTime | src/features/events/event.middleware.js:109 | an event dated exactly now is closed, one millisecond later open |
| EventMiddleware.FindRegistration | src/features/events/event.middleware.js:124-129 | the first registration with this event and exact e-mail, or none iff there is none |
| EventMiddleware.EmailNotAlreadyRegistered | src/features/events/event.middleware.js:120-139 | continues iff no registration of the event carries the exact e-mail; otherwise 400 |
| EventMiddleware.CaseVariantPassesEmailCheck | src/features/events/event.middleware.js:124-131 | the comparison folds no case: `Ann@x.io` passes when `ann@x.io` is registered |
| EventCache.Remove | src/features/events/event.controller.optimized.js:18 | removing a key keeps the other keys in order, without duplicates |
| EventCache.RemoveKeepsOrder | src/features/events/event.controller.optimized.js:18 | a listed key is cut out where it stands: the keys before it and after it keep their order |
| EventCache.DeleteState | src/features/events/event.controller.optimized.js:32 | `delete` drops exactly that key from the Map and from the key order, leaving every other entry as it was |
| EventCache.SetState | src/features/events/event.controller.optimized.js:14-25 | `set` stores the value expiring at now + ttl, changes no other entry, adds only the key below 101 entries, and otherwise evicts the oldest other key |
| EventCache.GetState | src/features/events/event.controller.optimized.js:27-37 | `get` answers null for a missing key, the data for a live entry, and null for an expired entry, which it deletes |
| EventCache.DistinctKeys | src/features/events/event.controller.optimized.js:9 | the cache's insertion order lists each key once, so the size is its length |
| EventCache.SizeBound | src/features/events/event.controller.optimized.js:16-19 | a well-formed cache holds at most 101 entries |
| EventCache.DeleteKeepsWellFormed | src/features/events/event.controller.optimized.js:32 | deleting keeps the cache well formed |
| EventCache.SetKeepsWellFormed | src/features/events/event.controller.optimized.js:14-25 | `set` keeps the cache well formed, hence within 101 entries |
| EventCache.GetKeepsWellFormed | src/features/events/event.controller.optimized.js:27-37 | `get` keeps the cache well formed |
| EventCache.SetThenGet | src/features/events/event.controller.optimized.js:21-36 | a value set at t with lifetime ttl reads back at any time up to t + ttl |
| EventCache.GetExpired | src/features/events/event.controller.optimized.js:28-34 | a missing key reads null and changes nothing; an expired one reads null and is removed |
| EventCache.SetKeepsOthers | src/features/events/event.controller.optimized.js:16-24 | `set` keeps every other entry except the oldest one when more than 100 are held |
| EventCache.EvictsEvenWhenPresent | src/features/events/event.controller.optimized.js:16-19 | a full cache evicts its oldest key even when overwriting an existing key |
| EventCache.TtlCache.constructor | src/features/events/event.controller.optimized.js:9 | the cache starts empty |
| EventCache.TtlCache.Delete | src/features/events/event.controller.optimized.js:32 | `delete` is the delete of the state model |
| EventCache.TtlCache.Set | src/features/events/event.controller.optimized.js:14-25 | `set` is the state model's set, with its eviction |
| EventCache.TtlCache.Get | src/features/events/event.controller.optimized.js:27-37 | `get` returns and leaves what the state model's lookup does |
| EventCache.TtlCache.Clear | src/features/events/event.controller.optimized.js:39-41 | `clear` empties the cache |
| EventRegistration.DecideWithAccepted | src/features/events/event.controller.optimized.js:158-232 | whatever address the duplicate lookup uses, a registration goes through iff the database works, the event exists, is PUBLISHED, not dated before now, and no registration of it carries that address; the stored record is normalised |
| EventRegistration.DecideWith | src/features/events/event.controller.optimized.js:158-232 | a registration happens only without faults, with no registration under the lookup address and with the normalised record; a missing event answers 404 |
| EventRegistration.Decide | src/features/events/event.controller.optimized.js:191-213 | as written: the lookup uses the address as typed, and it agrees with the corrected decision whenever the address is already in its stored form |
| EventRegistration.DecideNormalised | src/features/events/event.controller.optimized.js:191-213 | corrected: a registered record carries the stored form of the e-mail, under which no registration of the event exists yet |
| EventRegistration.RegistrationAcceptedIff | src/features/events/event.controller.optimized.js:158-232 | with the corrected lookup, a registration goes through iff the database works, the event exists, is PUBLISHED, not dated before now, and no registration of it carries the stored form of the e-mail |
| EventRegistration.RefusalStatuses | src/features/events/event.controller.optimized.js:169-250 | every refusal answers 400, 404 or 500 |
| EventRegistration.OpenAtEventTime | src/features/events/event.controller.optimized.js:183 | the controller registers for an event dated exactly now, where the route guard refuses |
| EventRegistration.StoredEmailNormalised | src/features/events/event.controller.optimized.js:213 | the stored e-mail has no capital ASCII letter and no surrounding whitespace |
| EventRegistration.CapitalAddressRegistersTwice | src/features/events/event.controller.optimized.js:191-213 | the same capitalised address registers twice for one event |
| EventRegistration.NormalisedCheckKeepsRegistrationsUnique | src/features/events/event.controller.optimized.js:191-213 | looking up the normalised e-mail keeps registrations unique per address |
| EventRegistration.DropCachedMeaning | src/features/events/event.controller.optimized.js:235-236 | `get(k) && delete(k)` leaves k only as a live entry holding a falsy value and touches no other key |
| EventRegistration.Counted | src/features/events/event.controller.optimized.js:224-231 | the registered event's `responseCount` grows by one; every other event is unchanged |
| EventRegistration.EventController.constructor | src/features/events/event.controller.optimized.js:9 | the controller starts with the given tables and an empty cache |
| EventRegistration.EventController.CreateEventResponse | src/features/events/event.controller.optimized.js:152-252 | with the corrected lookup: a refusal changes nothing; a registration appends the normalised record, counts it and drops both cache entries; registrations stay unique per event and address |
| EventRegistration.EventController.DropCaches | src/features/events/event.controller.optimized.js:235-236 | the event's and the upcoming list's cache entries are dropped |
| InputSanitizer.StripAngles | src/middlewares/inputValidation.js:174 | the result holds no angle bracket, exactly the input's other characters and is no longer; a single character is dropped iff it is `<` or `>` |
| InputSanitizer.StripAnglesAppend | src/middlewares/inputValidation.js:174 | stripping a concatenation strips each part, so with the one-character case the result is the input with its brackets deleted, order and repetitions kept |
| InputSanitizer.SanitizedStringBounds | src/middlewares/inputValidation.js:172-175 | a sanitised string holds no angle bracket and is never longer than the input |
| InputSanitizer.SanitizeNotIdempotent | src/middlewares/inputValidation.js:174 | trimming before stripping: `"a <"` becomes `"a "`, which a second pass changes again |
| InputSanitizer.Sanitized | src/middlewares/inputValidation.js:178-198 | kind is preserved, arrays keep their length, objects their key set, other values are unchanged |
| InputSanitizer.SanitizedHasNoAngles | src/middlewares/inputValidation.js:178-198 | no string at any depth holds an angle bracket after sanitising |
| InputSanitizer.SanitizeObject | src/middlewares/inputValidation.js:178-198 | the loops over array elements and object entries compute the recursive sanitised value |
| InputSanitizer.Request.constructor | src/middlewares/inputValidation.js:170 | a request holds the given body, query and params |
| InputSanitizer.Request.SanitizeInput | src/middlewares/inputValidation.js:201-211 | each part is replaced by its sanitised copy only when truthy |
| InputSanitizer.SanitizedPartKeepsScalars | src/middlewares/inputValidation.js:172-211 | null, undefined, booleans, numbers and falsy parts pass unchanged; a truthy part ends with no angle bracket |
| InputSanitizer.ValidateNamed | src/middlewares/inputValidation.js:137-167 | an unknown schema name answers 500; continues iff Joi accepts, with Joi's value; otherwise 400 with the details |
| InputSanitizer.MisspelledSchemaAnswers500 | src/middlewares/inputValidation.js:139-144 | schema names match exactly: `"Login"` answers 500 |
| Text.Trim | src/middlewares/inputValidation.js:174 | `trim` returns a contiguous piece of the input with no whitespace at either end |
| Text.TrimIdempotent | src/middlewares/inputValidation.js:174 | trimming twice equals trimming once |
| Text.ToLower | src/features/chatbot/chatbot.service.js:13 | lower-casing keeps the length and maps each character |
| Text.Split | src/middlewares/auth.middleware.js:11 | the pieces hold no separator and join back to the input |
| ErrorHandling.SelectedStatus | src/middlewares/errorHandler.js:17-29 | Joi's ValidationError gives 400, else P2002 gives 409, else the error's non-zero status, else 500 |
| ErrorHandling.SelectedMessage | src/middlewares/errorHandler.js:17-30 | the message is never empty: the fixed texts for validation and P2002, else its own, else 'Internal Server Error' |
| ErrorHandling.GlobalErrorHandler | src/middlewares/errorHandler.js:4-52 | an error carrying a status in [400, 600) keeps it and its message; development sends status, message and stack; production sends 4xx messages and a generic 500 otherwise |
| ErrorHandling.ProductionStatuses | src/middlewares/errorHandler.js:38-50 | outside development the status is a 4xx or exactly 500, unless the error carries its own status in [400, 600) |
| ErrorHandling.ValidationErrorWins | src/middlewares/errorHandler.js:18-27 | a validation error with code P2002 answers 400, not 409 |
| ErrorHandling.PlainErrorDefaults | src/middlewares/errorHandler.js:29-50 | a bare error is a 500 'Internal Server Error' in development and the generic message outside it |
| ErrorHandling.StrayStatus | src/middlewares/errorHandler.js:11-50 | a status outside [400, 600) survives in development and becomes 500 outside it |
| Auth.BearerPieces | src/middlewares/auth.middleware.js:10-11 | a `Bearer ` header splits into at least two pieces, the second being the token's first word |
| Auth.AuthenticateToken | src/middlewares/auth.middleware.js:5-12 | a cookie token wins; without one, only a `Bearer ` header supplies one |
| Auth.Authenticate | src/middlewares/auth.middleware.js:4-29 | no token answers 401; continues iff the token verifies, with the decoded payload; a rejected token answers 401 |
| Auth.CookieFirst | src/middlewares/auth.middleware.js:6-12 | with a cookie token the header is never read |
| Auth.BearerHeader | src/middlewares/auth.middleware.js:9-17 | `Bearer <t>` yields `t`; a header in another scheme counts as no token |
| Auth.FrontdeskToken | src/middlewares/auth.middleware.js:37 | no header or an empty one yields no token, a header without a space yields none, otherwise the second space-separated piece |
| Auth.AuthorizeFrontdesk | src/middlewares/auth.middleware.js:34-71 | no token, a rejected token and a falsy payload each answer their 401; continuing needs a truthy staff payload; every refusal is 401 or 403 |
| Auth.FrontdeskDecision | src/middlewares/auth.middleware.js:43-66 | a non-staff role answers 403; a staff user is refused iff both gyms are present and differ; success continues with the user |
| Auth.GymComparedStrictly | src/middlewares/auth.middleware.js:62 | gym 5 in the token does not match gym "5" in the route |
| Auth.MissingBodyReadsAsInvalidToken | src/middlewares/auth.middleware.js:60-69 | without route gym and without body the request fails as an invalid token |
| Memberships.CreateUserMembership | src/features/memberships/membership.service.js:12-42 | fails iff the plan is unknown; otherwise active, auto-renewing, ending the plan's months after now |
| Memberships.OwnedMembership | src/features/memberships/membership.service.js:48 | the membership is found iff it exists and belongs to the user |
| Memberships.UpdateFor | src/features/memberships/membership.service.js:53-70 | cancel sets cancelled, inactive and no renewal; renew sets active and extends the end by the plan's months; other actions set nothing; a given auto-renewal value wins |
| Memberships.Apply | src/features/memberships/membership.repository.js:115-121 | the given columns are overwritten and nothing else changes; an empty update changes nothing |
| Memberships.UpdateUserMembership | src/features/memberships/membership.service.js:44-73 | fails iff the membership is missing or someone else's; otherwise the update for the action |
| Memberships.CancelMeaning | src/features/memberships/membership.service.js:55-70 | cancel leaves cancelled, inactive, and auto-renewing only when asked in the same call |
| Memberships.RenewMeaning | src/features/memberships/membership.service.js:59-70 | renew reactivates and pushes the end back by the plan's months |
| Memberships.RenewTwice | src/features/memberships/membership.service.js:59-66 | renewing twice extends twice |
| Memberships.OtherActionMeaning | src/features/memberships/membership.service.js:53-70 | any other action changes only auto-renewal, and only when given |
| Memberships.CancelIdempotent | src/features/memberships/membership.service.js:55-58 | cancelling again changes nothing |
| Memberships.UpdateAsWritten | src/features/memberships/membership.repository.js:115-121 | with the service's camelCase keys the update reaches the table iff it sets nothing but the status |
| Memberships.ActionsRefusedAsWritten | src/features/memberships/membership.service.js:55-72 | as written every cancel, every renew and every call setting auto-renewal is refused |
| Memberships.UpdateIntended | src/features/memberships/membership.repository.js:93-121 | with the keys spelled as the columns every update succeeds with the effect of `Apply` |
| Chatbot.MockReply | src/features/chatbot/chatbot.service.js:10-23 | every reply is the thanks prefix followed by the chosen topic's text |
| Chatbot.ReplyIsFirstMentioned | src/features/chatbot/chatbot.service.js:13-23 | the topic is mentioned in the lower-cased message and no higher-priority topic is |
| Chatbot.ReplyIgnoresCase | src/features/chatbot/chatbot.service.js:13-19 | lower-casing the message first does not change the reply |
| Chatbot.CalculateAge | src/features/chatbot/chatbot.service.js:147-148 | no birth date gives no age |
| Chatbot.AgeIsCompletedYears | src/features/chatbot/chatbot.service.js:147-160 | the age is the number of completed years: its anniversary has come, the next has not |
| Chatbot.GetUserContext | src/features/chatbot/chatbot.service.js:101-122 | a context exists iff the lookup worked and found a profile, with its fields and the computed age |
| Chatbot.ConcatAppend | src/features/chatbot/chatbot.service.js:129-139 | appending lines appends their text |
| Chatbot.ConcatHoldsEach | src/features/chatbot/chatbot.service.js:129-139 | each line occurs in the prompt right after the lines before it |
| Chatbot.GenerateSystemPrompt | src/features/chatbot/chatbot.service.js:124-145 | the prompt opens with the base sentence, and is exactly it iff there is no context |
| Chatbot.FalsyFieldsOmitted | src/features/chatbot/chatbot.service.js:129-139 | a falsy field (age 0, empty text, empty list) is left out like a missing one |
| Chatbot.OccursShifted | src/features/chatbot/chatbot.service.js:128-141 | a line inside the context block occurs in the whole prompt |
| Chatbot.ContextShown | src/features/chatbot/chatbot.service.js:127-142 | with context the prompt has the header, the footer and every context line |
| Chatbot.SetFieldsListed | src/features/chatbot/chatbot.service.js:129-139 | a set age and non-empty lists get their lines, lists joined with ", " |
| Chatbot.ProcessMessage | src/features/chatbot/chatbot.service.js:40-84 | fails iff storing fails; the reply is the mock reply; the stored context is the profile context when asked and nothing otherwise; system then user message; 500 ms stored |
| Chatbot.ContextOnlyWhenAsked | src/features/chatbot/chatbot.service.js:43-47 | without context the profile is never consulted and the prompt is the base sentence; the reply never depends on it |
| Nutrition.OfMeal | src/features/nutrition/nutrition.service.js:61 | the logs of one meal type, never more than all |
| Nutrition.Total | src/features/nutrition/nutrition.service.js:50-59 | no logs total zero; one log totals its own amounts |
| Nutrition.MealTotal | src/features/nutrition/nutrition.service.js:61-67 | no logs give a zero entry; one log counts, with its amounts, only in its own meal |
| Nutrition.MealTotalIsTotalOfMeal | src/features/nutrition/nutrition.service.js:61-67 | a meal's entry is the count and summed amounts of that meal's logs |
| Nutrition.TotalStep | src/features/nutrition/nutrition.service.js:50-59 | one more log adds its amounts to the totals |
| Nutrition.MealStep | src/features/nutrition/nutrition.service.js:61-67 | one more log grows only its own meal's entry, by its amounts and one |
| Nutrition.KnownMealStep | src/features/nutrition/nutrition.service.js:61-67 | updating the log's own meal entry keeps the breakdown exact |
| Nutrition.UnknownMealStep | src/features/nutrition/nutrition.service.js:61 | a log of an unknown meal leaves the breakdown exact unchanged |
| Nutrition.ZeroedBreakdown | src/features/nutrition/nutrition.service.js:42-47 | the summary starts with exactly the four meals, each the (zero) breakdown of no logs |
| Nutrition.AddToTotals | src/features/nutrition/nutrition.service.js:51-59 | adding one log's amounts turns the totals of the logs before it into the totals including it |
| Nutrition.AddToBreakdown | src/features/nutrition/nutrition.service.js:61-67 | one log keeps the meal keys and turns the breakdown of the logs before it into the breakdown including it |
| Nutrition.Summarize | src/features/nutrition/nutrition.service.js:37-68 | the loop yields the sums over all logs and, for each of the four meals, its count and sums |
| Nutrition.EmptyDay | src/features/nutrition/nutrition.service.js:37-48 | with no logs all totals and all four meals are zero |
| Nutrition.UnknownMealOnlyInTotals | src/features/nutrition/nutrition.service.js:56-67 | an unknown meal type counts in the totals and in no meal |
| Nutrition.SumGrows | src/features/nutrition/nutrition.service.js:62-66 | growing one meal entry grows the sum of the four by the same amount |
| Nutrition.NoMeals | src/features/nutrition/nutrition.service.js:42-47 | with no logs the four meals sum to zero |
| Nutrition.LastMealGrowsSum | src/features/nutrition/nutrition.service.js:61-67 | a last log of a known meal grows the meals' sum by its amounts |
| Nutrition.MealsAddUpToTotals | src/features/nutrition/nutrition.service.js:50-67 | when every meal type is known the meals add up to the totals and count every log |
| Nutrition.UpdateNutritionLog | src/features/nutrition/nutrition.service.js:91-99 | refused iff the log is missing or not the caller's; otherwise only that log is overwritten |
| Nutrition.DeleteNutritionLog | src/features/nutrition/nutrition.service.js:101-109 | refused iff the log is missing or not the caller's; otherwise only that log goes |
| Nutrition.OthersLogsUntouched | src/features/nutrition/nutrition.service.js:91-109 | another user's logs survive every update and delete |
| Monitoring.KeySetMeaning | src/middlewares/productionMonitoring.js:70-72 | the listed endpoint keys are exactly the keys of the endpoint table |
| Monitoring.Initial | src/middlewares/productionMonitoring.js:30-36 | the starting counters are consistent |
| Monitoring.SumIgnoresOthers | src/middlewares/productionMonitoring.js:69-74 | an endpoint outside the summed keys does not change the sum |
| Monitoring.SumUpdate | src/middlewares/productionMonitoring.js:73-78 | replacing one endpoint's stats changes the sum by the difference |
| Monitoring.SumAppend | src/middlewares/productionMonitoring.js:70-72 | a new endpoint adds its stats to the sum |
| Monitoring.KnownEndpointConsistent | src/middlewares/productionMonitoring.js:65-79 | a response of a known endpoint keeps the counters consistent |
| Monitoring.NewEndpointConsistent | src/middlewares/productionMonitoring.js:65-79 | a response of a new endpoint keeps the counters consistent |
| Monitoring.RecordKeepsConsistent | src/middlewares/productionMonitoring.js:47-79 | endpoint counts still sum to `requests`, their errors to `errors`, and no endpoint has more errors than responses |
| Monitoring.SumBounds | src/middlewares/productionMonitoring.js:73 | a sum of non-negative stats bounds each of them |
| Monitoring.ErrorsWithinRequests | src/middlewares/productionMonitoring.js:65-79 | the errors never exceed the requests and no endpoint exceeds the whole |
| Monitoring.ErrorsBelowCounts | src/middlewares/productionMonitoring.js:73-78 | the endpoints' errors sum to no more than their counts |
| Monitoring.RecordCounts | src/middlewares/productionMonitoring.js:47-79 | outside production nothing changes; in production one more request and response time, an error iff status ≥ 400, and the endpoint count grows by one from 0 or its old value |
| Monitoring.Recorded | src/middlewares/productionMonitoring.js:47-79 | outside production nothing changes; in production the endpoint is added to the table and every other endpoint keeps its stats |
| Monitoring.Counted | src/middlewares/productionMonitoring.js:65-79 | one more request, response time and error iff status ≥ 400; the endpoint is listed once and grows by one count, the time and the error; others unchanged |
| Monitoring.LoggingDividesSafely | src/middlewares/productionMonitoring.js:88-113 | metrics are logged at a multiple of 100 requests, so the division by `requests` is safe |
| Monitoring.Trimmed | src/middlewares/productionMonitoring.js:41-43 | trimming keeps the last min(n, 1000) response times in order |
| Monitoring.TrimIdempotent | src/middlewares/productionMonitoring.js:39-44 | trimming twice equals trimming once; under 1000 it changes nothing |
| Monitoring.HealthOf | src/middlewares/productionMonitoring.js:126-148 | uptime in whole seconds, the request and error counts as recorded, the error rate is '0%' iff there were no requests and otherwise errors over requests as a percentage, the endpoint count |
| Monitoring.EndpointsCounted | src/middlewares/productionMonitoring.js:142 | the number of endpoint keys is the size of the endpoint table |
| Monitoring.Metrics.constructor | src/middlewares/productionMonitoring.js:30-36 | the metrics start at the initial, consistent state |
| Monitoring.Metrics.RecordResponse | src/middlewares/productionMonitoring.js:47-96 | one response is recorded as the state model says, consistency is kept, and metrics are logged iff in production at a multiple of 100 |
| Monitoring.Metrics.TrimResponseTimes | src/middlewares/productionMonitoring.js:39-44 | the clean-up trims the response times and changes nothing else |

## Left out

- Logging throughout: `console.*`, the 10% random sampling of the scheduler's idle message, the file appends of the monitoring middleware and the metrics text `logMetrics` writes.
- Concurrency and timers: `setInterval`, the fire-and-forget first scan in `start`, overlapping scans and the SIGINT/SIGTERM handlers. A scan is one atomic step (`Tick`, `Start`, `ManualCheck`), and the per-item `new Date()` of `publishScheduledBlog` is the scan's own time.
- BlogScheduling.BlogScheduler.PublishDue: the store returns the due blogs in no guaranteed order. The loop picks them in any order, so when several updates fail, `lastError` is proved to be one of the failures, not specifically the last in table order.
- The Prisma client and connection configuration: the tables are maps. Store faults are parameters, and a `findUnique` by slug is a search, relying on slugs being unique.
- Joi schemas and Zod's `uuid`, `email`, `url` and `datetime` formats are oracles (`Formats`, `JoiSchema`). The uuid and slug route-parameter schemas are not modelled beyond that.
- `error.errors?.map(...) || []` in the event API's `validate`: an event parse failure always carries its issues here, so the blog `Validate` covers both middlewares.
- Floating point:
  - Nutrition amounts are integers, with a missing value as 0. `parseFloat` of text and the two-decimal `Math.round` are not modelled.
  - The monitoring averages, requests per minute and the `toFixed(2)` formatting of the error rate are not modelled. The rate is kept as its numerator and denominator.
  - The event `entryFee` is a real number.
  - User heights and weights (`heightCm`, `weightKg`) are integers, although the profile schema accepts decimals; the chatbot context only passes them on.
- Calendar arithmetic:
  - Memberships use month indices: `Date.setMonth` overflow at month ends and the day of the month are not modelled.
  - Ages use whole calendar days without time zones.
  - Event and blog times are integer milliseconds.
- `toLowerCase` maps ASCII letters only; `trim` removes the full ECMAScript whitespace and line-terminator set. String lengths count code points, not UTF-16 units.
- Inherited property names are not modelled:
  - A `meal_type` such as `constructor` is truthy on the breakdown object in JavaScript; the model treats it as unknown.
  - A schema name such as `constructor` finds an inherited function in the schema table rather than `undefined`. It does not answer 500; calling `validate` on it throws instead. `InputSanitizer.ValidateNamed` treats every name outside the table as unknown.
- Memberships.UpdateUserMembership: the source copies `autoRenewalEnabled` whenever it is not `undefined`, so an explicit `null` reaches the update. The model's `Option` has no separate `null`, and treats it like an omitted value.
- Monitoring.Metrics.RecordResponse: it records one entry per response. In Express, `res.send` of an object goes through `res.json`, which calls the replaced `res.send` a second time, so the source counts such a response twice.
- Generated values are inputs or absent: the digital pass code, record ids, `createdAt`, the chat message id (an input) and `process.memoryUsage`.
- Thin pass-throughs to a repository with no rule of their own: `getConversationContext`, `clearConversationHistory`, `createNutritionLog`, `getAllMembershipPlans` and `getUserMemberships`. The same goes for the error and performance monitoring middlewares, which only log and forward.
- Chatbot.CalculateAge: the contract gives only when an age exists; its value is characterised by `Chatbot.AgeIsCompletedYears`.
- Nutrition.UpdateNutritionLog: the update may change any column, `user_id` included, because the source passes `updateData` through unchecked.
- EventRegistration.EventController.CreateEventResponse: it follows `DecideNormalised`, the corrected duplicate lookup of the finding below, not the lookup as written; the as-written decision is `EventRegistration.Decide`.
- The registration controller closes an event only when its date is before now, while the route guard closes it at its date as well. Both are modelled as written (`EventRegistration.OpenAtEventTime`).
- ErrorHandling.GlobalErrorHandler: it requires an application error to carry a status code. This is an assumption about the `AppError` class of src/common/errors, which is not part of this model.
- Soft deletion: the plan and membership maps hold only rows whose `is_deleted` is false, standing for the repository's filters (membership.repository.js:35 and :71).
- Memberships.CancelMeaning, Memberships.RenewMeaning, Memberships.RenewTwice, Memberships.OtherActionMeaning and Memberships.CancelIdempotent: they describe `Apply`, the intended effect of the update (see the finding below), not the refused call as written.
- Multi-instance deployment: each process runs its own scheduler and nothing coordinates instances, so two processes can publish the same blog; the model has one scheduler.

## Findings

| source | as written | input that shows it | evidently intended | confidence | as-written member | corrected member |
|---|---|---|---|---|---|---|
| src/features/events/event.controller.optimized.js:191-213 | the duplicate check looks up the e-mail as typed, while the record stores it lower-cased and trimmed | registering `Ann@x.io` twice for the same published event: the lookup for `Ann@x.io` never finds the stored `ann@x.io`, so both registrations succeed | one registration per address and event, checked against the stored (normalised) form | medium, not executed | EventRegistration.CapitalAddressRegistersTwice | EventRegistration.NormalisedCheckKeepsRegistrationsUnique |
| src/features/memberships/membership.service.js:55-72 | the service builds its update with the keys `isActive`, `endDate` and `autoRenewalEnabled`, and the repository spreads them into `data` unchanged, while the columns are `is_active`, `end_date` and `auto_renewal_enabled` (membership.repository.js:93-103) | cancelling any owned membership: the update names `isActive`, which is not a column, so the database client refuses the call | the update writes the columns the keys stand for | medium (the client refusing unknown fields is assumed), not executed | Memberships.ActionsRefusedAsWritten | Memberships.UpdateIntended |
