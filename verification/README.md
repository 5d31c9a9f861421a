# luna-backend, modelled in Dafny

luna-backend is a Flask service behind a companion-chat front end. A user
chats with one of five personas. Free users get 20 messages per trailing
24 hours. Plus subscribers, whose subscription record says `'active'`, are
not limited. Subscriptions are bought through a payment provider whose
webhook events keep the records up to date.

This project models the decision logic of that service and proves
properties of it. The document store becomes an in-memory class. The
language-model provider and the payment provider become parameters that
give the outcome of each call.

| module | file | what it models |
|---|---|---|
| `Wrappers` | wrappers.dfy | `Option` and `Result` |
| `Text` | text.dfy | the Python `str` operations the handlers use: `strip()`, `in`, `lower()`, `split(',')`/`join`, an integer in an f-string |
| `Http` | http.dfy | JSON request values and their truthiness, `dict.get`, query arguments, error kinds and their status codes |
| `Validation` | validation.dfy | `validate_user_id`, `validate_message`, `validate_persona`, the persona prompt table |
| `Store` | store.dfy | chat and subscription documents, the two in-memory scans, and the `Database` class the handlers read and write |
| `Prompt` | prompt.dfy | how `chat()` assembles the prompt |
| `Models` | models.dfy | the ordered model fallback and the classification of the final error |
| `Chat` | chat.dfy | `chat()`: the gate, the conversation count, entitlement, quota, fallback, append |
| `History` | history.dfy | `get_chat_history`: persona filter, stable sort by timestamp |
| `Payments` | payments.dfy | plan lookup of `create_checkout`, `stripe_webhook`, `get_subscription_status` |
| `Origins` | origins.dfy | the CORS origin list built from `FRONTEND_URLS` |

How the model reads the code:

- The chat handler is specified twice, and the two are tied together by a proof.
  - `Chat.ChatSpec` computes the answer and the document to append from the store's contents before the request.
  - The method `Chat.Chat` performs the same steps in source order on a `Store.Database`. Its postcondition says it returns `ChatSpec`'s answer and appends exactly `ChatSpec`'s document.
  - The lemmas about the handler are stated on `ChatSpec`.
- The daily limit is 20, as the code compares (app.py:314). The comment at app.py:282 says 30.
- A store failure is a parameter (`Chat.StoreFaults`), and how it is handled depends on where it happens.
  - A failure of either scan is caught where it happens. A failed conversation scan makes the conversation new. A failed quota scan lets the request through.
  - A failure of the subscription read or of the append reaches the outer handler. That handler answers 429 or 500 by the text of the failure, the same way it does for a model failure.
- The fallback loop treats a quota failure and any other failure the same way: both move on to the next model (app.py:346-352). Only the last failure decides the status.
- `validate_user_id` uses `re.match` with `$`. Python's `$` also matches before one final newline, so an id followed by a single `"\n"` is accepted. The model keeps this behaviour and proves it (`Validation.UserIdTrailingNewline`).
- `str.lower()` is modelled as ASCII lowering. The keywords searched for ("quota", "timeout", "timed out", "connection") are plain ASCII. Outside ASCII, only KELVIN SIGN and LATIN CAPITAL LETTER I WITH DOT ABOVE lower to ASCII letters. KELVIN SIGN gives 'k', which no keyword contains. The dotted capital I gives 'i' followed by a combining dot, and the dot breaks any keyword at that 'i'. So the containment answers of the model and of Python always agree.
- In `stripe_webhook` no store call is inside a `try` (app.py:558, 575-581, 590-596). A failing call therefore answers 500, the record stays as it was, and the provider delivers the event again. The model takes this failure as the `storeFails` parameter of `Payments.Webhook`.
- `get_subscription_status` answers `isSubscribed` from the stored status only. When the provider reports a lapsed subscription, the record is marked inactive for the next query, and the current answer stays `true` (app.py:631-647).

## Model

| member | source | states |
|---|---|---|
| Text.StripEmptyIffAllSpace | utils.py:22 | `strip()` leaves nothing exactly when every character is whitespace in Python's `isspace` sense |
| Text.ContainsIffOccurs | app.py:346 | substring test `in` holds exactly when the pattern occurs at some index |
| Text.Lower | app.py:346 | lowering keeps the length |
| Text.Split | app.py:39 | `split(',')` gives at least one piece and no piece holds the separator |
| Text.JoinSplit | app.py:39 | joining the pieces of `split(sep)` with `sep` gives back the original string |
| Text.SplitJoin | app.py:39 | splitting a join of separator-free pieces gives back the pieces |
| Text.Decimal | app.py:255 | the count in the f-string is decimal digits, with no leading zero unless the count is 0 |
| Text.DecimalRoundTrip | app.py:255 | parsing the rendered count gives the count back |
| Text.DecimalInjective | app.py:255 | different counts render differently |
| Http.Status | app.py:184-215 | every error answer is 400, 429 or 500 |
| Validation.ValidateUserId | utils.py:4-14 | a valid id is a string of 20 to 128 characters, every one an id character except that the last may be a newline |
| Validation.ValidateMessage | utils.py:17-27 | an all-whitespace string fails; a string of at most 5000 characters with a non-whitespace character passes |
| Validation.ValidatePersona | utils.py:30-33 | a valid persona is a string with its own entry in the persona prompt table |
| Validation.IdRun | utils.py:12 | the greedy run of `[a-zA-Z0-9_-]` never exceeds the string |
| Validation.IdPatternIff | utils.py:12 | `re.match(r'^[a-zA-Z0-9_-]+$')` accepts exactly the non-empty id-character strings, and those followed by one newline |
| Validation.UserIdIff | utils.py:4-14 | a string id is valid exactly when it has 20 to 128 characters and matches the pattern, stated without the regex engine |
| Validation.UserIdLengthWindow | utils.py:9-10 | for id-character strings the length alone decides: 19 and 129 fail, 20 and 128 pass |
| Validation.UserIdTrailingNewline | utils.py:12-13 | an id plus one `"\n"` passes, plus two fails, and an inner newline fails |
| Validation.MessageIff | utils.py:17-27 | a message passes exactly when it has a non-whitespace character and at most 5000 characters before stripping |
| Validation.PersonaIff | utils.py:30-33 | exactly the five persona names pass, case-sensitively; non-strings fail |
| Validation.PromptKeysArePersonas | utils.py:32-46 | the prompt table's keys are exactly the valid personas |
| Store.Count | app.py:223-227 | a count never exceeds the number of chats |
| Store.CountZeroIff | app.py:228 | the count is zero exactly when no chat is selected |
| Store.CountAppend | app.py:295-307 | counting distributes over concatenated logs |
| Store.CountIgnoresUnselected | app.py:296-307 | chats of other users, other personas or outside the window do not change a count |
| Store.CountAllSelected | app.py:296-307 | every selected chat counts once |
| Store.IsPlus | app.py:275-280 | a user is Plus exactly when their record exists and its status, read as `'inactive'` when missing, is `'active'` |
| Store.Database.CountWhere | app.py:221-227 | the streaming loop's count equals the specification count `Count` |
| Store.Database.Add | app.py:374-380 | the chat log grows by exactly the new document; subscriptions are untouched |
| Store.Database.Put | app.py:558-565 | the record under the key becomes the given record; nothing else changes |
| Store.Database.SetStatus | app.py:578-581 | only the status and the update time of that one record change |
| Store.Database.FindBySubscriptionId | app.py:575 | a returned key carries the subscription id; none is returned only when no record carries it |
| Prompt.Template | app.py:248 | every persona gets a description from the table; one without an entry gets Luna's |
| Prompt.ComposePrompt | app.py:258-271 | the prompt opens with the persona's description |
| Prompt.TemplateOfValidPersona | app.py:248 | a valid persona gets its own description, never the fallback |
| Prompt.FirstClauseIffNew | app.py:251-255 | the first-message clause opens the context clause exactly when the conversation is new |
| Prompt.PromptLayout | app.py:248-271 | the prompt starts with the persona's description, has the first-message clause right after it iff new, and ends with the message and the `Luna:` marker |
| Prompt.ContinuingContextInjective | app.py:255 | the continuing clause determines the message count it reports |
| Models.FirstSuccess | app.py:326-355 | an answer comes from a candidate model that produced exactly that text; an exhausted outcome carries a failure exactly when some model was tried |
| Models.FirstSuccessAt | app.py:331-341 | if every earlier model fails and model i answers, the outcome is model i's answer |
| Models.FirstSuccessAllRaised | app.py:342-355 | if every model fails, the outcome carries the last model's failure |
| Models.AnsweredIsFirst | app.py:326-355 | an answer comes from the first model that answers; the fallback is exhausted exactly when every model fails |
| Models.TryModels | app.py:326-355 | the loop tries the candidates in order, each at most once, stops at the first answer, and its outcome is the `FirstSuccess` specification |
| Models.Classify | app.py:384-406 | the outcome is 429 exactly for a quota text and 500 otherwise; timed-out and connection texts map to their kinds, checked in that order |
| Models.ExhaustedText | app.py:354-355 | the last failure is re-raised as is; with none, the generic exception's text classifies as the 500 of an unknown failure |
| Chat.Admit | app.py:183-215 | an admitted request has a valid user id, message and persona; a refusal is a 400 or a 500 |
| Chat.AdmitIff | app.py:183-215 | a request is admitted exactly when both clients exist and the JSON object has three valid fields, persona defaulting to Luna |
| Chat.AdmitPrecedence | app.py:183-215 | the first failing check in source order decides the error: clients, then JSON, then a falsy body (`InvalidJson`) before a non-object one (500), then user id, message and persona; a falsy field is "required", a truthy malformed one "invalid" |
| Chat.ChatSpec | app.py:181-406 | a document is appended only with a 200 reply to an admitted request, and it holds that request's user, persona and message, the reply and the time |
| Chat.Chat | app.py:181-406 | the handler answers as `ChatSpec`, appends exactly `ChatSpec`'s document, and leaves subscriptions alone |
| Chat.GateDecidesBeforeStore | app.py:183-215 | a refused request is answered the same whatever the store, the store failures and the provider, and nothing is appended |
| Chat.NewConversationIff | app.py:219-232 | the prompt has the first-message clause exactly when the scan failed or no chat of the user has this persona |
| Chat.LimitReachedIff | app.py:275-320 | 403 happens exactly when the user is not `'active'`, both reads succeed and at least 20 of the user's chats are stamped after now minus 24 hours |
| Chat.ActiveSubscriberNeverLimited | app.py:276-283 | an `'active'` subscriber is never refused by the quota |
| Chat.ExhaustedFollowsLastError | app.py:354-406 | when every model fails, the answer depends only on the last failure: 429 iff it speaks of quota, else 500 |
| Chat.ReplyIffAppended | app.py:374-382 | a 200 reply comes exactly with one appended document holding the user, persona, message, reply and time |
| Chat.ReplyFromFirstAnsweringModel | app.py:331-360 | the reply is the text of the first model that answered |
| History.Matching | app.py:436-447 | at most one entry per stored chat |
| History.MatchingCount | app.py:436-447 | the history has as many entries as the chat handler's conversation count |
| History.MatchingSound | app.py:440-447 | every entry comes from a chat of this user with this persona |
| History.SwapKeepsStable | app.py:450 | exchanging neighbours with different keys keeps each key's entries in order |
| History.StableIsPermutation | app.py:450 | a stable rearrangement is a permutation |
| History.SortedStableUnique | app.py:450 | two sorted stable rearrangements of the same list are equal |
| History.SortByKey | app.py:450 | the in-place sort leaves the entries ordered by timestamp (missing = 0), a stable permutation of the input |
| History.HistoryGate | app.py:413-426 | the query runs exactly for a configured store, a valid user id and a valid persona (default Luna) |
| History.CollectMatching | app.py:436-447 | the loop collects exactly `Matching`, in query order |
| History.History | app.py:410-461 | an accepted request gets its matching chats sorted stably by timestamp, or `[]` when the query fails; a refused one gets the gate's error |
| History.HistoryIsDetermined | app.py:436-450 | the answer is unique and is a permutation of the matching chats |
| History.HistoryAsWritten | app.py:431-454 | as written: when the matching entries mix present and missing timestamps, the answer is `[]` |
| History.MixedTimestampsHideHistory | app.py:450-454 | two chats, one stamped and one not, make the sort raise, though two entries match |
| Payments.CheckoutPlan | app.py:470-489 | a checkout proceeds with a valid user id and a catalogue plan; otherwise one of the listed errors |
| Payments.CheckoutPlanIff | app.py:470-489 | checkout proceeds exactly when `planId` is absent (monthly) or names one of the three plans, and the plan is the one named |
| Payments.CheckoutUserId | app.py:552 | `client_reference_id` wins when truthy, else the metadata user id; the result is truthy iff either is |
| Payments.UpdatedStatus | app.py:579 | an update writes `'active'` exactly when the provider says `'active'`, `'inactive'` otherwise |
| Payments.CheckoutRecord | app.py:556-565 | the record a checkout writes is `'active'`, on the session's plan, or monthly when the metadata names none |
| Payments.WebhookAnswer | app.py:532-599 | 500 exactly when the event needs the store and the store is missing or its call raises; acknowledged exactly for any other verified event |
| Payments.WebhookEffect | app.py:550-597 | no event ever removes a record |
| Payments.SetStatusById | app.py:574-581 | the record found by subscription id, if any, gets the status |
| Payments.Webhook | app.py:532-599 | the answer is `WebhookAnswer`: 400 for a refused delivery, 500 when the store is missing or raises; the event changes the subscriptions as `WebhookEffect` says, and not at all on a failure; chats are untouched |
| Payments.StoreFailureChangesNothing | app.py:556-596 | a store failure while handling an event answers 500 and leaves every record as it was |
| Payments.WebhookKeepsKnownStatuses | app.py:550-597 | records only ever hold `'active'`, `'inactive'` or `'cancelled'` |
| Payments.StatusEventsTouchOneMatchingRecord | app.py:575-597 | an update or deletion changes at most one record, one with the event's subscription id, and creates none |
| Payments.CheckoutGrantsPlus | app.py:556-565 | a completed checkout with a user id makes that user Plus and leaves other users' records alone |
| Payments.StatusEventsDecidePlus | app.py:568-597 | for the one record with the id, an update keeps Plus iff the provider says active; a deletion ends Plus |
| Payments.StatusGate | app.py:606-615 | the record is read exactly for a configured store and a valid user id |
| Payments.StatusAgreesWithPlus | app.py:626-647 | the status endpoint reports a user subscribed exactly when the chat endpoint treats them as Plus |
| Payments.StatusAnswer | app.py:620-650 | no record answers "none"; otherwise `isSubscribed` holds exactly when the stored status is `'active'` |
| Payments.SubscriptionStatus | app.py:603-654 | the answer is `StatusAnswer` of the record as read; the record is marked inactive exactly when the provider reports another status and the write succeeds |
| Payments.ReconciledRecordIsNotSubscribed | app.py:632-647 | a lapsed subscriber is still answered subscribed; the reconciled record is not |
| Origins.Configured | app.py:39 | kept entries are non-empty, never more than the pieces |
| Origins.AllowedOrigins | app.py:30-39 | the two development origins come first; every added origin is non-empty |
| Origins.ConfiguredKeepsClean | app.py:39 | clean entries pass through unchanged and in order |
| Origins.ConfiguredDropsBlank | app.py:39 | blank entries are dropped |
| Origins.AllowedOriginsRoundTrip | app.py:37-39 | clean origins joined by commas are allowed exactly, after the defaults |
| Origins.BlankVariableKeepsDefaults | app.py:37-39 | a variable of only commas and whitespace allows only the defaults |

## Left out

- Flask routing, the rate limiter, the security headers and the application of the CORS list are framework wiring. Request parsing is reduced to the `Http.Payload` shapes.
- Client and key initialisation, and environment loading, are configuration: `Chat.Config` and the `dbConfigured` flags stand for their outcome.
- The language-model call is a parameter (`Models.Generator`) giving a reply text or a failure text per model and prompt. Token-usage logging and the printed model name are left out.
- Document-store I/O is replaced by `Store.Database`.
  - The order in which a query streams the user's chats is taken to be the order of the log.
  - `SERVER_TIMESTAMP` becomes a `now` parameter, and timestamps are integer seconds. The datetime conversion at app.py:302-305 is not modelled.
  - A missing document field and a field holding null are not told apart (`Option`).
- Store.Database.FindBySubscriptionId: which record `limit(1)` returns when several share a subscription id is not modelled; the method returns some matching record.
- Payment-provider calls are foreign. This covers checkout-session creation and its `StripeError` answer (400), signature verification (replaced by `Payments.Delivery`) and `Subscription.retrieve` (replaced by the `live` parameter).
- Payments.CheckoutPlan: stops where the session is created; the session fields (price data, URLs, metadata) are not modelled.
- `create_portal_session` and `health_check` are outside the modelled core. They only read a record and call the provider, or answer a constant.
- The persona descriptions, the context-clause guidance and the rule text of the prompt are placeholders. The model keeps which pieces appear and in which order.
- Error message wording, the `details` field shown in debug mode, and the body of the 403 answer are left out. Only the error kind and the status are kept.
- The race between the quota count and the append is not modelled, since the code has no locking and the model is sequential.
- JSON numbers and booleans are reduced to their truthiness, which is all the handlers look at.
- Text.Lower: lowers ASCII letters only; see the note above on why the searched keywords give the same answers.

## Findings

| source | as written | input that shows it | evidently intended | confidence | as-written member | corrected member |
|---|---|---|---|---|---|---|
| app.py:450 | The sort key `x.get('timestamp') or 0` gives a datetime for a stamped chat and the int 0 for an unstamped one. Sorting a list holding both compares a datetime with an int, which raises TypeError. The `except` at app.py:452-454 then answers an empty history. | two chats of a valid user with persona Luna, one with a timestamp and one without | a missing timestamp sorts as 0, and every matching chat is returned | not executed | History.HistoryAsWritten | History.History |

`History.MixedTimestampsHideHistory` exhibits the input. `History.History`, which the model uses, returns the matching chats sorted with a missing timestamp as 0.
