# Firebolt LeadsOffers: the sanitising, logging and request-building logic

This project models, in Dafny, the small pieces of logic of the Firebolt
LeadsOffers application (a React console and front end over an Express API,
Firebase Authentication, Firestore and Cloud Functions) that decide
something rather than render or forward it:

- **Offer sanitising trigger** (`onOfferCreate`, functions/index.js): when an
  offer document is created, the title is trimmed and cut to 120 characters,
  the description trimmed and cut to 1000, the status forced to `pending`
  unless it is `pending`, `accepted` or `declined`, `createdAt` filled when it
  is falsy and `updatedAt` always set; the resulting `updates` map is merged
  into the stored document. Modelled in `offer_sanitizer.dfy` as a method that
  builds `updates` field by field and a class `OfferDocument` whose
  `OnOfferCreate` merges it in place, on top of JavaScript's `trim` and
  `slice` (`js_string.dfy`); the status test `validStatuses.includes` is
  `IsValidStatus`.
- **Legacy webhook route** (backend/routes/webhook.js): the shared-secret gate
  `verifyWebhookSecret` (skip, 401, or pass) and the handler that adds one
  `logEntry` to the `auditLogs` collection (`legacy_webhook.dfy`).
- **Incoming webhook route** (backend/src/routes/webhook.js): the mapping from
  request body to audit event with `||` defaults, one `logAuditEvent` call and
  a 200 / 500 answer (`incoming_webhook.dfy`).
- **Audit logger** (backend/src/utils/auditLogger.js): defaults for omitted
  arguments, the call-time timestamp, one add to `auditLogs`
  (`audit_logger.dfy`; the collection itself is the class `AuditLogs` in
  `audit_store.dfy`, an append-only sequence of documents).
- **Authenticated fetch** (frontend/src/lib/authedFetch.js): the final URL and
  the merged headers of the request handed to `fetch` (`authed_fetch.dfy`).
- **Sign-in error messages** (frontend/src/pages/Login.jsx): the ordered
  substring match from a Firebase Auth error code to a message, inside the
  `onSubmit` handler (`login_errors.dfy`).

JavaScript values are the datatype `JsValue.Value` (`undefined`, `null`,
booleans, integers, strings, objects as maps, the server-timestamp sentinel
and concrete timestamps) with JavaScript truthiness, `||` and destructuring
defaults written out (`js_value.dfy`). A document is a `map<string, Value>`;
a missing key reads as `undefined`. Every outside effect is an input: the
store's success or failure on a write (`fault`), the clock (`now`), the
environment variables, the outcome of the ID-token lookup and of the sign-in.

The trigger keeps a caller-supplied `accepted` or `declined` status; it does
not force `pending` on creation (functions/index.js:44-47,
`OfferSanitizer.StoredStatus`).

## Model

| member | source | states |
|---|---|---|
| `JsString.SkipForward` | functions/index.js:29 | the index where leading whitespace ends: everything before it is whitespace, the character at it is not |
| `JsString.SkipBackward` | functions/index.js:29 | the index where trailing whitespace starts: everything from it on is whitespace, the character before it is not |
| `JsString.Trim` | functions/index.js:29 | `trim()` yields a contiguous middle part of the string, only whitespace is cut off either side, and the result neither starts nor ends with whitespace |
| `JsString.TrimCharacterised` | functions/index.js:29 | any cut into whitespace / middle without whitespace ends / whitespace has the middle equal to `trim()`: the trimmed string is unique |
| `JsString.TrimIdempotent` | functions/index.js:29 | trimming twice equals trimming once |
| `JsString.SlicePrefix` | functions/index.js:29 | `slice(0, n)` is a prefix of length min(n, length) |
| `JsString.StartsWith` | frontend/src/lib/authedFetch.js:32 | `s.startsWith(p)` holds exactly when `p` is no longer than `s` and equals its first `|p|` characters |
| `JsString.Includes` | frontend/src/pages/Login.jsx:38-43 | `s.includes(sub)` holds when `sub` is a prefix of `s`, and only when `sub` is no longer than `s` |
| `JsString.IncludesIff` | frontend/src/pages/Login.jsx:38-43 | the left-to-right `includes` scan is true exactly when the pattern occurs at some index |
| `JsString.IncludesSelfAndLonger` | frontend/src/pages/Login.jsx:38-43 | a string includes itself and never a longer string |
| `OfferSanitizer.Clean` | functions/index.js:29 | the cleaned text is at most `limit` long, is a piece of the input starting at its first non-whitespace character, and is the whole trimmed text unless it was cut at `limit` |
| `OfferSanitizer.IsValidStatus` | functions/index.js:44-45 | a status is valid exactly when it is the string `pending`, `accepted` or `declined`; a valid status is truthy |
| `OfferSanitizer.CleanIdempotentWhenShort` | functions/index.js:29 | a text whose trimmed form fits the limit is unchanged by cleaning it again |
| `OfferSanitizer.CleanCutCanEndInWhitespace` | functions/index.js:29 | when the cut falls after a whitespace character, the cleaned title ends in whitespace and cleaning again would change it |
| `OfferSanitizer.ComputeUpdates` | functions/index.js:24-56 | `updates` holds the cleaned title and description only when they are strings that change, `pending` exactly when the status is falsy or not one of the three, the server timestamp for a falsy `createdAt`, always `updatedAt`, and no other key |
| `OfferSanitizer.UpdatesDetermined` | functions/index.js:25-56 | those conditions fix the `updates` map completely |
| `OfferSanitizer.StatusResetIffInvalid` | functions/index.js:44-47 | the status is reset exactly when it is not one of `pending`, `accepted`, `declined` (the falsy test adds nothing) |
| `OfferSanitizer.StoredTextFields` | functions/index.js:28-40 | after the merge a string title / description equals its cleaned form (at most 120 / 1000 characters); a non-string one is left as it was |
| `OfferSanitizer.StoredStatus` | functions/index.js:44-47 | after the merge the status is always valid; a valid incoming one, `accepted` and `declined` included, is kept; anything else becomes `pending` |
| `OfferSanitizer.StoredTimestamps` | functions/index.js:51-56 | after the merge `createdAt` is truthy, a truthy `createdAt` is never overwritten, `updatedAt` is the server timestamp |
| `OfferSanitizer.MergeKeepsOtherFields` | functions/index.js:60 | the merge changes only the five sanitised keys; `userId` and every other field keep their values |
| `OfferSanitizer.OfferDocument.constructor` | functions/index.js:21-23 | the created document, with no merge writes yet |
| `OfferSanitizer.OfferDocument.OnOfferCreate` | functions/index.js:21-64 | the computed `updates` meets the sanitising conditions; when the store accepts the write the stored document becomes the old one merged with it and exactly one merge write happens; when it rejects it the document and its writes are unchanged |
| `AuditStore.AuditLogs.constructor` | backend/src/utils/auditLogger.js:23 | an empty `auditLogs` collection |
| `AuditStore.AuditLogs.Add` | backend/src/utils/auditLogger.js:23 | a successful add appends exactly the given document and changes nothing else; a failed one changes nothing |
| `LegacyWebhook.Header` | backend/routes/webhook.js:12 | the header is present exactly when the request carries it, and then holds the sent value |
| `LegacyWebhook.VerifyWebhookSecret` | backend/routes/webhook.js:11-25 | skip exactly when the secret is unset or empty; reject exactly when it is set and the header differs (missing included); pass exactly when they are equal |
| `LegacyWebhook.MissingHeaderRejected` | backend/routes/webhook.js:20-22 | with a secret set, a request without the header is rejected |
| `LegacyWebhook.LogEntry` | backend/routes/webhook.js:30-43 | the entry has exactly its seven fields, source `webhook`, status `received`, a truthy event type (`payload.type` or `UNKNOWN`), the body or `{}` as payload, the user agent or null, the server timestamp |
| `LegacyWebhook.PostWebhook` | backend/routes/webhook.js:28-52 | a rejected request gets 401 and logs nothing; an accepted one appends exactly its log entry and gets 200, or gets 500 with nothing logged when the write fails |
| `AuditLogger.AuditRecord` | backend/src/utils/auditLogger.js:5-21 | the record has exactly its seven fields; an omitted `userId`, `entityType`, `entityId` becomes null, `payload` `{}`, `source` `api`; a supplied value (an explicit null included) and `action` are copied; `createdAt` is the call time |
| `AuditLogger.RecordDefinedUnlessActionOmitted` | backend/src/utils/auditLogger.js:5-21 | no field but `action` can be undefined in the record |
| `AuditLogger.LogAuditEvent` | backend/src/utils/auditLogger.js:5-24 | a successful call appends exactly one record and leaves the earlier ones as they were; a failed one changes nothing and reports failure |
| `IncomingWebhook.EventFromBody` | backend/src/routes/webhook.js:11-21 | falsy `userId`, `entityType`, `entityId` become null; `action` is `eventType` or `unknown_webhook_event`; `payload` is `data` when truthy, else the whole body; `source` is `webhook` |
| `IncomingWebhook.IncomingRecord` | backend/src/routes/webhook.js:11-21 | the stored record has source `webhook`, a truthy action, null or the body's value for each reference, `data` / the body / `{}` as payload, and no undefined field |
| `IncomingWebhook.HandleIncoming` | backend/src/routes/webhook.js:9-29 | one audit call per request; success appends its record and answers 200 `{ok: true}`, a failed write answers 500 `{ok: false}` and logs nothing |
| `AuthedFetch.ApiBase` | frontend/src/lib/authedFetch.js:4-5 | the configured base URL, or `http://localhost:3001` when unset or empty |
| `AuthedFetch.FinalUrl` | frontend/src/lib/authedFetch.js:32-34 | a URL starting with `http` is used unchanged; any other is the base followed by the URL |
| `AuthedFetch.FinalUrlAbsolute` | frontend/src/lib/authedFetch.js:32-34 | with a base starting with `http`, every final URL starts with `http` and resolving it again changes nothing |
| `AuthedFetch.CallerHeaders` | frontend/src/lib/authedFetch.js:18 | the caller's headers, or none when the option is absent |
| `AuthedFetch.TokenValue` | frontend/src/lib/authedFetch.js:8-16 | a token exists exactly when the lookup returned an ID token, and then is that token; a signed-out user (`undefined`) or a failed lookup (`null`) leaves none |
| `AuthedFetch.HasToken` | frontend/src/lib/authedFetch.js:27 | the token counts as present exactly when it is a non-empty string |
| `AuthedFetch.IsFormData` | frontend/src/lib/authedFetch.js:22-23 | the body counts as FormData exactly when `FormData` exists and the body is a FormData |
| `AuthedFetch.MergedHeaders` | frontend/src/lib/authedFetch.js:25-29 | `Authorization: Bearer <token>` when a non-empty token was obtained, else the caller's value if any; `Content-Type: application/json` unless the body is FormData, else the caller's; every other caller header kept as given |
| `AuthedFetch.AuthedFetchCall` | frontend/src/lib/authedFetch.js:7-40 | a URL starting with `http` is sent unchanged, any other after the API base; `Authorization` is `Bearer <token>` for a non-empty token, else present exactly when the caller supplied it; `Content-Type` is `application/json` unless the body is FormData; every other caller header is kept as given; the body and other options pass through unchanged |
| `AuthedFetch.FormDataBodyKeepsCallerContentType` | frontend/src/lib/authedFetch.js:21-28 | a FormData body, where `FormData` exists, gets no JSON `Content-Type`: the request carries the caller's own `Content-Type` exactly when the caller gave one |
| `AuthedFetch.DefaultBaseRoutesToBackend` | frontend/src/lib/authedFetch.js:4-5 | without the environment variable, relative URLs go to `http://localhost:3001` and every request URL is absolute |
| `LoginErrors.FriendlyMessage` | frontend/src/pages/Login.jsx:38-46 | one of the four messages; "Invalid email or password." exactly when the code contains `auth/invalid-credential` or `auth/wrong-password`; the generic message exactly when it contains none of the four codes |
| `LoginErrors.FirstMatch` | frontend/src/pages/Login.jsx:38-46 | first-match over an ordered rule table yields the fallback or one of the table's messages |
| `LoginErrors.FirstMatchIsLeast` | frontend/src/pages/Login.jsx:38-46 | first-match stated declaratively: the result is the message of the matching rule with the least index, or the fallback when no rule matches |
| `LoginErrors.FriendlyMessageIsFirstMatch` | frontend/src/pages/Login.jsx:38-46 | the if/else chain equals first-match over the ordered table: the first matching branch wins |
| `LoginErrors.NotIncludedSameLength` | frontend/src/pages/Login.jsx:40 | a code does not contain a different code of the same length |
| `LoginErrors.NotIncludedMissingChar` | frontend/src/pages/Login.jsx:38-43 | a code does not contain a string holding a character the code lacks |
| `LoginErrors.EmptyCodeIsGeneric` | frontend/src/pages/Login.jsx:37-45 | the empty code gets the generic message |
| `LoginErrors.KnownCodes` | frontend/src/pages/Login.jsx:38-41 | the exact codes `auth/invalid-credential`, `auth/wrong-password` and `auth/user-not-found` get their own messages |
| `LoginErrors.TooManyRequestsMissesEarlierTests` | frontend/src/pages/Login.jsx:38-43 | the code `auth/too-many-requests` contains none of the three codes tested before it |
| `LoginErrors.TooManyRequestsCode` | frontend/src/pages/Login.jsx:42-43 | the exact code `auth/too-many-requests` gets "Too many attempts. Try again later." |
| `LoginErrors.ErrorCode` | frontend/src/pages/Login.jsx:37 | `e?.code || ""`: the error's code when it has a truthy one, else the empty string |
| `LoginErrors.OnSubmit` | frontend/src/pages/Login.jsx:28-47 | success leaves the message cleared and navigates to `/dashboard`; a failure shows the message for its code; a non-string code throws with the message still cleared |
| `LoginErrors.MissingCodeIsGeneric` | frontend/src/pages/Login.jsx:37 | an error without a code, or no error object, shows the generic message |

## Left out

- The Firebase and Firestore SDK calls (`snap.ref.set`, `collection().add`, `getIdToken`, `login`) and `fetch`: their outcome is an input (`fault`, `TokenLookup`, `SignIn`) and their effect is an update of a modelled field or a returned value.
- `FieldValue.serverTimestamp()` is the sentinel `ServerTimestamp`; the time the server substitutes for it is not modelled. `Timestamp.now()` is the input `now`.
- `OfferSanitizer.OfferDocument.OnOfferCreate`: `set(..., { merge: true })` is modelled as replacing top-level fields; Firestore merges nested maps field by field, which makes no difference here because every value the trigger writes is a string or a timestamp sentinel.
- The time between the creation of the offer and the trigger run: the trigger reads the snapshot taken at creation and no concurrent write is modelled.
- Strings count `char`s; JavaScript's `trim`, `slice` and `includes` count UTF-16 code units, which differ for characters outside the Basic Multilingual Plane.
- JavaScript numbers are integers here (no `NaN`, no fractions) and arrays are not among the values; an array-valued error code, whose `includes` would look at its elements, is not modelled.
- `AuditStore.AuditLogs.Add` accepts any document; Firestore's refusal of `undefined` field values is not modelled (`AuditLogger.RecordDefinedUnlessActionOmitted` and `IncomingWebhook.IncomingRecord` show where it could arise).
- `AuthedFetch.MergedHeaders`: caller headers are a plain object of strings; a `Headers` instance, whose entries object spread does not copy, is not modelled, nor is a non-string `url`.
- `LegacyWebhook.LogEntry`: `req.ip` is taken to be a string; an absent address, which Firestore would refuse as `undefined`, is not modelled.
- Logging (`console.warn`, `console.error`, `console.log`) has no modelled effect.
- The React rendering and hook state of every page and component, the zod form schemas of the login and registration forms, and the `AuthContext` wrapper.
- Date display in the lead lists, the hard-coded administrator e-mail check of the admin page, the Firestore rules tests (the rules file is not part of this model), the server bootstrap, the build and browser-test configuration.
- An offer accept/decline state machine and role-based authorization: no code for them exists in the modelled files.
