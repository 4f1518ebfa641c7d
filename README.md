# Game backend: readiness gate, accounts, sync and the public level catalog

This project models the request handlers of a small game backend (`functions/api.js`).
The backend authenticates players and stores one save profile per player. It also keeps
a shared catalog of published levels, with one record per level id. The model covers
these pieces of state:

- `databaseState` is the readiness gate (`Unknown`, `Ready`, `Failed`, rendered as 0, 1 and 2).
- `logs` is the append-only diagnostic log.
- `users` is the `User` collection, a map keyed by username. Each record has an optional `data` profile.
- `publicLevels` is the `PublicLevel` collection, a sequence in insertion order. Each record holds a level `id` and the level's `data`.

All four are fields of one `Api.Server` object. The five handlers `/login`, `/signup`,
`/sync`, `/load` and `/getlevels` are methods on it, and each request runs as one atomic
step. `waitForDatabase` is the predicate `GateOpen`. While the gate is closed, a handler
returns `Pending` and changes nothing, because its body is deferred to a later poll.

Failures of the store driver are a parameter, `queryFault`. When it is `Some(e)`, the
handler's first query (`findOne` or `find`) fails with detail `e`, and the handler takes
the query's catch branch.

The `publishedLevels.map` loop of `/sync` runs level by level in list order
(`Server.PublishLevels`). It is proved against the pure function `Catalog.Publish`, and
the catalog properties are lemmas about `Publish`.

Behaviour reproduced from the code as written:

- `logError` called with one argument logs `"<message> : undefined"`.
- `'Username already exists!'` and `'Username not found!'` are answered without a log entry.
- `User.create({ username, password })` stores no `data`, because the schema has no `password` field. A freshly signed-up user therefore cannot log in: `user.data.password` throws, and the query's catch branch answers `'Database user query error!'`. It logs the `TypeError` text.
- `/sync` and `/load` check the password only when the stored user has `data`.
- `/sync` stores the submitted profile as submitted. The `sentToServer` flags are set only after the update has been sent. The catalog records, created after the flagging, hold the flagged levels.
- Take a `/sync` where an unsent level's id is already in the catalog. The handler first answers with the bare string `'Level is already in the database!'`. Its next step reads `newLevel.data.name` on the response object, which throws. The batch then logs `'Database public level update error! : TypeError: ...'`. No second record is created.

## Behaviour worth noting

- Signup stores no profile, so a freshly signed-up user cannot log in.
- A profile loaded after a sync keeps the client's `sentToServer` flags.
- Re-publishing a known level id answers `'Level is already in the database!'` and logs the update error.
- `/sync` and `/load` skip the password check only when the stored user has no `data`. A missing submitted password compares as `undefined`.
- `/sync` answers `{}`.

## Model

| member | source | states |
|---|---|---|
| Records.LogEntry | functions/api.js:12-15 | the entry is the message, then `" : "`, then the error detail, with lengths adding up |
| Api.Server.GateOpen | functions/api.js:17-24 | a handler body runs now exactly when the state's numeric code is 1; otherwise the handlers answer `Pending` |
| Records.PasswordMatches | functions/api.js:91 | strict equality of the stored and supplied passwords: both undefined, or both present and the same string |
| Records.Authorized | functions/api.js:133 | a user without `data` passes whatever password is sent; a user with `data` passes exactly when the stored and submitted passwords are equal |
| Catalog.PublishOne | functions/api.js:142-152 | one level: the catalog grows by at most one record and never loses one; the level comes out flagged; a duplicate is noted exactly when an unsent level's id is already in the catalog; a record is added exactly when an unsent level's id is new |
| Catalog.Publish | functions/api.js:141-155 | the whole list in order: the old catalog stays a prefix and every submitted level comes out once |
| Api.StatusPage | functions/api.js:51-53 | the page starts with `<pre>Database status: ` and the state's digit, and ends with `</pre>` |
| Text.Join | functions/api.js:52 | the joined text's length is the lines' total length plus one separator between each pair of neighbours |
| Api.Server.LogError | functions/api.js:12-15 | appends exactly one `LogEntry(message, error)` after the old entries and returns the message unchanged |
| Api.Server.constructor | functions/api.js:9-10 | at process start the gate is unknown and the log is empty; the store holds what it already held |
| Api.Server.ConnectSucceeded | functions/api.js:26-29 | the gate moves from unknown to ready |
| Api.Server.ConnectFailed | functions/api.js:30-33 | the gate moves from unknown to failed and one `"DATABASE ERROR : <error>"` entry is appended |
| Api.Server.Login | functions/api.js:83-100 | never changes the gate or either collection; covers the deferred, query-failure, unknown-user (logged), no-profile (query error with TypeError), wrong-password (logged) and `{}` outcomes |
| Api.Server.Signup | functions/api.js:102-123 | a taken username is refused with no change to the store or the log; otherwise exactly one record without `data` is added under that username and `SIGNUP SUCCESSFUL` is logged |
| Api.Server.PublishLevels | functions/api.js:141-155 | the catalog, the log, the flagged level list and the duplicate flag end exactly as `Catalog.Publish` of the old catalog says; the catalog invariant is kept |
| Api.Server.Sync | functions/api.js:125-172 | refusals (not found, unlogged; password mismatch, logged) change no collection; an authorised sync replaces the user's `data` wholesale with the submitted profile, leaves every other user unchanged, publishes the levels, never removes or overwrites a catalog record, and answers `{}` or the duplicate message with the update-error entry |
| Api.Server.Load | functions/api.js:174-191 | changes no collection; unknown user is unlogged, password mismatch (only when `data` exists) is logged, otherwise the stored `data` is returned verbatim |
| Api.Server.GetLevels | functions/api.js:193-204 | changes no collection; returns the `data` of every catalog record in order and appends `SENDING LEVELS <count>` |
| Catalog.FindLevel | functions/api.js:144 | finds nothing exactly when no record has the id; a found record is in the catalog and has that id |
| Catalog.PublishExtends | functions/api.js:141-155 | the old catalog is a prefix of the new one; every appended record is `(l.id, l flagged)` for an unsent submitted level `l`, matched by one `LEVEL ADDED TO DATABASE! : <name>` entry |
| Catalog.PublishSent | functions/api.js:141-143 | every submitted level comes out with `sentToServer = true` and is otherwise unchanged |
| Catalog.PublishIds | functions/api.js:141-155 | the catalog's ids afterwards are exactly the old ids plus the ids of the unsent submitted levels |
| Catalog.PublishWellFormed | functions/api.js:144-149 | the catalog keeps at most one record per id, each filed under its level's id and holding a flagged level |
| Catalog.PublishDuplicate | functions/api.js:144-148 | a duplicate is reported exactly when an unsent level's id is already in the catalog or belongs to an earlier unsent level of the list |
| Catalog.PublishKnownIds | functions/api.js:144-148 | when every unsent id is already published, nothing is created or logged, and a duplicate is reported exactly when some level is unsent |
| Catalog.PublishTwice | functions/api.js:141-155 | publishing the same list a second time creates no record and logs no level |
| Catalog.PublishAllSent | functions/api.js:142 | a list whose levels are all marked sent is skipped entirely |
| Catalog.PublishResubmitSent | functions/api.js:141-143 | resubmitting the level objects as a pass left them is a no-op |
| Catalog.CatalogSize | functions/api.js:195-197 | with one record per id, the catalog's size is its number of distinct ids |
| Text.NatToString | functions/api.js:197 | the decimal rendering of a count is a non-empty string of digits without a leading zero |
| Text.ParseNatToString | functions/api.js:197 | the rendered count reads back as the same number |
| Text.NatToStringInjective | functions/api.js:197 | distinct counts render differently |
| Api.LevelsEntryCountsIds | functions/api.js:197 | the getlevels entry is `SENDING LEVELS ` followed by digits that read back as the number of distinct level ids |
| Text.JoinSnoc | functions/api.js:52 | joining one more line adds one separator and that line at the end |
| Text.JoinPrefix | functions/api.js:52 | the joined text of a list is a prefix of the joined text of any extension of it |
| Api.StatusPageGrows | functions/api.js:51-53 | as the log grows, the diagnostic page up to its closing tag stays a prefix of the later page |
| Scenarios.SignupTwice | functions/api.js:102-123 | after a successful signup, a second signup with the same name is refused |
| Scenarios.SignupThenLogin | functions/api.js:83-123 | after signup, login with the signup password fails with the query error; load returns no profile |
| Scenarios.SyncThenLoad | functions/api.js:125-191 | after an authorised sync, load returns the submitted profile verbatim; new catalog records hold flagged levels |
| Scenarios.SyncTwice | functions/api.js:125-172 | a repeated sync adds no catalog record; it answers with the duplicate message exactly when the profile holds an unsent level |

## Left out

- Express routing, `cors` and the header middleware are left out as transport. So is the gzip and `JSON.parse` body decoding, including its `'Invalid compressed data!'` log path. The `mongoose.connect` string and the `serverless` export are external wiring.
- The `setTimeout` re-polling is left out. A deferred request is the `Pending` outcome, and the model does not resume it later.
- Requests run one at a time as atomic steps. Check-then-act races between concurrent requests are not modelled: two signups for one name, or a user vanishing between sync's lookup and its update. The `'Username not found!'` answer after `findOneAndUpdate` only happens in such a race, so it is not modelled.
- The level lookups of one sync run concurrently under `Promise.all` in the source. The model processes them in list order. If two unsent levels in one list share an id, the model finds the first level's record for the second. The source can create both.
- Log order within one sync batch is simplified. The model puts the level entries in list order and the update-error entry last. In the source, entries follow completion order, and the rejection entry may come before later levels' entries.
- Only the failure of each handler's first store query is modelled. Failures of `User.create`, `findOneAndUpdate`, `PublicLevel.findOne` and `PublicLevel.create` are left out, along with their log entries and partial batches.
- After a duplicate, the catch handler calls `res.json` a second time. That call throws because the response was already sent, and the rejection goes unhandled. This is response plumbing; only the log entry written before the throw is modelled.
- Request bodies are modelled with a present string `username` and a present `playerData` with a `publishedLevels` list. Passwords are strings or undefined, and level ids and names are strings. Other shapes are not modelled: an undefined username, which mongoose drops from the filter so it matches any record; a missing `playerData`, which throws before any response; a missing `publishedLevels`, which throws after the update is stored; and non-string values.
- Api.Server.constructor: the store at process start is assumed to hold at most one record per level id, each a flagged level filed under its own id. The source does not guarantee this: concurrent level lookups can create two records for one id, and each cold start of the serverless function meets whatever an earlier process left.
- `find()` has no specified order. The model returns the catalog in insertion order.
- The `TypeError` texts are V8's current messages. Older engines word them differently.
