# witly in Dafny

witly is a small URL shortener. It is an Express application over a MongoDB collection of
Shorty documents, accessed through Mongoose. Each Shorty pairs a long `url` with a short
random `uid`. This project models the parts of witly that have logic of their own, and proves
what they promise:

- **The uid generator** (`Permutator`, module `Permutator`).
  - It holds a character set `n` and a count `k`.
  - `next()` draws `k` characters from distinct positions of `n`.
  - The random draws of `_.sample` are injected as a sequence of indices into the pool of
    characters not drawn yet. This makes `next()` a pure function of the generator and the
    draws; calls share no state.
- **The Shorty schema** (modules `UrlValidator` and `ShortySchema`).
  - `uid` and `url` are required and unique.
  - `url` must match the URL regular expression. `UrlValidator.ValidUrl` restates that
    expression as a decidable predicate.
  - `expireAt` has a default and a TTL index; `timestamps` adds `createdAt` and `updatedAt`.
- **The collection** (module `ShortyStore`): a class `Store`. It holds the documents in
  insertion order and the next `_id`. Its methods are the Mongoose calls the controllers make:
  `find`, `findOne`, `save`, `findByIdAndUpdate`, `findByIdAndRemove` and `findOneAndRemove`.
  Each method keeps both unique indexes.
- **The two controller revisions.**
  - `RoutesById` models api/controllers/shorty.js.
  - `RoutesByUid` models api/controllers/Shorty.js.
  - Each is a set of handlers over the same `Store` that return a `Responses.Response`
    (status and body).
  - The two files differ only in the case of their names, so they are modelled side by side.
    Their `GET /` handlers behave the same (only their log texts differ); `RoutesById.List` models both.
- **The logger registry** of config/logger.js (module `LoggerRegistry`): a get-or-create cache
  keyed by name, held in a class `Registry`.

Clocks and randomness are parameters:

- `now` — the time of a request.
- `loadTime` — the moment the model module loaded.
- `choices` — the draws of `_.sample`.
- `env` — the environment name from config/properties.js.

Two behaviours of the source are modelled as written and proved, because they are easy to
miss:

- The `expireAt` default is computed once, when the module loads (`SharedDefaultExpiry`).
  It is not computed per document, so every document saved a day or more after start-up is
  already expired (`LateSaveIsExpired`).
- The `POST /` handler of api/controllers/Shorty.js builds its document without a `uid`.
  The schema requires one, so that handler always answers 400 and never adds a document
  (`RoutesByUid.Create`).

## Model

| member | source | states |
|---|---|---|
| Permutator.ConstructorDraws | api/utils/permutator.js:25-34 | a uid has 8 characters when `k` is absent or 0, the caller's `k` when positive and none when negative; a caller's `n` is kept as given; an absent `n` gives the default set |
| Permutator.UppercasedLetters | api/utils/permutator.js:28-30 | upper-casing a–z gives A–Z, in order |
| Permutator.DefaultAlphabetLayout | api/utils/permutator.js:26-32 | the default set has 62 pairwise distinct characters: a–z, then A–Z, then 0–9 |
| Permutator.Sample | api/utils/permutator.js:42 | sampling without replacement gives one element per draw; it is a sub-multiset of the pool; every element comes from the pool; a distinct pool gives a distinct sample |
| Permutator.Next | api/utils/permutator.js:36-43 | when `k ≤ \|n\|`, the uid has max(k, 0) characters (`Draws`), all from `n`, with no repeat when `n` is distinct |
| Permutator.NextReadsDistinctPositions | api/utils/permutator.js:36-43 | the uid reads `n` at max(k, 0) pairwise distinct positions, in draw order |
| Permutator.DefaultNextShape | api/utils/permutator.js:25-43 | the default generator gives 8 distinct alphanumeric characters |
| UrlValidator.SchemeRule | api/models/shorty.js:30 | an accepted URL starts with `http://`, `https://` or `ftp://`, in any letter case |
| UrlValidator.SchemeSplit | api/models/shorty.js:30 | after any of the three schemes, in any letter case, a URL is accepted iff the rest passes the user-info, host, port and path rules |
| UrlValidator.HttpScheme | api/models/shorty.js:30 | after `http://` the rest is judged by the user-info, host, port and path rules alone |
| UrlValidator.NoUserInfo | api/models/shorty.js:30 | without an `@`, the part after the scheme is exactly host, port and path |
| UrlValidator.HostIsolated | api/models/shorty.js:30 | a host that ends at a port or path delimiter is accepted iff it is a host and the tail is a port and path |
| UrlValidator.HttpHostRule | api/models/shorty.js:30 | `http://` + host + tail is accepted iff the host rule and the port-and-path rule both hold |
| UrlValidator.HostNameAccepted | api/models/shorty.js:30 | a host name with labels and a top-level domain, followed by a valid port and path, is accepted |
| UrlValidator.ThreeNames | api/models/shorty.js:30 | two labels and a top-level domain of 2 or more letters make a host name |
| UrlValidator.OneNameRejected | api/models/shorty.js:30 | a host without a dot (no top-level domain) is rejected |
| UrlValidator.LocalhostRejected | api/models/shorty.js:30 | `http://localhost` is rejected |
| UrlValidator.GoogleAccepted | api/models/shorty.js:30 | `http://www.google.com`, the example URL of the API documentation, is accepted |
| UrlValidator.PortAndPathAccepted | api/models/shorty.js:30 | `http://www.google.com:8080/a` is accepted |
| UrlValidator.ExcludedQuad | api/models/shorty.js:30 | for a dotted quad, the negative look-aheads fire iff its first two octets are in a private or loopback range |
| UrlValidator.FirstOctetValue | api/models/shorty.js:30 | the first octet is 1–223, with no leading zero |
| UrlValidator.MiddleOctetValue | api/models/shorty.js:30 | a middle octet is 0–255; only a three-digit middle octet must not start with 0 |
| UrlValidator.LastOctetValue | api/models/shorty.js:30 | the last octet is 1–254, with no leading zero |
| UrlValidator.ExcludedOctetsValue | api/models/shorty.js:30 | the excluded prefixes are 10, 127, 169.254, 192.168 and 172.16 to 172.31, by value |
| UrlValidator.IPv4Rule | api/models/shorty.js:30 | `http://a.b.c.d` is accepted iff the octet ranges hold and the address is not in the excluded ranges |
| UrlValidator.PublicAddressAccepted | api/models/shorty.js:30 | `http://8.8.8.8` is accepted |
| UrlValidator.PrivateAddressRejected | api/models/shorty.js:30 | `http://192.168.1.1` is rejected |
| UrlValidator.LastOctetRejected | api/models/shorty.js:30 | `http://8.8.8.255` is rejected: the last octet may not exceed 254 |
| ShortySchema.FieldErrors | api/models/shorty.js:18-37 | no validation error iff uid and url are present and the url is valid; `Required` is reported for exactly the missing paths; `'Invalid URL!'` exactly for a present, invalid url |
| ShortySchema.Rejection | api/models/shorty.js:17-45 | a save is accepted iff it validates and neither its uid nor its url is stored; a validation rejection carries the field errors; a duplicate key names a path whose value is taken |
| ShortySchema.MissingUidRejected | api/models/shorty.js:18-20 | a document without a uid is rejected, with `Required("uid")` among the errors |
| ShortySchema.DuplicateUidRejected | api/models/shorty.js:21-23 | a valid document whose uid is stored is rejected by the uid index |
| ShortySchema.SaveKeepsUnique | api/models/shorty.js:18-37 | appending an accepted document keeps ids, uids and urls pairwise distinct |
| ShortySchema.SharedDefaultExpiry | api/models/shorty.js:38-42 | every document saved without `expireAt` gets the same value, load time plus one day |
| ShortySchema.LateSaveIsExpired | api/models/shorty.js:38-42 | with the default, a document saved a day or more after load is already expired |
| ShortyStore.Find | api/controllers/Shorty.js:41-43 | the first document matching the filter, or none iff no document matches |
| ShortyStore.Without | api/controllers/shorty.js:154 | removing one document keeps the others in order and gives the same multiset minus that document |
| ShortyStore.PatchErrors | api/controllers/shorty.js:123-125 | the update validators pass iff each path in the patch that is given is valid |
| ShortyStore.Clash | api/controllers/shorty.js:123-125 | an update clashes iff another document has its new uid or url |
| ShortyStore.PlanUpdate | api/controllers/shorty.js:123-125 | an update is missing iff it passes the enabled validators and no document has the id; an applied update merges into the document with the id without a clash; a refusal is a failure of the enabled validators, or a duplicate key that the first document with the id would clash on |
| ShortyStore.NoClashApplied | api/controllers/shorty.js:123-125 | a patch that passes the enabled validators and clashes with no other document is applied to the document with the id |
| ShortyStore.KeyMatchesOnce | api/models/shorty.js:21-23 | under the unique indexes, at most one document has a given id, uid or url |
| ShortyStore.RemoveKeepsUnique | api/controllers/shorty.js:154 | a removal keeps the collection unique, and the removed id is no longer found |
| ShortyStore.UpdateKeepsUnique | api/controllers/shorty.js:123-125 | a merge without a clash keeps the collection unique |
| ShortyStore.MergeIdempotent | api/controllers/shorty.js:123-125 | applying the same `$set` twice is applying it once |
| ShortyStore.MergeFields | api/controllers/shorty.js:123-125 | `$set` changes exactly the given fields, plus `updatedAt`; the id and `createdAt` stay |
| ShortyStore.UpdateTouchesOnlyTarget | api/controllers/shorty.js:123-125 | an update keeps the length and uniqueness, and leaves every document with another id unchanged |
| ShortyStore.EmptyUrlPatch | api/controllers/shorty.js:123-125 | without update validators, a patch can empty a stored url; with them, it is refused as `Required("url")` |
| ShortyStore.Store.All | api/controllers/shorty.js:28 | `find({})` returns every document, in order |
| ShortyStore.Store.FindOne | api/controllers/Shorty.js:41-43 | the first matching document, or none iff nothing matches; nothing changes |
| ShortyStore.Store.Save | api/controllers/shorty.js:91 | a rejected save changes nothing; an accepted one appends the built document and advances the id |
| ShortyStore.Store.RemoveOne | api/controllers/shorty.js:154 | removes and returns the first match, or changes nothing when none matches |
| ShortyStore.Store.UpdateById | api/controllers/shorty.js:123-125 | the new collection and the result are those of `PlanUpdate`, and the indexes stay unique |
| RoutesById.GeneratorDraws | api/controllers/shorty.js:19 | the controller's default permutator draws 8 distinct alphanumeric characters from any 8 valid draws |
| RoutesById.List | api/controllers/shorty.js:25-36 | 200 with every document |
| RoutesById.Get | api/controllers/shorty.js:42-63 | 200 with a document that has the id iff one exists, else 404 `'Resource not found'` |
| RoutesById.Create | api/controllers/shorty.js:69-112 | a stored url gives 422 `'Resource already exists'` and no change; otherwise one save: 200 with a document that has the url, the drawn uid and the default expiry, appended, or 400 with the rejection, no change and no retry |
| RoutesById.CreateFailureCauses | api/controllers/shorty.js:85-109 | for a new url, the save fails iff the url is empty or invalid or the drawn uid is taken; a duplicate key can then only be the uid |
| RoutesById.Update | api/controllers/shorty.js:118-144 | 400 with the refusal, 404 when no document has the id, or 200 with the document before or after the `$set`; the collection is the one `PlanUpdate` gives |
| RoutesById.Delete | api/controllers/shorty.js:150-173 | 200 with the document with the id, now removed, or 404 and no change |
| RoutesByUid.TrimStart | api/controllers/Shorty.js:70 | a suffix of the input; what it drops is whitespace; it starts with a non-whitespace character |
| RoutesByUid.TrimEnd | api/controllers/Shorty.js:70 | a prefix of the input; what it drops is whitespace; it ends with a non-whitespace character |
| RoutesByUid.Trim | api/controllers/Shorty.js:70 | a slice of the input with only whitespace outside it, beginning and ending with a non-whitespace character |
| RoutesByUid.TrimIdempotent | api/controllers/Shorty.js:114-115 | trimming a trimmed value changes nothing |
| RoutesByUid.NotEmptyIffTrimmed | api/controllers/Shorty.js:67-70 | `notEmpty()` holds on the raw value iff its trimmed value is not empty |
| RoutesByUid.DeleteErrors | api/controllers/Shorty.js:110-118 | no error iff both uid and url are not empty; `'Missing Shorty UID'` exactly when uid is empty; `'Missing Shorty URL'` exactly when url is empty |
| RoutesByUid.GetByUid | api/controllers/Shorty.js:37-56 | 200 with a document that has the uid iff one exists, else 404 |
| RoutesByUid.Create | api/controllers/Shorty.js:62-99 | always 400, and the collection never changes: an empty url gives the `'Missing Shorty URL'` error; any other url is trimmed and saved without a uid, and rejected with `Required("uid")` |
| RoutesByUid.DeleteByPair | api/controllers/Shorty.js:105-146 | 400 with the failed checks and no change, unless both values are not empty; then the document whose uid and url equal the trimmed values is removed and returned with 200, or 404 and no change |
| RoutesByUid.UidOnlyMatchMisses | api/controllers/Shorty.js:126-129 | a document with the uid but another url is not removed, and nothing else matches |
| RoutesByUid.UrlOnlyMatchMisses | api/controllers/Shorty.js:126-129 | a document with the url but another uid is not removed, and nothing else matches |
| LoggerRegistry.DevelopmentInside | config/logger.js:55 | any environment name that contains `development` logs at `debug` |
| LoggerRegistry.DefaultEnvironmentDebugs | config/properties.js:13 | without NODE_ENV, new loggers log at `debug` |
| LoggerRegistry.ProductionInforms | config/logger.js:55 | `production` logs at `info` |
| LoggerRegistry.Registry.GetLogger | config/logger.js:49-62 | returns the registered logger and changes nothing, or registers and returns a new logger with the name and the environment's level, appended to the key order |
| LoggerRegistry.Registry.GetLoggers | config/logger.js:19-27 | every registered logger, once each, in insertion order |
| LoggerRegistry.Registry.GetLoggerNames | config/logger.js:33-41 | the registered names, in insertion order, pairwise distinct, the name of each logger in order |
| LoggerRegistry.GetLoggerTwice | config/logger.js:49-62 | two requests for one name give the same logger, and at most one entry is added |

## Left out

- I/O and asynchrony are left out:
  - Express request parsing, writing the response and logging calls.
  - The Promise chains. After the 422 of POST / in `api/controllers/shorty.js`, the first `.then` returns `undefined`, and the next `.then` still tries to send 200 on the response already sent. That error reaches the `.catch`, which logs and tries to write 400. The client still receives the 422, so this fall-through is dropped from `RoutesById.Create`.
  - The `.catch` branches that turn a database or cast failure into 400 `{error: err.message}`.
- Cast errors of a malformed `:id` are left out. An id is a natural number, and the generation of ObjectIds is modelled as a counter.
- Mongoose error texts are left out. A rejection is modelled by its cause (`ValidationError` with the failed paths, or `DuplicateKey` with the path).
- When a new document collides on both unique indexes, `ShortySchema.Rejection` reports `uid`. Which index the server reports first is not modelled.
- Concurrent requests and the atomicity of the unique indexes are left out. Each operation runs to completion alone.
- The background TTL sweep (`expires: 0`) is left out. `expireAt` is a stored value, and `ShortySchema.Expired` states when the sweep may remove a document.
- `ShortySchema.SharedDefaultExpiry` says one day is 86 400 000 ms. Calendar days of `moment` across daylight-saving changes are not modelled.
- Update options are left out as fixed values. Whether `findByIdAndUpdate` runs the update validators, and whether it returns the document before or after the update, are parameters (`UpdateOptions`); Mongoose's defaults are not asserted.
- A patch carries only `uid`, `url` and `expireAt`. Fields outside the schema are dropped by strict mode.
- `_id`, `createdAt` and `updatedAt` in a PATCH body are left out. They are schema paths, so strict mode keeps them. MongoDB then refuses the update (`_id` is immutable, and `createdAt` conflicts with the `$setOnInsert` of the timestamps) or ignores the field, depending on the Mongoose version. `ShortyStore.MergeFields` keeping `createdAt` rests on this.
- `RoutesById.Create` takes the body's `url` as a string. A request without a `url`, which would run `findOne({url: undefined})`, is not modelled.
- `RoutesById.Create` works for any generator that can draw. That the controller's generator is the default one is stated by `RoutesById.GeneratorDraws`, not by a precondition of the handler.
- express-validator and `String.prototype.trim` are modelled on ASCII whitespace only: space, tab, line feed, vertical tab, form feed and carriage return. Unicode spaces are not modelled.
- A non-string body value is left out. Body values are strings or absent.
- `Responses.Invalids` keeps the failed checks as a list of parameter and message, in the order they are declared. `validationErrors(true)` returns an object keyed by parameter whose entries also carry the rejected `value`; that object shape and the `value` field are not modelled.
- `UrlValidator.ValidUrl` works on Dafny characters (code points), not on UTF-16 units, and it treats every character from U+00A1 up as a letter. Under the `i` flag it accepts the scheme letters and the letters of labels and top-level domains in either ASCII case. Case folding outside ASCII is not modelled.
- `Permutator.Next` takes the randomness of `_.sample` as the injected `choices`. No probability distribution is modelled.
- `Permutator.Sample` reads `_.sample(this.n, this.k)` as lodash 3's two-argument form. That form draws max(k, 0) elements, at most |n|, from distinct positions. Under lodash 4 the second argument is ignored and `.join` on the single returned element throws; lodash 4 is not modelled.
- `Permutator.Next` assumes a caller's `n` holds single characters. An array element of several characters would `join` into a longer uid; that case is not modelled.
- The `k ≤ |n|` condition of `Permutator.Next` is a precondition, as the constructor's documentation states it; the source never checks it.
- A non-integer `k` is left out. `k` is an integer or absent.
- Bunyan loggers are abstracted to their name and level. Configuration beyond these two is not modelled.
- config/properties.js is not part of this model beyond `LoggerRegistry.EnvOrDefault`. The environment name is a parameter.
- Start-up, middleware, routing and the database connection (app.js, config/bootstrap.js, config/router.js, config/services.js) have no logic of their own and are not part of this model.
