# URL shortener registry

A Dafny model of the backend of a small URL-shortening service
(`backend/server.js`). The service keeps every short link in one in-memory
dictionary `urls` from shortcode to record `{originalUrl, expiry, clicks,
createdAt}`. Three request handlers use it:

- **create** (`POST /shorturls`) checks that the url starts with `http://` or
  `https://`. It takes the caller's shortcode, or six characters of a fresh
  UUID when the caller gives none. It refuses a shortcode that is already
  stored. Otherwise it stores a record that expires `validity` minutes
  (default 30) from now, and returns `http://localhost:5000/<code>` with the
  expiry.
- **redirect** (`GET /:shortcode`) answers not-found or expired. Otherwise it
  appends one click event to the record and redirects to the original url.
- **stats** (`GET /shorturls/:shortcode`) reports the record with its number
  of clicks. It does not check expiry.

Layout:

- `registry.dfy`, module `UrlRegistry`. It holds the data model. It holds the
  three handlers as functions from a registry to a response and a new registry
  (`CreateStep`, `RedirectStep`, `StatsOf`). It holds the class `Registry`,
  whose field `urls` is the dictionary. Its methods `Create`, `Redirect` and
  `Stats` update that field in place and are proved equal to those functions.
- `properties.dfy`, module `RegistryProperties`. It states what each handler
  promises. It also serves any sequence of requests one after another
  (`Replay`) and proves the properties that hold over such sequences: records
  are never removed or rewritten, no short link is handed out twice, clicks
  are appended in call order, and stats are stable between redirects.
- `prototype_keys.dfy`, module `PrototypeKeys`. It models the dictionary
  lookup exactly as JavaScript performs it (see Findings).

Inputs that come from outside the handlers are parameters:

- the clock is `now` (milliseconds since the epoch);
- the first six characters of `uuidv4()` (`uuidv4().slice(0, 6)`) are
  `generated`, which must be six lower-case hex digits;
- the `Referer` header and `req.ip` are fields of `Visit`.

A JSON field the body leaves out is `None`. Responses are `Result` values:
`Failure` lists InvalidUrl and Collision (400), NotFound (404), Expired (410)
and InternalError (500).

Two behaviours of the handlers are easy to overlook:

- The handler never checks that `validity` is positive. Zero or a negative number is
  stored as given, so `expiry` may equal or come before `createdAt`.
  `RedirectWithinValidity` covers those cases too: with a negative validity
  the link is already expired when it is created.
- `new Date(ms)` yields an Invalid Date when `ms` is more than 8.64e15 ms from
  the epoch (`DateAt`). In that case line 37 still stores the record. Then
  line 48 (`toISOString`) throws, and the catch turns that into a 500. Every
  comparison with an Invalid Date is false, so that record never expires
  (`CreateWithUnrepresentableExpiry`).

## Model

| member | source | states |
|---|---|---|
| UrlRegistry.Registry.constructor | backend/server.js:10 | the registry starts empty |
| UrlRegistry.CreateStep | backend/server.js:17-54 | create answers only InvalidUrl, Collision, InternalError or success; it succeeds exactly when the url is valid, the chosen code is not stored and the expiry is a valid Date; it never changes or removes a stored entry and adds at most the chosen code (details in `CreateRejectsInvalidUrl`, `CreateCollidesIffStored`, `CreateStoresFreshRecord`, `CreateWithUnrepresentableExpiry`) |
| UrlRegistry.RedirectStep | backend/server.js:57-71 | redirect answers only NotFound, Expired or success, and a failure changes nothing; it succeeds exactly when the code is stored and not expired; the key set and every other record are unchanged (details in `RedirectExpiredIffPastExpiry`, `RedirectAppendsOneClick`) |
| UrlRegistry.StatsOf | backend/server.js:74-87 | stats fails, with NotFound only, exactly when the code is not stored; otherwise it reports the stored record's originalUrl, createdAt, expiry and clicks, with `totalClicks` equal to their number (see `StatsReportsRecord`) |
| UrlRegistry.ChosenCode | backend/server.js:26-28 | the code used is the generated one, or else the supplied non-empty shortcode; a missing or empty shortcode always yields the generated code (see `GeneratedCodeWhenNoShortcode`) |
| UrlRegistry.ValidityMinutes | backend/server.js:19 | an omitted validity is 30 minutes; a given one is used as is, unchecked |
| UrlRegistry.DateAt | backend/server.js:35 | `new Date(ms)` is a valid Date holding `ms` exactly when `ms` is within 8.64e15 of the epoch |
| UrlRegistry.ExpiryOf | backend/server.js:35 | the expiry is a valid Date holding `now + validity*60000` (validity 30 when omitted) exactly when that sum is within 8.64e15 of the epoch, and an Invalid Date otherwise |
| UrlRegistry.IsExpired | backend/server.js:62 | a link is expired only when its expiry is a valid Date, and never at the expiry instant itself; an Invalid Date never expires (see `RedirectExpiredIffPastExpiry`, `ExpiredStaysExpired`) |
| UrlRegistry.ClickOf | backend/server.js:64-68 | a click holds the request time and ip, and a non-empty referrer: the header value when it is non-empty, otherwise "direct" |
| UrlRegistry.ShortLink | backend/server.js:47 | the link is `http://localhost:5000/` followed by the code, and removing that prefix gives the code back (see `ShortLinkInjective`) |
| UrlRegistry.IsWebUrl | backend/server.js:21 | the url test (present, non-empty, matches `^https?://`) accepts exactly the strings that begin with `http://` or `https://` |
| UrlRegistry.Registry.Create | backend/server.js:17-54 | the in-place handler produces exactly the response and registry of `CreateStep`; a failure other than InternalError leaves the registry unchanged, and a success adds exactly the chosen code as a key |
| UrlRegistry.Registry.Redirect | backend/server.js:57-71 | the in-place handler produces exactly the response and registry of `RedirectStep`; a success grows that record's clicks by exactly one |
| UrlRegistry.Registry.Stats | backend/server.js:74-87 | read-only: NotFound exactly when the code is not stored; otherwise the stored originalUrl, createdAt, expiry and clicks, with `totalClicks` equal to their number |
| RegistryProperties.CreateRejectsInvalidUrl | backend/server.js:21-24 | create fails with InvalidUrl if and only if the url is missing, empty or not http(s), and then the registry is unchanged |
| RegistryProperties.InvalidUrlExamples | backend/server.js:21 | `""`, a missing url, `ftp://x.com`, `http:/x` and upper-case `HTTP://` are rejected; `https://example.com` and `http://` are accepted |
| RegistryProperties.GeneratedCodeWhenNoShortcode | backend/server.js:26-28 | a missing or empty shortcode is replaced by the generated code; a non-empty one is used as given; the chosen code is never empty |
| RegistryProperties.CreateCollidesIffStored | backend/server.js:30-33 | with a valid url, create fails with Collision if and only if the chosen code, supplied or generated, is already stored (no retry), and then every record, clicks included, is unchanged |
| RegistryProperties.CreateStoresFreshRecord | backend/server.js:19-49 | create succeeds if and only if the url is valid, the chosen code is not stored and the expiry is a valid Date, and it never answers NotFound or Expired; a successful create adds exactly one new key, mapped to `{url, now + validity*60000, [], now}`, with validity 30 when omitted, returns `http://localhost:5000/<code>` and that expiry, and leaves every other entry unchanged |
| RegistryProperties.CreateWithUnrepresentableExpiry | backend/server.js:35-52 | create answers InternalError exactly when the url is valid, the code is new and the expiry lies outside the Date range; the record `{url, Invalid Date, [], now}` is stored anyway, every other entry is unchanged, and redirects to it always succeed |
| RegistryProperties.ShortLinkInjective | backend/server.js:47 | two short links are equal if and only if their codes are |
| RegistryProperties.RedirectUnknownCode | backend/server.js:59-61 | redirect on a code that is not stored returns NotFound and changes nothing |
| RegistryProperties.RedirectExpiredIffPastExpiry | backend/server.js:62 | redirect returns Expired if and only if now is strictly after the record's (valid) expiry, and then changes nothing; at now == expiry it succeeds |
| RegistryProperties.RedirectAppendsOneClick | backend/server.js:64-70 | a successful redirect returns the original url and appends exactly one click `{now, referrer or "direct", ip}` at the end of that record; other fields, other records and the key set are unchanged |
| RegistryProperties.ExpiredStaysExpired | backend/server.js:62 | once a redirect to a code is refused as Expired, every later redirect to it is refused too |
| RegistryProperties.RedirectWithinValidity | backend/server.js:35-62 | after a successful create at `now` with validity v, a redirect at time t succeeds with the url exactly when t <= now + v*60000 and is Expired exactly when t is later |
| RegistryProperties.StatsReportsRecord | backend/server.js:76-86 | stats is NotFound exactly for codes that are not stored; otherwise it reports the stored originalUrl, createdAt, expiry and clicks and `totalClicks == |clicks|`, at any time |
| RegistryProperties.Replay | backend/server.js:17-87 | serving requests in sequence gives one response per request, of the request's own kind (create, redirect or stats) |
| RegistryProperties.Serve | backend/server.js:17-87 | each request is answered by its own handler, create, redirect or stats, with that handler's response and new registry; stats leaves the registry as it is |
| RegistryProperties.ServeGrows | backend/server.js:17-87 | no single request removes a key or changes a record other than by appending clicks |
| RegistryProperties.ReplayGrows | backend/server.js:17-87 | over any sequence of requests every stored record keeps its url, expiry and creation time, and its earlier clicks remain a prefix of its clicks |
| RegistryProperties.IssuedCodesFresh | backend/server.js:30-47 | in any sequence of requests, every successful create took a code not stored at the start, returned that code's link, and no two successful creates took the same code |
| RegistryProperties.NoShortLinkIssuedTwice | backend/server.js:30-47 | in any sequence of requests no two successful creates return the same short link |
| RegistryProperties.RedirectsAppendInOrder | backend/server.js:62-70 | n sequential redirects to an unexpired code each return its url and append their n clicks in call order; the key set and every other record are unchanged |
| RegistryProperties.StatsCountRedirects | backend/server.js:64-84 | after n sequential redirects to a record with no clicks, stats report `totalClicks == n` and the clicks in call order |
| RegistryProperties.StatsStableWithoutRedirect | backend/server.js:76-86 | any requests that include no redirect to a stored code leave its stats identical, so two stats calls with none in between agree |
| PrototypeKeys.LookupAsWritten | backend/server.js:30 | `urls[shortcode]` yields the stored record exactly for stored codes, and an inherited value exactly for unstored names of Object.prototype |
| PrototypeKeys.CollidesAsWritten | backend/server.js:30 | the guard `if (urls[shortcode])` as written is true exactly for stored codes and for the names of Object.prototype |
| PrototypeKeys.CollidesAsWrittenAgreesOffPrototype | backend/server.js:30 | away from Object.prototype's names, the guard as written collides exactly on stored codes |
| PrototypeKeys.RedirectAsWritten | backend/server.js:57-71 | the redirect handler over the lookup as written answers 500 exactly for unstored Object.prototype names, leaving the registry unchanged on every failure, and otherwise agrees with `RedirectStep` |
| PrototypeKeys.StatsAsWritten | backend/server.js:74-87 | the stats handler over the lookup as written answers 500 exactly for unstored Object.prototype names, and otherwise agrees with `StatsOf` |
| PrototypeKeys.ToStringServerErrorAsWritten | backend/server.js:59-84 | on an empty registry, `GET /toString` and `GET /shorturls/toString` answer 500 as written, while the corrected handlers answer NotFound |
| PrototypeKeys.ToStringCollidesAsWritten | backend/server.js:30-33 | on an empty registry the guard as written rejects `toString`, while the corrected create accepts it |
| PrototypeKeys.GeneratedCodesNeverInherited | backend/server.js:27 | a generated code (six hex digits) is never an Object.prototype name |

## Findings

| source | as written | input that shows it | evidently intended | confidence | as-written member | corrected member |
|---|---|---|---|---|---|---|
| backend/server.js:30 | `if (urls[shortcode])` on a plain object is also truthy for names inherited from Object.prototype (`toString`, `constructor`, `__proto__`, ...) | `POST /shorturls {"url": "https://example.com", "shortcode": "toString"}` on an empty registry answers "Shortcode already in use" | a collision only when the code is stored (own key) | high; not executed | PrototypeKeys.LookupAsWritten | RegistryProperties.CreateCollidesIffStored |
| backend/server.js:59-64 | the same lookup returns an inherited function; `record.expiry` is undefined, so the test at line 62 is false, and `record.clicks.push` throws | `GET /toString` on an empty registry answers 500 | 404 for a code that is not stored | high; not executed | PrototypeKeys.RedirectAsWritten | RegistryProperties.RedirectUnknownCode |
| backend/server.js:76-84 | the same lookup returns an inherited function, and `record.clicks.length` throws | `GET /shorturls/toString` on an empty registry answers 500 | 404 for a code that is not stored | high; not executed | PrototypeKeys.StatsAsWritten | RegistryProperties.StatsReportsRecord |

The rest of the model uses the corrected lookup, which is map membership.

## Left out

- Express and body-parser wiring, route registration, status codes and JSON bodies, `res.redirect` and `app.listen` (lines 1-7, 89). The handlers return typed results instead.
- The `Log` calls (lines 4, 22, 31, 44, 51). The logging middleware is not part of this model. A failing `Log` would also reach the catch block; the model assumes logging succeeds.
- `uuidv4().slice(0, 6)` (line 27) is the parameter `generated`, required to be six lower-case hex digits; the randomness is not modelled.
- The clock: each handler reads it twice (lines 35 and 41; 62 and 65). The model uses one `now` per request for both reads.
- `toISOString()` and the JSON form of dates (lines 48, 82-83). Times are milliseconds, and an Invalid Date is the value `InvalidDate`.
- The try/catch 500 path (lines 50-53) is modelled only for the Invalid Date expiry. Other failures come from foreign code.
- Body fields that are not strings or integers (null, numbers as urls or shortcodes, non-numeric or fractional validity). JavaScript coerces these, and the model types the fields as `Option<string>` and `Option<int>`. Because every Date value is below 2^53, integer arithmetic matches the double arithmetic of line 35 for the integer validities modelled.
- Express's `req.get("Referrer")` also reads the `Referer` spelling. `Visit.referrer` stands for whichever header is present. `req.ip` is a string parameter.
- Concurrency. The create handler is `async` and pauses at `await Log(...)` (lines 22, 31, 44), so other requests can run between its insert (line 37) and its response (lines 46-49). Create reads and writes `urls` only in the synchronous lines 30-37, with no `await` between the check and the insert, and its response uses only local values; redirect and stats are synchronous. So serving requests in sequence (`Replay`) gives the same registry and responses as any interleaving; the timing of the responses is not modelled.
