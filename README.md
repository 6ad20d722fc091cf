# short-links: the creation handler, modelled in Dafny

This project models `POST /create` of a small URL-shortening service
(`functions/create.js`, the function `onRequest` and its helpers `gen` and
`parseExpiry`). A creation request passes six ordered checks, each of which
can end it early: the HTTP method, the JSON body, the optional deployment
creation password (`ACCESS_PASSWORD`), the `url` pattern, the `slug` rule, and
the rule that a link may not point back at the service's own host. After the
checks the handler consults the `links` table. A given slug that already maps
to the same url is answered again. A given slug that maps to another url is a
409 conflict. With no slug, a row already holding the url is reused. Otherwise
exactly one active row (status 1) is inserted, under the given slug or a random
4-character one. A store error whose message mentions `UNIQUE` becomes 409, and
any other store error becomes 500.

Layout, one module per file:

- `wrappers.dfy` (`Wrappers`): `Option`, standing for JavaScript's null/undefined.
- `text.dfy` (`Text`): the runtime string behaviour the handler relies on. It
  covers the regular-expression classes `\d`, `\s` and `.`, `trim`,
  `includes`, `length` in UTF-16 code units, and `parseInt` on digits.
- `validation.dfy` (`Validation`): the password gate, the URL pattern and the
  slug rule. Each implemented test is proved equal to the regular expression it
  stands for.
- `slug_gen.dfy` (`SlugGen`): `gen(n)` as a loop over supplied random picks.
- `expiry.dfy` (`Expiry`): `parseExpiry` as a function.
- `create_handler.dfy` (`CreateHandler`): the request, the platform's answers,
  the table rows, and the class `LinkStore`. Its field `rows` is the `links`
  table, and its method `Create` is `onRequest`.

The platform's services are passed in as values. The hostname that
`new URL(url)` yields (or `None` when it throws), the random picks,
`Date.now()`, the creation timestamp string and an optional store failure are
all fields of a `Platform` value. The table's `UNIQUE` constraint on `slug` is
the class invariant `Valid()`, and `Create` keeps it.

Two facts the model makes explicit:

- With `ACCESS_PASSWORD` set, the body's `password` must equal it. That same
  field is also stored as the new link's access password (`password || null`).
  So every link created while the creation password is configured asks its
  visitors for that password. `Create` states this in its last postcondition.
- The url look-up (`SELECT slug FROM links WHERE url = ?`) runs even when a
  slug was given. Its result is then ignored, but a store failure at that query
  still ends the request.

Some consequences of the code that its own comments and messages do not spell
out (the slug comment at functions/create.js:43 and the message at :45 speak of
"2~10" characters and a file extension):

- The slug length is counted in UTF-16 code units, as JavaScript's `length` counts.
- A relative expiry may have whitespace around it and between the count and the unit.
- An ISO date only passes through when it starts the `expiry` text: with
  leading whitespace it is not recognised and gives no expiration, while
  trailing text after the `T` is kept verbatim.

## Model

| member | source | states |
|---|---|---|
| CreateHandler.LinkStore.Create | functions/create.js:14-106 | The checks run in this order. OPTIONS gets the empty preflight answer. Any other method than POST gets 405. A missing body gets 400. A creation password that is configured and not matched gets 403. A bad url gets 400, then a bad slug gets 400, then an unparsable target or the request's own host gets 400. A refused request leaves the table unchanged. A given slug that is taken answers `{slug, origin/slug}` when it holds the same url and 409 otherwise, and the table is unchanged. With no slug, a stored url returns its stored slug. Otherwise the slug is the given one or `gen(4)`. The insert then fails with the store's error, or with 409 when that slug is taken; if it succeeds, exactly the new row is appended and its slug is answered. The new row holds the request's url, status 1, the recorded ip and user agent, the creation time, the parsed expiry and the stored password, and without a given slug its url was held by no row before. The table grows by at most one row, the slug-uniqueness invariant is kept, and with the creation password configured the new row stores that password |
| CreateHandler.LinkStore.CreateTwice | functions/create.js:68-100 | Sending the same request again, with its own random picks and no store failure: a `{slug, link}` answer is repeated exactly, a refusal by the request checks is repeated, and the two requests add at most one row in all (idempotent re-creation and deduplication) |
| CreateHandler.Lookup | functions/create.js:71-72 | A look-up returns a row of the table whose slug (or url) is the key, and returns nothing exactly when no row has that key |
| CreateHandler.FirstMatch | functions/create.js:84-85 | A look-up finds the earliest row whose slug (or url) equals the key, or reports that no row has it |
| CreateHandler.LookupAppend | functions/create.js:84-85 | After a row is appended, a look-up finds the earlier match if there was one, otherwise the new row exactly when it matches |
| CreateHandler.LookupBySlugIsUnique | functions/create.js:96-98 | Under the `UNIQUE` slug constraint, the row a slug look-up returns is the only row with that slug |
| CreateHandler.StoreErrorReply | functions/create.js:103-104 | The `catch` answer for an error text; its two outcomes are stated by StoreErrorStatus and ServerErrorText |
| CreateHandler.ErrorText | functions/create.js:102 | The error text the source computes from the message or the value itself, for a thrown `Error`: the message, or the error's name when the message is empty; ServerErrorText states what it leads to |
| CreateHandler.ServerErrorText | functions/create.js:102-104 | A server error (no `UNIQUE` in the text) is a 500 carrying the error's message; with an empty message it carries the error's name, and only when both are empty the fallback text |
| CreateHandler.StoreErrorStatus | functions/create.js:101-104 | A store error is answered 409 exactly when `UNIQUE` occurs in its message, otherwise 500 |
| CreateHandler.UniqueViolationIsConflict | functions/create.js:103 | The store's uniqueness violation at insert time is answered as the 409 slug conflict |
| CreateHandler.FirstPresent | functions/create.js:62-66 | The recorded header value is the first present non-empty one, and it is empty only when none is |
| CreateHandler.ClientIp | functions/create.js:62-65 | The recorded ip is `CF-Connecting-IP` when non-empty, else `x-forwarded-for`, else `clientIP`, else the empty string |
| CreateHandler.UserAgent | functions/create.js:66 | The recorded user agent is the `user-agent` header when non-empty, else the empty string |
| CreateHandler.Origin | functions/create.js:49 | `protocol//hostname` of the request URL; Create answers every short link under it |
| CreateHandler.ShortLink | functions/create.js:76 | The answered link is the origin, a `/` and the slug; Create states which slug each answer carries |
| CreateHandler.StoredPassword | functions/create.js:98 | The password stored with a new row, or null when the body has none; Create states that the new row stores it, and that it is the creation password when that gate is on |
| CreateHandler.NewSlug | functions/create.js:91 | The slug of a new row is the given one when truthy, otherwise a 4-character generated slug that itself satisfies the slug rule |
| Validation.PasswordAccepted | functions/create.js:33-37 | The creation password gate; PasswordAcceptedIffEqual states when it lets a request through |
| Validation.PasswordAcceptedIffEqual | functions/create.js:33-37 | With `ACCESS_PASSWORD` set, the gate lets a request through exactly when its `password` equals the setting; an absent or empty one is refused |
| Validation.ValidUrl | functions/create.js:40 | The url test; ValidUrlMatchesPattern proves it equal to the regular expression |
| Validation.ValidUrlMatchesPattern | functions/create.js:40-42 | The url test accepts exactly the strings matching `^https?://.{3,}` with the `i` flag |
| Validation.SchemeLengthAlternatives | functions/create.js:40 | Taking the optional `s` greedily recognises exactly the two scheme alternatives `http://` and `https://`, ignoring case |
| Validation.DotRunIffLine | functions/create.js:40 | `.{3,}` matches after the scheme exactly when the text before the first line terminator is at least 3 UTF-16 code units long |
| Validation.EndsWithExtension | functions/create.js:44 | The extension test; EndsWithExtensionMatchesPattern proves it equal to the regular expression |
| Validation.ValidSlug | functions/create.js:44 | A slug is acceptable when its UTF-16 length is 2 to 10 and it has no extension; GeneratedSlugIsValid shows generated slugs are |
| Validation.SlugRejected | functions/create.js:44 | A given (truthy) slug that is not acceptable is refused; an absent or empty one never is; Create answers it with 400 |
| Validation.EndsWithExtensionMatchesPattern | functions/create.js:44 | The extension test holds exactly when the slug ends with `.` and then 1 to 8 ASCII letters |
| Validation.ExtensionIsTrailingRun | functions/create.js:44 | A dot-plus-letters suffix can only be the whole trailing run of letters, so one position decides the test |
| Validation.TrailingLetters | functions/create.js:44 | Counts the maximal run of ASCII letters at the end of the slug |
| SlugGen.Gen | functions/create.js:115-120 | `gen(n)` returns exactly n characters; the i-th is the alphabet character chosen by the i-th random pick |
| SlugGen.GenSpells | functions/create.js:115-120 | What `gen` returns is the slug that the same picks spell |
| SlugGen.AlphabetIsAlphanumerics | functions/create.js:116 | The alphabet has 62 characters, all distinct, and they are exactly the ASCII digits and letters |
| SlugGen.SpelledIsAlphanumeric | functions/create.js:118 | Every generated character is an ASCII digit or letter |
| SlugGen.GeneratedSlugIsValid | functions/create.js:91 | A generated 4-character slug satisfies the slug rule: its length is within 2 to 10 and it has no extension |
| Expiry.ParseExpiry | functions/create.js:122-130 | `parseExpiry`; its cases are stated by ParseExpiryCases and ParseExpiryShape |
| Expiry.IsoPrefix | functions/create.js:124 | The test `^\d{4}-\d{2}-\d{2}T`, anchored at the start only; IsoPassesThrough shows an instance |
| Expiry.RelativeParts | functions/create.js:125-128 | The relative-duration parser on the trimmed text; RelativePartsMatchesPattern proves it equal to the regular expression |
| Expiry.ParseExpiryUnspaced | functions/create.js:124-129 | A text with no `\s` at either end and no ISO prefix gives the clock plus its count of units, or none when it is not a relative duration |
| Expiry.ParseExpiryCases | functions/create.js:122-130 | An absent or empty expiry gives none. An ISO date-time prefix is returned verbatim. A trimmed `<digits><spaces><m/h/d>` gives the clock plus that count of units. Every other input gives none, never an error |
| Expiry.RelativePartsMatchesPattern | functions/create.js:125-127 | The relative-duration parser succeeds exactly when `^(\d+)\s*([mhd])$` matches, and it reads the matched digits and unit |
| Expiry.RelativeMatchUnique | functions/create.js:125 | The split of a match into digits and spaces is unique |
| Expiry.ParseExpiryShape | functions/create.js:122-130 | Only an input with an ISO prefix comes back verbatim, and a computed expiration never lies before the clock |
| Expiry.ThirtyMinutes | functions/create.js:125-129 | `"30m"` expires 30 minutes after the clock |
| Expiry.IsoPassesThrough | functions/create.js:124 | `"2025-01-01T00:00:00.000Z"` is kept unchanged |
| Expiry.GarbageHasNoExpiry | functions/create.js:125-126 | `"garbage"` gives no expiration |
| Text.TrimStart | functions/create.js:125 | Removes exactly the leading run of `\s` characters |
| Text.TrimEnd | functions/create.js:125 | Removes exactly the trailing run of `\s` characters |
| Text.TrimEndAt | functions/create.js:125 | Trailing trimming stops right after the last character that is not `\s` |
| Text.Trim | functions/create.js:125 | `trim` gives a slice of the input whose cut-off prefix and suffix are all `\s`, with no `\s` left at either end |
| Text.Contains | functions/create.js:103 | `includes`; ContainsOccurrence proves it equal to the existence of an occurrence |
| Text.ContainsOccurrence | functions/create.js:103 | `includes` holds exactly when the pattern occurs at some position of the message |
| Text.Utf16Length | functions/create.js:44 | `length` counts UTF-16 code units: at least one per character and at most two, and exactly one per character when every character is in the Basic Multilingual Plane |
| Text.LineOf | functions/create.js:40 | The longest prefix without a line terminator, which is the most that `.` can cover |
| Text.ParseDecimal | functions/create.js:127 | `parseInt(_, 10)` on a digit string; ParseDecimalOfDecimal and ParseDecimalLeadingZero state how it reads spellings |
| Text.ParseDecimalOfDecimal | functions/create.js:127 | `parseInt(_, 10)` reads a decimal spelling back as the number it spells |
| Text.ParseDecimalLeadingZero | functions/create.js:127 | Leading zeros do not change the parsed count |

## Left out

- The redirect handler `functions/[id].js` is not part of this model.
- Response objects, JSON serialisation and the CORS headers (functions/create.js:7-12, 108-113) only format output. A reply is a status with an optional `{slug, link}`, and each fixed error message is a `Reason` constructor. Only the 500 answer carries text: the error's text (`String(e?.message || e)`), or the handler's fallback text when that is empty.
- `request.json()` is a given `Option<Body>`: `None` stands for a missing, unparsable or falsy JSON body. Body fields that are present but are not strings are not modelled; each field is a string or absent.
- `new URL(...)` is not modelled. The target's hostname is given, and `None` stands for a parse failure. The request URL is taken as given by its protocol and hostname and is assumed to parse.
- `Math.random()` is replaced by supplied picks in 0..61, and `Date.now()` by an integer clock. `toISOString` is not modelled: a relative expiry is stored as its instant in milliseconds, and the creation time is a given string.
- The D1 database is replaced by the sequence `rows`. SQL leaves unspecified which row `.first()` returns for the url query; the model takes the earliest. For the slug query, uniqueness leaves only one candidate.
- The race between the look-ups and the insert is concurrency and is not modelled. Its visible outcome, a uniqueness violation at insert time, is modelled as a store fault at the insert whose message mentions `UNIQUE`. At most one store fault happens per request.
- A thrown value that is not an `Error` is not modelled. A store fault is always an `Error` with a name and a message, and its text is the message, or the name when the message is empty (what `Error.prototype.toString` gives then).
- Floating-point behaviour is not modelled. This covers `parseInt` on very long digit strings, `n * unit` beyond 2^53, and the `RangeError` that `toISOString` raises for an instant out of range (caught as a 500 in the source). The count is an unbounded `nat`, and the arithmetic is exact.
- CreateHandler.LinkStore.Create: "a refused request never touches the table" is stated as "leaves the table unchanged", because reads are not observable in the model.
