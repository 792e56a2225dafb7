# URL shortener: link lifecycle model

A Dafny model of a FastAPI URL shortener. The model covers its link
lifecycle: shortening a URL under an alias or a generated code, resolving
a short id through a Redis read-through cache, counting redirects, and the
owner-scoped stats, update, delete, list and search handlers. It also covers
registration, the caller's identity taken from a `Bearer` header, the
database records with their defaults and constraints, and the short-code
generator.

The state is one object, `Service.Shortener`. It has three maps: the
`link` table and the `user` table, each keyed by primary key, and the Redis
keyspace. Its invariant `Valid()` says:

- every row sits under its own id;
- nicknames are unique;
- every owner reference names an existing user;
- every cache entry `link:<id>` belongs to a stored link and expires no
  later than that link does.

Each handler that changes state is a method that keeps `Valid()`. It states
its whole new state in terms of the old one. The read-only handlers are
functions over the tables.

Time is an integer number of microseconds, the resolution of Python's
`datetime`. Each request's `datetime.now()` is the `now` parameter. The
remaining lifetime handed to Redis is `int(total_seconds())`, that is
`(expire_at - now) / 1_000_000` rounded down.

Modules:

- `ShortCode` (app/utils.py): the alphabet, `generate_short_code` as a
  function of the random draws.
- `Schema` (app/sql.py): `User` and `Link` rows, column defaults, and the
  insert that fails with an integrity error.
- `RedisCache`: `GET`, `SETEX` and `DEL` with self-expiring entries.
- `Auth`: `get_user_id`, `get_user_id_strict`, Python's `str.split`, and
  the credential check of `auth_token`.
- `Queries`: the store lookups, `LinkDTO`, the stats update, and the
  `links_stats`, `links_list` and `links_search` handlers.
- `Service`: the `Shortener` class with `auth_register`, `links_shorten`,
  `links_redirect`, `links_update` and `links_delete`.
- `Scenarios`: the request sequences of tests/test_functional.py, extended
  where its rows say so, and the
  input behind the finding below, with their outcomes proved.

## Model

| member | source | states |
|---|---|---|
| `ShortCode.Generate` | app/utils.py:10-13 | the code has exactly `k` characters, the i-th being the alphabet symbol at the i-th draw |
| `ShortCode.GenerateDefault` | app/utils.py:10 | `generate_short_code()` is the generator at the default `k` = 10: ten characters, all ASCII letters or digits |
| `ShortCode.GeneratedIsShortCode` | app/utils.py:11-13 | every character of a generated code is an ASCII letter or digit, for every `k` |
| `ShortCode.GenerateInjective` | app/utils.py:13 | two draw sequences giving the same code are equal: the code is the draws, symbol by symbol |
| `ShortCode.AlphabetLayout` | app/utils.py:11 | the alphabet has 62 symbols: a-z at 0-25, A-Z at 26-51, 0-9 at 52-61 |
| `ShortCode.AlphabetSymbols` | app/utils.py:11 | the 62 symbols are pairwise distinct, and a character is in the alphabet exactly when it is an ASCII letter or digit |
| `Schema.NewLink` | app/sql.py:26-35 | a new row has the given id, owner, url and expiry; `access_count` 0, no `last_access_at`, and `created_at` = `updated_at` = insertion time |
| `Schema.InsertLink` | app/sql.py:26-27 | the insert succeeds exactly when the id is new and the owner, if any, exists; on success it adds exactly that row and keeps keying and owner references |
| `Schema.InsertUser` | app/sql.py:16-17 | the insert succeeds exactly when the id and the nickname are both unused; on success it adds exactly that row and keeps nicknames unique |
| `Schema.OwnersExistGrow` | app/sql.py:27 | adding users never breaks a link's owner reference |
| `RedisCache.Get` | app/main.py:209 | a key reads as its value exactly while `now` is before the entry's expiry |
| `RedisCache.SetEx` | app/main.py:223 | `SETEX` fails exactly when the time is not positive; otherwise it stores the value with expiry `now + ttl` seconds |
| `RedisCache.Delete` | app/main.py:289 | `DEL` removes that key only; a missing key is no error |
| `RedisCache.GetAfterSetEx` | app/main.py:220-223 | after `SETEX` the key reads as the value for exactly `ttl` seconds and as missing afterwards; other keys are unaffected |
| `RedisCache.GetAfterDelete` | app/main.py:287-289 | after `DEL` the key misses and other keys read as before |
| `Auth.Split` | app/main.py:99 | `split(" ")` gives at least one field, no field holds the separator, and joining the fields with it restores the header |
| `Auth.SplitAfterField` | app/main.py:99 | a separator-free word followed by the separator splits off as the first field |
| `Auth.SplitWithoutSep` | app/main.py:99 | a string without the separator is one field |
| `Auth.HasBearer` | app/main.py:96 | the header is present, non-empty and starts with "Bearer "; its partner `Auth.BearerToken` shows that `[1]` then exists |
| `Auth.Subject` | app/main.py:107 | `claims.get("sub")`: the `sub` claim when present, else no identity; `Auth.GetUserId` states its use |
| `Auth.BearerToken` | app/main.py:96-99 | `header.split(" ")[1]` exists for every header starting with "Bearer " and contains no space |
| `Auth.GetUserId` | app/main.py:93-107 | no header, an empty header or a non-Bearer header gives no identity; otherwise an undecodable token fails with 401 "Access token malformed", and a decoded one yields exactly its `sub` claim, or no identity when it has none |
| `Auth.GetUserIdStrict` | app/main.py:110-116 | succeeds exactly when `get_user_id` yields an identity, and returns it; the error of `get_user_id` passes through unchanged, and no identity gives a bare 401 |
| `Auth.BearerHeaderRoundTrip` | app/main.py:96-107 | for `"Bearer " + token` with a space-free token, the token itself is decoded, and the result is its subject or 401 |
| `Auth.FindByNickname` | app/main.py:71 | the lookup finds a user exactly when one has that nickname, and returns that user |
| `Auth.CheckCredentials` | app/main.py:70-77 | succeeds exactly when a user with that nickname passes the password check, and returns that user's id; an unknown user and a wrong password give the same 401 |
| `Queries.ToDto` | app/main.py:164-173 | the DTO carries id, url, counter, last access, creation, update and expiry times of the row |
| `Queries.DtoHidesOwner` | app/main.py:154-173 | two rows that differ only in their owner give the same DTO |
| `Queries.CacheKey` | app/main.py:207 | the cache key is `link:` followed by the id |
| `Queries.CacheKeyInjective` | app/main.py:207 | distinct ids have distinct cache keys |
| `Queries.CachedUrl` | app/main.py:209-211 | a cache hit is a live entry with a non-empty value, and yields that value |
| `Queries.FindResolvable` | app/main.py:213 | the store lookup finds the row exactly when it exists and `now < expire_at` |
| `Queries.Resolve` | app/main.py:209-218 | a cache hit wins without an expiry check; on a miss the answer is the stored url of an unexpired row, or nothing |
| `Queries.ResolvedIsLive` | app/main.py:209-223 | with the cache invariant, any id a redirect resolves, from cache or store, exists and has not expired |
| `Queries.RecordAccess` | app/main.py:226-230 | the stats step adds 1 to that row's counter and sets its last access to `now`; other rows and the key set are unchanged, so a missing row is a no-op |
| `Queries.RecordAccessKeepsInvariants` | app/main.py:226-230 | the stats step keeps keying, owner references and the cache bound |
| `Queries.RecordAccessesCount` | app/main.py:226-230 | n redirects raise the counter by exactly n, leave the last redirect's time, and change nothing else |
| `Queries.Owned` | app/main.py:241 | the owner-scoped lookup finds the row exactly when it exists and its owner is the caller; anonymous rows never match |
| `Queries.Stats` | app/main.py:237-247 | the DTO of the caller's own row, expired or not; otherwise 404 "Link not found" |
| `Queries.StatsHidesOthersLinks` | app/main.py:241-244 | somebody else's link answers exactly as a missing one |
| `Queries.List` | app/main.py:180-185 | the result holds exactly the DTOs of the caller's rows, expired ones included |
| `Queries.Contains` | app/main.py:199 | the term occurs in the url at some position; `Queries.ContainsSplit` characterises it |
| `Queries.ContainsSplit` | app/main.py:199 | `contains` holds exactly when the url is some prefix, then the term, then some suffix |
| `Queries.Search` | app/main.py:192-202 | an empty term gives 400; otherwise exactly the DTOs of the caller's rows whose url contains the term |
| `Queries.SearchWithinList` | app/main.py:192-202 | a search result is a subset of the caller's list |
| `Service.AliasGiven` | app/main.py:138 | `if request.alias:`, an alias that is present and non-empty; `Service.ChosenId` states its use |
| `Service.ChosenId` | app/main.py:136-139 | a non-empty alias is the id; otherwise the id is a 10-character alphanumeric generated code |
| `Service.CacheTtl` | app/main.py:220 | the time handed to Redis is the remaining lifetime in whole seconds, rounded down, so the entry expires no later than the link |
| `Service.UpdateLeavesCachedUrl` | app/main.py:254-269 | rewriting a row does not change what a cached id resolves to: the old url keeps being served |
| `Service.AbsentIsNotFound` | app/main.py:279-289 | an id not in the table, under the cache invariant, resolves to nothing, and its stats, update and delete lookups fail with 404 |
| `Service.Shortener.Register` | app/main.py:42-57 | a new nickname and id add exactly that user and return the id; otherwise 409 and nothing changes; links and cache are untouched |
| `Service.Shortener.Shorten` | app/main.py:129-151 | `expire_at < now` gives 400 and nothing changes (`expire_at == now` is accepted); otherwise the chosen id is inserted with the row's defaults and returned; a taken id or unknown owner gives 409 "Alias already exists", no retry, and nothing changes; the cache is untouched |
| `Service.Shortener.Redirect` | app/main.py:205-234 | the corrected handler of the Findings row below: answers exactly when the cache or the store resolves the id, with that url; the answered id is live; the counter goes up once and only for that row; a store hit caches the url for the remaining whole seconds and, unlike the code, skips `SETEX` when under a second is left; a 404 changes nothing |
| `Service.Shortener.RedirectAsWritten` | app/main.py:205-234 | the handler as written: a cache hit always answers the cached url and leaves the cache as it is; a store hit on a live link either answers its url and caches it for the remaining whole seconds, or, with under a second left, fails with 500; a missing or expired link gives 404; every answered id is live, the counter goes up once for that row only, and a failure changes nothing |
| `Service.Shortener.Update` | app/main.py:254-269 | the caller's own row gets the new url and `updated_at = now`, all else kept; otherwise 404 and nothing changes; the cache is never touched |
| `Service.Shortener.Delete` | app/main.py:272-291 | the caller's own row is removed, then the key `link:<id>`; otherwise 404 and nothing changes |
| `Scenarios.LastSecondRedirect` | app/main.py:213-223 | a link with half a second left, redirected on a cache miss, gets 500 as written and its url when corrected |
| `Scenarios.CreateFlow` | tests/test_functional.py:117-169 | anonymous shorten gives a 10-character alphanumeric id; a past expiry gives 400; alias "myalias" is returned; reusing it gives 409 |
| `Scenarios.ListSearchFlow` | tests/test_functional.py:177-209 | alice lists exactly her one link, with counter 0; searching "example" gives the same set; an empty term gives 400 |
| `Scenarios.RedirectUpdateDeleteFlow` | tests/test_functional.py:216-277 | the tests' redirect, stats, update and delete requests chained over one cache: redirect 301s to the url and counts 1; after update, stats show the new url with counter 1; after delete, stats give 404. Two requests the tests do not make extend the sequence: a redirect after the update still serves the cached old url, and a redirect after the delete gives 404 |

## Where the code departs from the intended behaviour

In each case below, the service's intended behaviour is stated first. The model follows the code and proves what the code does.

- A cache holding a link's url should be invalidated when the link is
  rewritten, so that a redirect never serves a url the owner replaced. But
  `links_update` takes no Redis dependency and leaves the cache as it is
  (app/main.py:254-258).
  `Service.UpdateLeavesCachedUrl` and `Scenarios.RedirectUpdateDeleteFlow`
  show that a redirect that follows an update can still serve the old url.
- A generated code that collides with an existing id would be expected to
  be redrawn, because the caller asked for no alias. The code does not
  retry: any integrity error gives 409 "Alias already exists"
  (app/main.py:145-148).
- An expired link should never redirect. A cache hit skips the expiry
  check (app/main.py:209-211). Under the invariant this is harmless:
  `Queries.ResolvedIsLive` shows that a cached id is always live.
- An owner id that names no user breaks the foreign key on `link.user_id`
  (app/sql.py:27), so the insert fails with 409. The model enforces the
  constraint as declared. SQLite, used by the tests, does not enforce foreign
  keys unless they are switched on.

## Left out

- Password hashing: the bcrypt `hashpw` and `checkpw` calls are foreign. The hash is a parameter of `Register`, and the check is a function parameter of `CheckCredentials`.
- JWT: decoding is an abstract partial map from token to claims. It also covers signature and `exp` checking.
- Token issuance: signing and the wall-clock `exp` of `auth_token` (app/main.py:79-86) are not modelled. Only the credential check is.
- Randomness: identifiers come in as parameters. The short code is built from a sequence of draws, and the user id (`generate_uuid4`) is a parameter. How random the draws are, and the uniqueness test of tests/test_unit.py:29-34, are probabilistic and not modelled.
- FastAPI plumbing: routing, dependency injection, pydantic validation (422 responses) and response framing are not modelled. Handlers take the already-resolved caller. The dependency's 401 comes before the handler runs, as `Auth.GetUserIdStrict` states. A 301 redirect or a 204 response is an `Ok` value.
- SQLAlchemy sessions and clients: `init_db` and `get_db` (app/sql.py:40-65), the Redis client (app/redis.py) and configuration (app/config.py) are I/O. Commit and rollback appear only as "the new table" or "the old table".
- Concurrency: concurrent requests, the atomicity of the SQL increment, and the cache-population race are not modelled. The model is sequential.
- Time arithmetic: `datetime` floating-point seconds and timezone handling are not modelled. Time is integer microseconds, and one `now` serves a whole request.
- Queries.Search: it models `contains` as plain substring containment. It does not model SQL `LIKE` wildcards (`%`, `_`) inside the term, or SQLite's ASCII case-insensitive `LIKE`.
- Queries.List: results are sets, because the SQL queries have no `ORDER BY`, so row order is not modelled. The same holds for `Queries.Search`.
- Redis failures: timeouts and connection errors are not modelled. The only Redis error modelled is the refusal of a non-positive `SETEX` time.
- Schema.Link: `access_count` is an unbounded counter. The database integer's width is not modelled.
- ShortCode.Generate: its `k` is a `nat`. Python's `generate_short_code(k)` with a negative `k` returns the empty string, and no caller passes one.
- Auth.Subject: it models `claims.get("sub")` over string-valued claims only.

## Findings

| source | as written | input that shows it | evidently intended | confidence | as-written member | corrected member |
|---|---|---|---|---|---|---|
| app/main.py:220-223 | on a cache miss, `int((expire_at - now).total_seconds())` goes to `redis.setex` unchecked | a link with `expire_at = now + 0.5 s`, redirected once: the time is 0, Redis refuses `SETEX` ("invalid expire time"), and the request fails with 500 before the stats step | a live link redirects; it is simply not cached when under a second is left | medium, not executed | `Service.Shortener.RedirectAsWritten`, `Scenarios.LastSecondRedirect` | `Service.Shortener.Redirect` |
