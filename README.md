# aws-ssm-parameter-resolve — secret resolver model

A Dafny model of `index.js` of aws-ssm-parameter-resolve: an async function
`(name, options)` that reads the secrets stored under a path prefix of AWS SSM
Parameter Store (one request, so only the first page the store returns), strips the prefix from each parameter name and returns the
value stored for `name`. It rejects when the value is missing or empty.
Fetches are memoised per canonical path: the path coerced to a string, with a
trailing `/` added when it has none.

Files, one module each:

- `wrappers.dfy` (`Wrappers`): the `Option` and `Result` datatypes.
- `js_values.dfy` (`JsValues`): the JavaScript values the function receives,
  their truthiness, es5-ext `ensureString` (`ToText`), the `options` argument
  as `isObject` sees it, and the errors.
- `paths.dfy` (`Paths`): canonical paths (`Canonical`, `CacheKey`) and path
  selection from `options.path` or `SSM_SECRETS_PATH` (`SelectPath`).
- `parameters.dfy` (`Parameters`): the map built from a store response
  (`BuildSecrets`) and the strict lookup (`Lookup`).
- `resolver.dfy` (`Resolver`): one call of the memoised resolver and of the
  exported function as pure steps (`ResolveStep`, `GetSecretStep`). It also holds
  the history of store requests with its invariant (`Replay`, `NoRefetch`) and the
  class `SecretResolver`, which holds the cache as a `map` field. The class has
  the two methods `ResolveFromPath` and `GetSecret`.

The parameter store is a function argument `Store = string -> Result<seq<Parameter>, string>`.
It stands for what `getParametersByPath` answers for a path when it is called.
A new one is passed on every call, because the store may change between calls.
`SSM_SECRETS_PATH` is an `Option<string>` argument.
The class keeps a ghost history `Calls` of the requests it made. Its invariant
`Valid()` says three things:
- the cache is exactly what that history built;
- a path is never requested again once the store has answered it;
- every requested path ends with `/`.

Behaviour of `index.js` worth knowing:
- A falsy `options.path` (`""`, `0`, `false`, as well as a missing one) falls
  back to the environment variable.
- The missing-path error's message is `Missing SSM_SECRETS_PATH environment variable`.
- The not-found error is a plain `Error` with the message `<name> secret not found`.
  It has no error code.
- An empty value counts as not found.

## Model

| member | source | states |
|---|---|---|
| `JsValues.ToText` | index.js:3 | `ensureString` fails exactly for null, undefined and values whose string conversion throws, with the matching error kind; a string is returned unchanged |
| `JsValues.Truthy` | index.js:42-48 | exactly undefined, null, `false`, `0` and `""` are falsy (the values the model has) |
| `JsValues.Message` | index.js:43-48 | the message of a not-found error starts with the secret's name |
| `Paths.Canonical` | index.js:31 | the canonical path ends with `/`, extends the input by at most one character, and equals the input when it already ends with `/` |
| `Paths.CanonicalIsShortest` | index.js:31 | the canonical path is no longer than any extension of the input that ends with `/` |
| `Paths.CanonicalIdempotent` | index.js:29-33 | canonicalising twice gives the same key as once |
| `Paths.SameCanonical` | index.js:29-33 | two strings share a cache key if and only if they are equal or one is the other (not ending in `/`) plus `/` |
| `Paths.CacheKey` | index.js:29-33 | the resolver key exists exactly when `ensureString` accepts the argument, propagates its error otherwise, ends with `/`, extends the coerced string by at most one character, and is the coerced string itself when that already ends with `/` |
| `Paths.TrailingSlashSharesKey` | index.js:29-33 | `p` and `p + "/"` (for `p` not ending in `/`) give the same key `p + "/"` |
| `Paths.SameTextSameKey` | index.js:29-33 | values with the same string conversion share a key exactly when their canonical texts agree |
| `Paths.SelectPath` | index.js:40-45 | a path is chosen if and only if `options.path` is truthy or the environment value is non-empty; a truthy `options.path` wins unchanged, else the environment value, else the missing-path error; the chosen path is truthy |
| `Paths.NonObjectOptionsIgnored` | index.js:40 | non-object options select the same path as an object whose `path` is falsy |
| `Parameters.Slice` | index.js:22 | `name.slice(n)` is as long as the name minus `n` characters, and is empty when `n` is past the end (its contents, the tail of the name, are stated by `SliceIsSuffix`) |
| `Parameters.SliceIsSuffix` | index.js:22 | what `slice` keeps is the tail of the name |
| `Parameters.SliceAfterPrefix` | index.js:22 | slicing `prefix + key` at the prefix's length gives back `key` |
| `Parameters.ShortNameOccurs` | index.js:22 | a short name is produced exactly when some entry of the response slices to it |
| `Parameters.BuildSecrets` | index.js:22 | the map's key set is exactly the sliced names of the response, and it is no larger than the response |
| `Parameters.LastEntryWins` | index.js:22 | the value under a short name is that of the last response entry with that short name (later duplicates overwrite) |
| `Parameters.StoredValueFromResponse` | index.js:22 | every stored value is the value of some response entry with that short name |
| `Parameters.StrippedUnderPath` | index.js:15-22 | an entry named `canon + k` fetched under canonical path `canon` is stored under `k` with its value, unless a later entry reuses `k` |
| `Parameters.BuildSecretsAppend` | index.js:22 | one more response entry is one more insertion into the map, under its sliced name |
| `Parameters.OneEntry` | index.js:22 | a one-entry response under `canon` gives the map of that entry's short name alone |
| `Parameters.TwoEntries` | index.js:22 | a two-entry response under `canon` gives the map of the two short names, the second value winning if they coincide |
| `Parameters.DefaultPathExample` | index.js:22 | the test mock's response for `/default-path/` becomes `{ENDPOINT_KEY: some-fii, ENDPOINT_URL: some-elo}` |
| `Parameters.Lookup` | index.js:47-48 | the lookup succeeds if and only if the name is present with a non-empty value, returns that value, and otherwise fails with `SecretNotFound(name)` |
| `Resolver.ResolveStep` | index.js:13-36 | a key error propagates with no fetch. A cached key is answered from the cache without a fetch. An uncached key is fetched once under its canonical form, and the answer decides the outcome. A returned map is the one now cached for the key. Entries are never replaced or removed. Only the fetched key can be new. A failure stores nothing |
| `Resolver.RepeatedResolveIsCached` | index.js:26-33 | after a successful resolve, any path with the same key returns the same map and cache without fetching, whatever the store now answers |
| `Resolver.TrailingSlashResolvesOnce` | index.js:29-33 | resolving `p` and then `p + "/"` fetches once |
| `Resolver.FailedFetchIsRetried` | index.js:26-28 | after a rejected fetch the next resolve behaves as if the failed one never happened, and so fetches again |
| `Resolver.OtherPathsUntouched` | index.js:13-36 | resolving one path leaves the presence and value of every other key's entry unchanged |
| `Resolver.UncachedResolve` | index.js:13-24 | an uncached path the store answers is cached under its canonical form as the stripped map of the answer |
| `Resolver.RejectedResolve` | index.js:13-28 | an uncached path whose fetch is rejected fails with the store's message, after one fetch, and leaves the cache as it was |
| `Resolver.GetSecretStep` | index.js:38-50 | an invalid name fails first, with no fetch and the cache unchanged. A valid name with no path fails with the missing-path error, also with no fetch. With a valid name and path, the cache and the fetch are those of resolving the path, and the result is the strict lookup in the resolved map, or the resolve's own failure (a rejected fetch, a path that cannot be made a string). A returned secret is non-empty and is the strict lookup in the cache entry of the chosen path. Existing entries are kept |
| `Resolver.LookupAfterResolve` | index.js:46-49 | with a valid name and path, the result is the strict lookup in what resolving the path produced, with the same cache and fetch |
| `Resolver.CachedLookup` | index.js:46-48 | when the chosen path is cached, the lookup reads the cached map and does not fetch |
| `Resolver.DefaultPathFirstLookup` | index.js:38-50 | with `SSM_SECRETS_PATH = /default-path` and the test mock's store, looking up ENDPOINT_KEY fetches `/default-path/` once and returns `some-fii` |
| `Resolver.DefaultPathMissingName` | index.js:46-48 | looking up a missing name with an equivalent option path hits the cache and fails with `SecretNotFound("MISSING")` |
| `Resolver.Replay` | index.js:13-28 | the cache a request history builds has exactly the successfully answered paths as keys |
| `Resolver.SucceededOccurs` | index.js:13-28 | a path counts as answered exactly when some request for it was answered |
| `Resolver.ReplayAppend` | index.js:13-28 | one more request changes the cache exactly as that request did: an answer stores its stripped map, a rejection stores nothing |
| `Resolver.NoRefetchExtended` | index.js:13-14 | requesting a path that is not cached keeps the invariant that no answered path is requested again |
| `Resolver.ReplayHoldsTheAnswer` | index.js:13-24 | under that invariant the cache holds, for each answered path, the map built from its one answer |
| `Resolver.SecretResolver.constructor` | index.js:13 | a new resolver has an empty cache and no requests, and is valid |
| `Resolver.SecretResolver.ResolveFromPath` | index.js:13-36 | the memoised resolver keeps `Valid()`; its result and new cache are those of `ResolveStep`, and it logs exactly the one request it made, if any |
| `Resolver.SecretResolver.GetSecret` | index.js:38-50 | the exported function keeps `Valid()`; its result and new cache are those of `GetSecretStep`, and it logs exactly the one request it made, if any |
| `Resolver.DefaultPathScenario` | index.js:38-50 | on a fresh resolver, with the test mock's store, ENDPOINT_KEY yields `some-fii` and MISSING fails with `SecretNotFound`; the resolver's request history ends as the single request for `/default-path/` |

## Left out

- The AWS SDK client and the request options `Recursive` and `WithDecryption`
  (index.js:7, 11, 15-21) are not modelled. The network call is the `Store`
  argument, and its answer is taken as given.
- Pagination: the code makes one request and ignores `NextToken`. The model
  likewise uses one answer per request.
- `log.debug` (index.js:6, 23) is output with no effect on results.
- `process.env` is read once at module load (index.js:9). The model takes
  `SSM_SECRETS_PATH` as an argument of each call.
- Promises and concurrency are not modelled. memoizee shares one pending fetch
  among concurrent callers of the same path. The model is sequential, and every
  rejection is a `Failure` result.
- `JsValues.ToText` does not follow the full JavaScript string conversion.
  Numbers are integers written in plain decimal. Fractions, NaN, Infinity and
  the exponent form from 1e21 on are not modelled. Every other value
  (object, function, symbol) is reduced to the string it converts to, or to a
  failed conversion.
- The es5-ext library is not part of this model. The wording of its TypeErrors
  is not modelled (`JsValues.Message` gives no text for them), only their kind.
- The identity of the returned `Map` object is not modelled. A cache hit returns
  an equal map value. The exported function returns only the secret string, so
  callers never see the map.
- `path.length` and `slice` (index.js:22) count UTF-16 code units, while a
  Dafny string counts Unicode scalar values. The two agree whenever a fetched
  name starts with the canonical path, but not for a name that does not and
  holds characters outside the Basic Multilingual Plane.
- `JsValues.Truthy` knows only the values the model has: NaN, `-0` and `0n` are
  not among them.
- `test/index.js` tests a different variant of the API: no name argument,
  `SSM_PARAMETERS_PATH`, and an error `code`. It is used only as example data
  (`Resolver.MockStore`).
