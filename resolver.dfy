/** The memoised `resolveFromPath` of index.js:13-36 and the exported lookup of
    index.js:38-50. The parameter store is a parameter (`Store`): whatever it
    answers for a canonical path at the moment of the call. */
module Resolver {
  import opened Wrappers
  import opened JsValues
  import opened Paths
  import opened Parameters

  /** The store's answer for one path: its entries, or the rejection's message. */
  type FetchResult = Result<seq<Parameter>, string>

  /** getParametersByPath, as seen at the time of one call. */
  type Store = string -> FetchResult

  /** The memoizee cache: canonical path to the secrets fetched under it. */
  type Memo = map<string, Secrets>

  /** What one call produces: its outcome, the cache afterwards, and the canonical
      path it asked the store for (None when it did not ask). */
  datatype Step<T> = Step(result: Result<T, Error>, memo: Memo, fetched: Option<string>)

  /** One call of the memoised resolveFromPath (index.js:13-36), sequentially:
      a cached path is answered from the cache without asking the store; an
      uncached one asks the store once, under its canonical path, and caches the
      stripped map only if the store answered; a rejection caches nothing. */
  function ResolveStep(memo: Memo, path: JsValue, store: Store): (s: Step<Secrets>)
    ensures CacheKey(path).Failure? ==> s == Step(Failure(CacheKey(path).error), memo, None)
    ensures s.fetched.Some? <==> CacheKey(path).Success? && CacheKey(path).value !in memo
    ensures s.fetched.Some? ==> s.fetched.value == CacheKey(path).value
    ensures CacheKey(path).Success? && CacheKey(path).value in memo ==>
              s.result == Success(memo[CacheKey(path).value])
    // what the store answered decides the outcome of a miss
    ensures s.fetched.Some? ==>
              var answer := store(s.fetched.value);
              if answer.Success? then s.result == Success(BuildSecrets(answer.value, |s.fetched.value|))
              else s.result == Failure(RemoteFailure(answer.error))
    // the returned map is the one the cache now holds for the canonical path
    ensures s.result.Success? ==>
              CacheKey(path).Success? && CacheKey(path).value in s.memo
              && s.memo[CacheKey(path).value] == s.result.value
    // entries are only ever added, never replaced or removed
    ensures forall c | c in memo :: c in s.memo && s.memo[c] == memo[c]
    ensures forall c | c in s.memo && c !in memo :: s.fetched == Some(c)
    ensures s.result.Failure? || s.fetched.None? ==> s.memo == memo
  {
    var key := CacheKey(path);
    if key.Failure? then Step(Failure(key.error), memo, None)
    else if key.value in memo then Step(Success(memo[key.value]), memo, None)
    else
      var answer := store(key.value);
      if answer.Failure? then Step(Failure(RemoteFailure(answer.error)), memo, Some(key.value))
      else
        var secrets := BuildSecrets(answer.value, |key.value|);
        Step(Success(secrets), memo[key.value := secrets], Some(key.value))
  }

  /** After a path resolved, any path with the same canonical form is answered
      with the same map, from the cache, whatever the store would now answer. */
  lemma RepeatedResolveIsCached(memo: Memo, p: JsValue, q: JsValue, store: Store, later: Store)
    requires CacheKey(p).Success? && CacheKey(q) == CacheKey(p)
    requires ResolveStep(memo, p, store).result.Success?
    ensures var first := ResolveStep(memo, p, store);
            ResolveStep(first.memo, q, later) == Step(first.result, first.memo, None)
  {
  }

  /** `resolveFromPath('/a')` followed by `resolveFromPath('/a/')` asks the store once. */
  lemma TrailingSlashResolvesOnce(memo: Memo, p: string, store: Store, later: Store)
    requires !EndsWithSlash(p)
    requires ResolveStep(memo, Str(p), store).result.Success?
    ensures var first := ResolveStep(memo, Str(p), store);
            ResolveStep(first.memo, Str(p + "/"), later) == Step(first.result, first.memo, None)
  {
    TrailingSlashSharesKey(p);
    RepeatedResolveIsCached(memo, Str(p), Str(p + "/"), store, later);
  }

  /** A rejected fetch leaves no trace: the next call behaves exactly as if the
      failed one had never happened, so it asks the store again. */
  lemma FailedFetchIsRetried(memo: Memo, p: JsValue, store: Store, later: Store)
    requires ResolveStep(memo, p, store).result.Failure?
    ensures var first := ResolveStep(memo, p, store);
            ResolveStep(first.memo, p, later) == ResolveStep(memo, p, later)
    ensures CacheKey(p).Success? && CacheKey(p).value !in memo ==>
              ResolveStep(ResolveStep(memo, p, store).memo, p, later).fetched == Some(CacheKey(p).value)
  {
  }

  /** Resolving one path never disturbs the entry of another canonical path. */
  lemma OtherPathsUntouched(memo: Memo, p: JsValue, store: Store, c: string)
    requires CacheKey(p).Success? && c != CacheKey(p).value
    ensures c in ResolveStep(memo, p, store).memo <==> c in memo
    ensures c in memo ==> ResolveStep(memo, p, store).memo[c] == memo[c]
  {
  }

  /** The exported function (index.js:38-50): validate the name, choose the path,
      resolve it through the cache, then look the name up strictly. */
  function GetSecretStep(memo: Memo, name: JsValue, options: OptionsArg, env: Option<string>,
                         store: Store): (s: Step<string>)
    // the name is checked before a path is chosen or anything is fetched
    ensures ToText(name).Failure? ==> s == Step(Failure(ToText(name).error), memo, None)
    ensures ToText(name).Success? && SelectPath(options, env).Failure? ==>
              s == Step(Failure(MissingPath), memo, None)
    ensures s.result.Success? ==> s.result.value != ""
    // a value is only ever returned from the cache entry of the chosen path
    ensures s.result.Success? ==>
              && ToText(name).Success? && SelectPath(options, env).Success?
              && var key := CacheKey(SelectPath(options, env).value);
              && key.Success? && key.value in s.memo
              && s.result == Lookup(s.memo[key.value], ToText(name).value)
    // a valid name and path: the resolve decides cache and fetch, and its failure
    // is the lookup's failure
    ensures ToText(name).Success? && SelectPath(options, env).Success? ==>
              var r := ResolveStep(memo, SelectPath(options, env).value, store);
              && s.memo == r.memo && s.fetched == r.fetched
              && s.result == (if r.result.Success? then Lookup(r.result.value, ToText(name).value)
                              else Failure(r.result.error))
    ensures forall c | c in memo :: c in s.memo && s.memo[c] == memo[c]
    ensures s.fetched.None? ==> s.memo == memo
  {
    match ToText(name)
    case Failure(e) => Step(Failure(e), memo, None)
    case Success(n) =>
      match SelectPath(options, env)
      case Failure(e) => Step(Failure(e), memo, None)
      case Success(path) =>
        var resolved := ResolveStep(memo, path, store);
        var result := if resolved.result.Success? then Lookup(resolved.result.value, n)
                      else Failure(resolved.result.error);
        Step(result, resolved.memo, resolved.fetched)
  }

  /** With the chosen path already cached, the lookup reads the cached map and
      never asks the store: a missing or empty value is `SecretNotFound`. */
  lemma CachedLookup(memo: Memo, name: string, options: OptionsArg, env: Option<string>,
                     store: Store)
    requires SelectPath(options, env).Success?
    requires CacheKey(SelectPath(options, env).value).Success?
    requires CacheKey(SelectPath(options, env).value).value in memo
    ensures var secrets := memo[CacheKey(SelectPath(options, env).value).value];
            GetSecretStep(memo, Str(name), options, env, store) == Step(Lookup(secrets, name), memo, None)
  {
  }

  /** The secrets the store mock holds under '/default-path/', by short name. */
  function DefaultSecrets(): Secrets {
    map["ENDPOINT_KEY" := "some-fii", "ENDPOINT_URL" := "some-elo"]
  }

  /** An uncached path that the store answers is cached, under its canonical form,
      as the stripped map of the answer. */
  lemma UncachedResolve(memo: Memo, path: JsValue, store: Store, key: string, ps: seq<Parameter>)
    requires CacheKey(path) == Success(key) && key !in memo && store(key) == Success(ps)
    ensures ResolveStep(memo, path, store)
            == Step(Success(BuildSecrets(ps, |key|)), memo[key := BuildSecrets(ps, |key|)], Some(key))
  {
  }

  /** An uncached path whose fetch is rejected fails with the store's message and
      leaves the cache as it was. */
  lemma RejectedResolve(memo: Memo, path: JsValue, store: Store, key: string, cause: string)
    requires CacheKey(path) == Success(key) && key !in memo && store(key) == Failure(cause)
    ensures ResolveStep(memo, path, store) == Step(Failure(RemoteFailure(cause)), memo, Some(key))
  {
  }

  /** When name and path are valid, the exported function is the strict lookup
      in whatever resolving the path produced. */
  lemma LookupAfterResolve(memo: Memo, name: string, options: OptionsArg, env: Option<string>,
                           store: Store, secrets: Secrets, memo': Memo, fetched: Option<string>)
    requires SelectPath(options, env).Success?
    requires ResolveStep(memo, SelectPath(options, env).value, store) == Step(Success(secrets), memo', fetched)
    ensures GetSecretStep(memo, Str(name), options, env, store) == Step(Lookup(secrets, name), memo', fetched)
  {
  }

  /** A scenario built on the test suite's store mock, first call:
      SSM_SECRETS_PATH is '/default-path' (no trailing '/'); the lookup asks the store for '/default-path/' and finds
      ENDPOINT_KEY among the stripped names. */
  lemma DefaultPathFirstLookup()
    ensures GetSecretStep(map[], Str("ENDPOINT_KEY"), NotObject, Some("/default-path"), MockStore)
            == Step(Success("some-fii"), map["/default-path/" := DefaultSecrets()], Some("/default-path/"))
  {
    var key := "/default-path/";
    MockDefaultAnswer();
    DefaultEnvKey();
    UncachedResolve(map[], Str("/default-path"), MockStore, key, MockStore(key).value);
    assert SelectPath(NotObject, Some("/default-path")) == Success(Str("/default-path"));
    LookupAfterResolve(map[], "ENDPOINT_KEY", NotObject, Some("/default-path"), MockStore,
                       DefaultSecrets(), map[key := DefaultSecrets()], Some(key));
    assert Lookup(DefaultSecrets(), "ENDPOINT_KEY") == Success("some-fii");
  }

  /** The mock answers '/default-path/', and its answer strips to `DefaultSecrets()`. */
  lemma MockDefaultAnswer()
    ensures MockStore("/default-path/").Success?
    ensures BuildSecrets(MockStore("/default-path/").value, |"/default-path/"|) == DefaultSecrets()
  {
    DefaultPathExample();
  }

  /** The environment path '/default-path' is cached under '/default-path/'. */
  lemma DefaultEnvKey()
    ensures CacheKey(Str("/default-path")) == Success("/default-path/")
  {
    assert "/default-path" + "/" == "/default-path/";
  }

  /** Second call: an option path with the same canonical form hits the cache
      entry; a missing name is `SecretNotFound`, and the store is not asked. */
  lemma DefaultPathMissingName()
    ensures var memo := map["/default-path/" := DefaultSecrets()];
            GetSecretStep(memo, Str("MISSING"), Record(Str("/default-path/")), None, MockStore)
            == Step(Failure(SecretNotFound("MISSING")), memo, None)
  {
    var key := "/default-path/";
    assert CacheKey(Str(key)) == Success(key);
    CachedLookup(map[key := DefaultSecrets()], "MISSING", Record(Str(key)), None, MockStore);
  }

  /** The store mock of the test suite: two paths with two entries each; any other
      path is rejected. */
  function MockStore(path: string): FetchResult {
    if path == "/default-path/" then
      Success([Parameter("/default-path/ENDPOINT_KEY", "some-fii"),
               Parameter("/default-path/ENDPOINT_URL", "some-elo")])
    else if path == "/custom-path/" then
      Success([Parameter("/custom-path/CUSTOM_KEY", "some-fii-custom"),
               Parameter("/custom-path/ENDPOINT_URL", "some-custom-elo")])
    else Failure("No mock resolved")
  }

  /** One request made to the store and what it answered. */
  datatype FetchCall = FetchCall(path: string, response: FetchResult)

  /** The canonical paths whose fetch succeeded. */
  function SucceededPaths(calls: seq<FetchCall>): set<string> {
    if calls == [] then {}
    else
      var last := calls[|calls| - 1];
      SucceededPaths(calls[..|calls| - 1]) + if last.response.Success? then {last.path} else {}
  }

  /** A path has succeeded exactly when some request for it was answered. */
  lemma {:induction false} SucceededOccurs(calls: seq<FetchCall>, c: string)
    ensures c in SucceededPaths(calls) <==>
              exists i | 0 <= i < |calls| :: calls[i].response.Success? && calls[i].path == c
  {
    if calls != [] {
      var init, last := calls[..|calls| - 1], calls[|calls| - 1];
      SucceededOccurs(init, c);
      if c in SucceededPaths(init) {
        var i :| 0 <= i < |init| && init[i].response.Success? && init[i].path == c;
        assert calls[i] == init[i];
      } else if last.response.Success? && last.path == c {
        assert calls[|calls| - 1] == last;
      } else {
        forall i | 0 <= i < |calls|
          ensures !(calls[i].response.Success? && calls[i].path == c)
        {
          if i < |init| {
            assert calls[i] == init[i];
          }
        }
      }
    }
  }

  /** The cache that a history of store requests leaves behind: every answered
      request stores its stripped map, every rejected one stores nothing. */
  function Replay(calls: seq<FetchCall>): (m: Memo)
    ensures m.Keys == SucceededPaths(calls)
  {
    if calls == [] then map[]
    else
      var last := calls[|calls| - 1];
      var prev := Replay(calls[..|calls| - 1]);
      match last.response
      case Success(ps) => prev[last.path := BuildSecrets(ps, |last.path|)]
      case Failure(_) => prev
  }

  /** Appending a request to the history updates the cache as that request did. */
  lemma ReplayAppend(calls: seq<FetchCall>, call: FetchCall)
    ensures Replay(calls + [call]) ==
              if call.response.Success?
              then Replay(calls)[call.path := BuildSecrets(call.response.value, |call.path|)]
              else Replay(calls)
  {
    assert (calls + [call])[..|calls|] == calls;
  }

  /** The memoisation invariant: once the store answered a path, that path is
      never requested again. */
  predicate NoRefetch(calls: seq<FetchCall>) {
    forall i, j | 0 <= i < j < |calls| && calls[i].response.Success? :: calls[j].path != calls[i].path
  }

  /** A request for a path that is not cached keeps the memoisation invariant. */
  lemma NoRefetchExtended(calls: seq<FetchCall>, next: FetchCall)
    requires NoRefetch(calls) && next.path !in Replay(calls)
    ensures NoRefetch(calls + [next])
  {
    var all := calls + [next];
    forall i, j | 0 <= i < j < |all| && all[i].response.Success?
      ensures all[j].path != all[i].path
    {
      assert all[i] == calls[i];
      if j == |calls| {
        SucceededOccurs(calls, all[i].path);
      } else {
        assert all[j] == calls[j];
      }
    }
  }

  /** Under the invariant each path is answered at most once, and the cache holds
      exactly the map built from that one answer. */
  lemma {:induction false} ReplayHoldsTheAnswer(calls: seq<FetchCall>, i: nat)
    requires NoRefetch(calls) && i < |calls| && calls[i].response.Success?
    ensures calls[i].path in Replay(calls)
    ensures Replay(calls)[calls[i].path] ==
              BuildSecrets(calls[i].response.value, |calls[i].path|)
  {
    var init, last := calls[..|calls| - 1], calls[|calls| - 1];
    if i < |calls| - 1 {
      assert init[i] == calls[i];
      assert NoRefetch(init) by {
        forall a, b | 0 <= a < b < |init| && init[a].response.Success?
          ensures init[b].path != init[a].path
        {
          assert init[a] == calls[a] && init[b] == calls[b];
        }
      }
      ReplayHoldsTheAnswer(init, i);
      assert last.path != calls[i].path;
    }
  }

  /** The request a step makes, as a history entry. */
  function Requests(fetched: Option<string>, store: Store): (log: seq<FetchCall>)
    ensures |log| <= 1
    ensures fetched.Some? ==> log == [FetchCall(fetched.value, store(fetched.value))]
  {
    if fetched.Some? then [FetchCall(fetched.value, store(fetched.value))] else []
  }

  /** The module state of index.js: the memoizee cache behind resolveFromPath.
      `Calls` records every request made to the store, for the invariant only. */
  class SecretResolver {
    var memo: Memo
    ghost var Calls: seq<FetchCall>

    /** The cache is what the request history built, no answered path was ever
        requested again, and only canonical paths were requested. */
    ghost predicate Valid()
      reads this
    {
      && memo == Replay(Calls)
      && NoRefetch(Calls)
      && forall i | 0 <= i < |Calls| :: EndsWithSlash(Calls[i].path)
    }

    constructor ()
      ensures Valid() && memo == map[] && Calls == []
    {
      memo := map[];
      Calls := [];
    }

    /** The memoised resolveFromPath (index.js:13-36). */
    method ResolveFromPath(path: JsValue, store: Store) returns (r: Result<Secrets, Error>)
      requires Valid()
      modifies this
      ensures Valid()
      ensures var s := ResolveStep(old(memo), path, store);
              r == s.result && memo == s.memo && Calls == old(Calls) + Requests(s.fetched, store)
    {
      var key;
      match CacheKey(path) {
        case Failure(e) =>
          return Failure(e);
        case Success(k) =>
          key := k;
      }
      if key in memo {
        return Success(memo[key]);
      }
      var response := store(key);
      ghost var call := FetchCall(key, response);
      NoRefetchExtended(Calls, call);
      ReplayAppend(Calls, call);
      Calls := Calls + [call];
      assert forall i | 0 <= i < |Calls| :: EndsWithSlash(Calls[i].path) by {
        assert Calls[|Calls| - 1] == call;
        assert forall i | 0 <= i < |Calls| - 1 :: Calls[i] == old(Calls)[i];
      }
      match response {
        case Success(ps) =>
          var secrets := BuildSecrets(ps, |key|);
          memo := memo[key := secrets];
          r := Success(secrets);
          UncachedResolve(old(memo), path, store, key, ps);
        case Failure(cause) =>
          r := Failure(RemoteFailure(cause));
          RejectedResolve(old(memo), path, store, key, cause);
      }
    }

    /** The exported lookup (index.js:38-50). */
    method GetSecret(name: JsValue, options: OptionsArg, env: Option<string>, store: Store)
      returns (r: Result<string, Error>)
      requires Valid()
      modifies this
      ensures Valid()
      ensures var s := GetSecretStep(old(memo), name, options, env, store);
              r == s.result && memo == s.memo && Calls == old(Calls) + Requests(s.fetched, store)
    {
      var n;
      match ToText(name) {
        case Failure(e) =>
          return Failure(e);
        case Success(text) =>
          n := text;
      }
      var path;
      match SelectPath(options, env) {
        case Failure(e) =>
          return Failure(e);
        case Success(p) =>
          path := p;
      }
      var secrets := ResolveFromPath(path, store);
      match secrets {
        case Failure(e) =>
          r := Failure(e);
        case Success(m) =>
          r := Lookup(m, n);
      }
    }
  }

  /** A scenario built on the test suite's store mock, run against the stateful
      resolver: two lookups under the default path; `requests` is the resolver's
      request history afterwards, a single request for '/default-path/'. */
  method DefaultPathScenario()
    returns (found: Result<string, Error>, missing: Result<string, Error>, ghost requests: seq<FetchCall>)
    ensures found == Success("some-fii")
    ensures missing == Failure(SecretNotFound("MISSING"))
    ensures requests == [FetchCall("/default-path/", MockStore("/default-path/"))]
  {
    var resolver := new SecretResolver();
    DefaultPathFirstLookup();
    DefaultPathMissingName();
    found := resolver.GetSecret(Str("ENDPOINT_KEY"), NotObject, Some("/default-path"), MockStore);
    missing := resolver.GetSecret(Str("MISSING"), Record(Str("/default-path/")), None, MockStore);
    requests := resolver.Calls;
  }
}
