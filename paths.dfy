/** Which path the lookup reads from, and the canonical form of that path that
    keys the memoised cache and is sent to the parameter store. */
module Paths {
  import opened Wrappers
  import opened JsValues

  predicate EndsWithSlash(s: string) {
    |s| > 0 && s[|s| - 1] == '/'
  }

  predicate IsPrefix(s: string, t: string) {
    |s| <= |t| && t[..|s|] == s
  }

  /** The string step of the memoizee resolver (index.js:31): a path that does not
      end with '/' gets exactly one '/' appended. The result extends the input by
      at most one character and always ends with '/'. */
  function Canonical(s: string): (r: string)
    ensures EndsWithSlash(r)
    ensures IsPrefix(s, r) && |r| <= |s| + 1
    ensures EndsWithSlash(s) ==> r == s
  {
    if EndsWithSlash(s) then s else s + "/"
  }

  /** The canonical form is the shortest extension of the path that ends with '/'. */
  lemma CanonicalIsShortest(s: string, t: string)
    requires IsPrefix(s, t) && EndsWithSlash(t)
    ensures |Canonical(s)| <= |t|
  {
    if !EndsWithSlash(s) {
      assert t != s;
    }
  }

  /** Canonicalising twice is canonicalising once. */
  lemma CanonicalIdempotent(s: string)
    ensures Canonical(Canonical(s)) == Canonical(s)
  {
  }

  /** Exactly which two strings share a cache key: equal ones, and a string
      without a trailing '/' together with that string plus '/'. */
  lemma SameCanonical(s: string, t: string)
    ensures Canonical(s) == Canonical(t) <==>
              s == t
              || (!EndsWithSlash(s) && t == s + "/")
              || (!EndsWithSlash(t) && s == t + "/")
  {
  }

  /** The memoizee resolver of index.js:29-33: coerce the argument with
      ensureString, then canonicalise. Its result is both the cache key and the
      path handed to the parameter store. */
  function CacheKey(path: JsValue): (r: Result<string, Error>)
    ensures r.Success? <==> ToText(path).Success?
    ensures r.Failure? ==> r == Failure(ToText(path).error)
    ensures r.Success? ==> EndsWithSlash(r.value) && IsPrefix(ToText(path).value, r.value)
    // at most one '/' is appended, and none to a text that already ends with '/'
    ensures r.Success? ==> |r.value| <= |ToText(path).value| + 1
    ensures r.Success? && EndsWithSlash(ToText(path).value) ==> r.value == ToText(path).value
  {
    var s :- ToText(path);
    Success(Canonical(s))
  }

  /** `resolveFromPath('/a')` and `resolveFromPath('/a/')` use one cache entry. */
  lemma TrailingSlashSharesKey(p: string)
    requires !EndsWithSlash(p)
    ensures CacheKey(Str(p)) == CacheKey(Str(p + "/"))
    ensures CacheKey(Str(p)) == Success(p + "/")
  {
  }

  /** Every value whose string conversion gives the same text lands on the same
      cache entry, so e.g. the number 5 and the string "5/" share a key. */
  lemma SameTextSameKey(p: JsValue, q: JsValue)
    requires ToText(p).Success? && ToText(q).Success?
    ensures CacheKey(p) == CacheKey(q) <==>
              Canonical(ToText(p).value) == Canonical(ToText(q).value)
  {
  }

  /** Path selection of index.js:40-45: a truthy `options.path` wins, as it is
      (it is coerced only later, by the cache resolver); otherwise a non-empty
      SSM_SECRETS_PATH; otherwise the missing-path error. Options that are not an
      object act as `{}`. */
  function SelectPath(options: OptionsArg, env: Option<string>): (r: Result<JsValue, Error>)
    ensures r.Success? <==>
              (options.Record? && Truthy(options.path)) || (env.Some? && env.value != "")
    ensures options.Record? && Truthy(options.path) ==> r == Success(options.path)
    ensures !(options.Record? && Truthy(options.path)) && env.Some? && env.value != "" ==>
              r == Success(Str(env.value))
    ensures r.Failure? ==> r.error == MissingPath
    ensures r.Success? ==> Truthy(r.value)
  {
    var explicit := if options.Record? then options.path else Undefined;
    if Truthy(explicit) then Success(explicit)
    else if env.None? || !Truthy(Str(env.value)) then Failure(MissingPath)
    else Success(Str(env.value))
  }

  /** A non-object `options` behaves exactly like an object without `path`. */
  lemma NonObjectOptionsIgnored(env: Option<string>, v: JsValue)
    requires !Truthy(v)
    ensures SelectPath(NotObject, env) == SelectPath(Record(v), env)
  {
  }
}
