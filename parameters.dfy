/** The map of secrets built from one getParametersByPath response, and the
    strict lookup the exported function performs on it. */
module Parameters {
  import opened Wrappers
  import opened JsValues
  import opened Paths

  /** One entry of the store's response: its full name and its (decrypted) value. */
  datatype Parameter = Parameter(name: string, value: string)

  /** Short name (the full name without the path prefix) to value. */
  type Secrets = map<string, string>

  /** JavaScript `name.slice(n)` for a non-negative n: everything from position n
      on, and the empty string once n is past the end. */
  function Slice(name: string, n: nat): (r: string)
    ensures |r| == if n <= |name| then |name| - n else 0
  {
    if n <= |name| then name[n..] else ""
  }

  /** What `slice` keeps is the tail of the name. */
  lemma SliceIsSuffix(name: string, n: nat)
    ensures name[|name| - |Slice(name, n)|..] == Slice(name, n)
  {
  }

  /** Slicing off the length of a prefix gives back what followed the prefix. */
  lemma SliceAfterPrefix(prefix: string, key: string)
    ensures Slice(prefix + key, |prefix|) == key
  {
    assert (prefix + key)[|prefix|..] == key;
  }

  /** The short names a response yields when the first n characters of every
      full name are cut off. */
  function ShortNames(ps: seq<Parameter>, n: nat): set<string> {
    if ps == [] then {} else ShortNames(ps[..|ps| - 1], n) + {Slice(ps[|ps| - 1].name, n)}
  }

  /** A short name is produced exactly when some entry of the response slices to it. */
  lemma {:induction false} ShortNameOccurs(ps: seq<Parameter>, n: nat, k: string)
    ensures k in ShortNames(ps, n) <==> exists i | 0 <= i < |ps| :: Slice(ps[i].name, n) == k
  {
    if ps != [] {
      var init, last := ps[..|ps| - 1], ps[|ps| - 1];
      ShortNameOccurs(init, n, k);
      if k in ShortNames(init, n) {
        var i :| 0 <= i < |init| && Slice(init[i].name, n) == k;
        assert ps[i] == init[i];
      } else if k == Slice(last.name, n) {
        assert Slice(ps[|ps| - 1].name, n) == k;
      } else {
        forall i | 0 <= i < |ps|
          ensures Slice(ps[i].name, n) != k
        {
          if i < |init| {
            assert ps[i] == init[i];
          }
        }
      }
    }
  }

  /** `new Map(parameters.map(({Name, Value}) => [Name.slice(n), Value]))`
      (index.js:22): entries are inserted in order, so a later entry with the same
      short name overwrites an earlier one. The key set is exactly the short names,
      so the map is never larger than the response. */
  function BuildSecrets(ps: seq<Parameter>, n: nat): (r: Secrets)
    ensures r.Keys == ShortNames(ps, n)
    ensures |r| <= |ps|
  {
    if ps == [] then map[]
    else
      var last := ps[|ps| - 1];
      BuildSecrets(ps[..|ps| - 1], n)[Slice(last.name, n) := last.value]
  }

  /** The value stored under a short name is the value of the LAST entry of the
      response with that short name. */
  lemma {:induction false} LastEntryWins(ps: seq<Parameter>, n: nat, i: nat)
    requires i < |ps|
    requires forall j | i < j < |ps| :: Slice(ps[j].name, n) != Slice(ps[i].name, n)
    ensures Slice(ps[i].name, n) in BuildSecrets(ps, n)
    ensures BuildSecrets(ps, n)[Slice(ps[i].name, n)] == ps[i].value
  {
    var init, last := ps[..|ps| - 1], ps[|ps| - 1];
    assert BuildSecrets(ps, n) == BuildSecrets(init, n)[Slice(last.name, n) := last.value];
    if i < |ps| - 1 {
      assert init[i] == ps[i];
      forall j | i < j < |init|
        ensures Slice(init[j].name, n) != Slice(init[i].name, n)
      {
        assert init[j] == ps[j];
      }
      LastEntryWins(init, n, i);
      assert Slice(last.name, n) != Slice(ps[i].name, n);
    }
  }

  /** Every stored value comes from some entry of the response with that short name. */
  lemma {:induction false} StoredValueFromResponse(ps: seq<Parameter>, n: nat, k: string)
    requires k in BuildSecrets(ps, n)
    ensures exists i | 0 <= i < |ps| :: Slice(ps[i].name, n) == k && ps[i].value == BuildSecrets(ps, n)[k]
  {
    ShortNameOccurs(ps, n, k);
    var i :| 0 <= i < |ps| && Slice(ps[i].name, n) == k;
    while exists j | i < j < |ps| :: Slice(ps[j].name, n) == k
      invariant 0 <= i < |ps| && Slice(ps[i].name, n) == k
      decreases |ps| - i
    {
      var j :| i < j < |ps| && Slice(ps[j].name, n) == k;
      i := j;
    }
    LastEntryWins(ps, n, i);
  }

  /** Entries fetched under a canonical path `canon` are stored under the part of
      their name that follows `canon`, when no later entry reuses that part. */
  lemma StrippedUnderPath(canon: string, key: string, ps: seq<Parameter>, i: nat)
    requires i < |ps| && ps[i].name == canon + key
    requires forall j | i < j < |ps| :: Slice(ps[j].name, |canon|) != key
    ensures key in BuildSecrets(ps, |canon|) && BuildSecrets(ps, |canon|)[key] == ps[i].value
  {
    SliceAfterPrefix(canon, key);
    LastEntryWins(ps, |canon|, i);
  }

  /** The strict lookup of index.js:47-48: a present, non-empty value is returned;
      an absent name and an empty value both reject with `<name> secret not found`. */
  function Lookup(secrets: Secrets, name: string): (r: Result<string, Error>)
    ensures r.Success? <==> name in secrets && secrets[name] != ""
    ensures r.Success? ==> r.value == secrets[name]
    ensures r.Failure? ==> r.error == SecretNotFound(name)
  {
    if name in secrets && Truthy(Str(secrets[name])) then Success(secrets[name])
    else Failure(SecretNotFound(name))
  }

  /** A response of one entry under `canon` gives the map of its short name alone. */
  lemma OneEntry(canon: string, k: string, v: string)
    ensures BuildSecrets([Parameter(canon + k, v)], |canon|) == map[k := v]
  {
    var p := Parameter(canon + k, v);
    SliceAfterPrefix(canon, k);
    assert [p][..0] == [];
  }

  /** A response of two entries under `canon` gives the map of their two short
      names, the second entry's value winning when the names coincide. */
  lemma TwoEntries(canon: string, k1: string, v1: string, k2: string, v2: string)
    ensures BuildSecrets([Parameter(canon + k1, v1), Parameter(canon + k2, v2)], |canon|)
            == map[k1 := v1, k2 := v2]
  {
    var first, second := Parameter(canon + k1, v1), Parameter(canon + k2, v2);
    calc {
      BuildSecrets([first, second], |canon|);
    == { assert [first, second] == [first] + [second]; }
      BuildSecrets([first] + [second], |canon|);
    == { BuildSecretsAppend([first], second, |canon|); }
      BuildSecrets([first], |canon|)[Slice(second.name, |canon|) := v2];
    == { OneEntry(canon, k1, v1); SliceAfterPrefix(canon, k2); }
      map[k1 := v1][k2 := v2];
    }
  }

  /** One more entry in the response is one more insertion into the map. */
  lemma BuildSecretsAppend(ps: seq<Parameter>, p: Parameter, n: nat)
    ensures BuildSecrets(ps + [p], n) == BuildSecrets(ps, n)[Slice(p.name, n) := p.value]
  {
    assert (ps + [p])[..|ps|] == ps;
  }

  /** The response of the test suite's store mock for '/default-path/'
      turns into the two short names it expects. */
  lemma DefaultPathExample()
    ensures BuildSecrets([Parameter("/default-path/ENDPOINT_KEY", "some-fii"),
                          Parameter("/default-path/ENDPOINT_URL", "some-elo")],
                         |"/default-path/"|)
            == map["ENDPOINT_KEY" := "some-fii", "ENDPOINT_URL" := "some-elo"]
  {
    var canon := "/default-path/";
    calc {
      BuildSecrets([Parameter("/default-path/ENDPOINT_KEY", "some-fii"),
                    Parameter("/default-path/ENDPOINT_URL", "some-elo")], |canon|);
    == { assert "/default-path/ENDPOINT_KEY" == canon + "ENDPOINT_KEY";
         assert "/default-path/ENDPOINT_URL" == canon + "ENDPOINT_URL"; }
      BuildSecrets([Parameter(canon + "ENDPOINT_KEY", "some-fii"),
                    Parameter(canon + "ENDPOINT_URL", "some-elo")], |canon|);
    == { TwoEntries(canon, "ENDPOINT_KEY", "some-fii", "ENDPOINT_URL", "some-elo"); }
      map["ENDPOINT_KEY" := "some-fii", "ENDPOINT_URL" := "some-elo"];
    }
  }
}
