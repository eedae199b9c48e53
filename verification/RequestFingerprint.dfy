/**
 What the idempotency interceptor takes for the same request: method, path, and the canonical text of
 body and query together. The text stands for its SHA-256 hash.
 */
module RequestFingerprint {
  import opened CanonicalJson
  import Idempotency

  const BODY: Text := [98, 111, 100, 121]
  const QUERY: Text := [113, 117, 101, 114, 121]

  lemma NamesAre()
    ensures BODY == Units("body") && QUERY == Units("query")
  {
  }

  function OrNull(j: Json): Json {
    if j.Undefined? then Null else j
  }

  function Hashed(body: Json, query: Json): Json {
    Obj([Field(BODY, OrNull(body)), Field(QUERY, OrNull(query))])
  }

  function FingerprintOf(verb: string, path: string, body: Json, query: Json): Idempotency.Fingerprint {
    Idempotency.Fingerprint(verb, path, Canonical(Hashed(body, query)))
  }

  lemma HashedMeans(body: Json, query: Json)
    requires WellFormed(body) && WellFormed(query)
    ensures WellFormed(Hashed(body, query))
    ensures Meaning(Hashed(body, query)) == VObj(map[BODY := Meaning(body), QUERY := Meaning(query)])
  {
    var first, second := Field(BODY, OrNull(body)), Field(QUERY, OrNull(query));
    assert BODY[0] != QUERY[0];
    assert [first, second][1..] == [second] && [second][1..] == [];
    assert FieldsWellFormed([]) && FieldsWellFormed([second]);
    assert FieldMeanings([]) == map[];
    assert Meaning(OrNull(body)) == Meaning(body) && Meaning(OrNull(query)) == Meaning(query);
    var tail := FieldMeanings([second]);
    assert tail == map[QUERY := Meaning(query)];
    assert FieldMeanings([first, second]) == tail[BODY := Meaning(body)];
    assert tail[BODY := Meaning(body)] == map[BODY := Meaning(body), QUERY := Meaning(query)];
  }

  /** Two requests have one fingerprint exactly when method, path, and what body and query mean agree. */
  lemma SameRequestIff(verb: string, path: string, body: Json, query: Json,
                       otherVerb: string, otherPath: string, otherBody: Json, otherQuery: Json)
    requires WellFormed(body) && WellFormed(query) && WellFormed(otherBody) && WellFormed(otherQuery)
    ensures FingerprintOf(verb, path, body, query) == FingerprintOf(otherVerb, otherPath, otherBody, otherQuery) <==>
      verb == otherVerb && path == otherPath && Meaning(body) == Meaning(otherBody) && Meaning(query) == Meaning(otherQuery)
  {
    HashedMeans(body, query);
    HashedMeans(otherBody, otherQuery);
    CanonicalIffSameMeaning(Hashed(body, query), Hashed(otherBody, otherQuery));
    SameFieldsIff(Meaning(body), Meaning(query), Meaning(otherBody), Meaning(otherQuery));
  }

  lemma SameFieldsIff(body: Value, query: Value, otherBody: Value, otherQuery: Value)
    ensures map[BODY := body, QUERY := query] == map[BODY := otherBody, QUERY := otherQuery] <==>
      body == otherBody && query == otherQuery
  {
    assert BODY[0] != QUERY[0];
    var m, n := map[BODY := body, QUERY := query], map[BODY := otherBody, QUERY := otherQuery];
    assert m[BODY] == body && m[QUERY] == query && n[BODY] == otherBody && n[QUERY] == otherQuery;
  }
}
