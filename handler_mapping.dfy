/**
 `ApiVersionRequestMappingHandlerMapping`: turns the `@ApiVersion` annotation found on a
 controller class or handler method into a version condition. The annotation lookup is
 reflection; here its outcome is an input: `None` for no annotation, `Some(value)` for
 `@ApiVersion(value)`.
 */
module HandlerMapping {
  import opened JavaLang
  import opened Versions
  import opened VersionRanges
  import opened UriPattern
  import opened ApiVersionConditions

  /** The condition an annotation (or its absence) stands for. */
  predicate CreatedFrom(c: ApiVersionRequestCondition?, apiVersion: Option<Int32>) {
    match apiVersion
    case None => c == null
    case Some(value) =>
      && c != null
      && (value <= 0 ==> c.versions == {})
      && (value > 0 ==> |c.versions| == 1)
      && forall r :: r in c.versions ==> r.from.version == value && r.to.version == MAX_VERSION
  }

  /**
   `createCondition`: no annotation, no condition; `@ApiVersion(n)` gives a condition built
   from `(n, MAX_VERSION)`, which is one range `[n, MAX_VERSION]` if `n > 0` and none otherwise.
   */
  method CreateCondition(apiVersion: Option<Int32>) returns (c: ApiVersionRequestCondition?)
    ensures CreatedFrom(c, apiVersion)
    ensures c != null ==> fresh(c) && fresh(c.versions)
  {
    if apiVersion.None? {
      return null;
    }
    c := new ApiVersionRequestCondition(apiVersion.value, MAX_VERSION);
  }

  /** `getCustomTypeCondition`: the annotation on the controller class. */
  method GetCustomTypeCondition(typeAnnotation: Option<Int32>) returns (c: ApiVersionRequestCondition?)
    ensures CreatedFrom(c, typeAnnotation)
    ensures c != null ==> fresh(c) && fresh(c.versions)
  {
    c := CreateCondition(typeAnnotation);
  }

  /** `getCustomMethodCondition`: the annotation on the handler method. */
  method GetCustomMethodCondition(methodAnnotation: Option<Int32>) returns (c: ApiVersionRequestCondition?)
    ensures CreatedFrom(c, methodAnnotation)
    ensures c != null ==> fresh(c) && fresh(c.versions)
  {
    c := CreateCondition(methodAnnotation);
  }

  /** The bounds of a condition's ranges, forgetting which objects carry them. */
  function Bounds(c: ApiVersionRequestCondition): set<(int, int)> {
    set r | r in c.versions :: (r.from.version, r.to.version)
  }

  /**
   Conditions created from the same annotation value, at type level or method level, carry the
   same bounds: `{(value, MAX_VERSION)}` if the value is positive, nothing otherwise.
   */
  lemma SameAnnotationSameBounds(c: ApiVersionRequestCondition?, d: ApiVersionRequestCondition?,
                                 apiVersion: Option<Int32>)
    requires CreatedFrom(c, apiVersion) && CreatedFrom(d, apiVersion)
    ensures c == null <==> d == null
    ensures c != null && apiVersion.value > 0 ==> Bounds(c) == {(apiVersion.value, MAX_VERSION)}
    ensures c != null ==> Bounds(c) == Bounds(d)
  {
    if c != null {
      var value := apiVersion.value;
      if value > 0 {
        BoundsOfCreated(c, value);
        BoundsOfCreated(d, value);
      } else {
        assert Bounds(c) == {} && Bounds(d) == {};
      }
    }
  }

  lemma BoundsOfCreated(c: ApiVersionRequestCondition?, value: Int32)
    requires value > 0 && CreatedFrom(c, Some(value))
    ensures c != null && Bounds(c) == {(value, MAX_VERSION)}
  {
    var x := Single(c.versions);
    assert (x.from.version, x.to.version) in Bounds(c);
  }

  /** A non-positive annotation value yields a condition that no request matches. */
  lemma NonPositiveAnnotationMatchesNothing(c: ApiVersionRequestCondition?, value: Int32, uri: string)
    requires value <= 0 && CreatedFrom(c, Some(value))
    ensures c != null && !c.MatchingOutcome(uri).Matched?
  {
    EmptyMatchesNothing(c, uri);
  }

  /**
   A positive annotation value `n` yields a condition that matches `/api/v<digits>/<rest>`
   exactly when the digits denote a version from `n` up to `MAX_VERSION`.
   */
  lemma PositiveAnnotationMatchesFrom(c: ApiVersionRequestCondition?, value: Int32,
                                      digits: string, rest: string)
    requires value > 0 && CreatedFrom(c, Some(value))
    requires |digits| > 0 && AllDigits(digits) && AnyLine(rest)
    ensures c != null
    ensures c.MatchingOutcome(Prefix + digits + "/" + rest).Matched? <==>
      value <= DecimalValue(digits) <= MAX_VERSION
  {
    MatchingOutcomeOnShape(c, digits, rest);
    var x := Single(c.versions);
    if value <= DecimalValue(digits) <= MAX_VERSION {
      assert x.Includes(DecimalValue(digits));
    }
  }

  /** The three request URIs of the version-2 article endpoint, read by the recogniser. */
  lemma ArticleUris()
    ensures VersionDigits("/api/v1/article/5") == Some("1")
    ensures VersionDigits("/api/v2/article/5") == Some("2")
    ensures VersionDigits("/api/v3/article/5") == Some("3")
  {
    VersionDigitsComplete("1", "article/5");
    VersionDigitsComplete("2", "article/5");
    VersionDigitsComplete("3", "article/5");
    assert Prefix + "1" + "/" + "article/5" == "/api/v1/article/5";
    assert Prefix + "2" + "/" + "article/5" == "/api/v2/article/5";
    assert Prefix + "3" + "/" + "article/5" == "/api/v3/article/5";
  }

  /**
   `@ApiVersion(2)`, as on the version-2 article controller: the condition rejects
   `/api/v1/article/5` and accepts `/api/v2/article/5` and `/api/v3/article/5`.
   */
  method ArticleV2Routing() returns (v1: MatchOutcome, v2: MatchOutcome, v3: MatchOutcome)
    ensures v1 == NotMatched && v2.Matched? && v3.Matched?
  {
    var c := CreateCondition(Some(2));
    ArticleUris();
    var x := Single(c.versions);
    assert !x.Includes(1) && x.Includes(2) && x.Includes(3);
    v1 := c.GetMatchingCondition("/api/v1/article/5");
    v2 := c.GetMatchingCondition("/api/v2/article/5");
    v3 := c.GetMatchingCondition("/api/v3/article/5");
  }

  /**
   Two conditions built from the same annotation value hold two distinct range objects with
   equal bounds; `combine` keeps both, and the two-range result ties with any condition under
   `compareTo`.
   */
  method CombineKeepsEqualRanges(value: Int32) returns (size: nat, rank: int)
    requires value > 0
    ensures size == 2 && rank == 0
  {
    var typeCondition := GetCustomTypeCondition(Some(value));
    var methodCondition := GetCustomMethodCondition(Some(value));
    var combined := typeCondition.Combine(methodCondition);
    var x := Single(typeCondition.versions);
    var y := Single(methodCondition.versions);
    assert x != y;
    size := |combined.versions|;
    rank := combined.CompareTo(typeCondition);
  }
}
