# API-version routing condition

A Dafny model of the URL-path API-versioning core of a Spring MVC teaching project. A
controller class or handler method annotated `@ApiVersion(n)` receives a request condition
holding a set of inclusive version ranges. For a request URI of the form
`/api/v<digits>/<rest>` the condition matches when some range includes the number the
digits denote. Class-level and method-level conditions are merged by union, and two
conditions are ranked by the lower bound of their single ranges, higher first.

Files and modules:

- `java_lang.dfy` (`JavaLang`): Java's 32-bit `int`, and `Integer.parseInt` on a string of
  ASCII digits, including its `NumberFormatException` on overflow.
- `version.dfy` (`Versions`): `Version` and `MAX_VERSION`.
- `version_range.dfy` (`VersionRanges`): the class `VersionRange`, with `const` bounds.
- `uri_pattern.dfy` (`UriPattern`): a hand-written recogniser for the regular expression
  `(\/api\/v)(\d+)(\/).*` under `Matcher.matches`, returning the digit group.
- `api_version_request_condition.dfy` (`ApiVersionConditions`): the class
  `ApiVersionRequestCondition`, its construction, `combine`, `getMatchingCondition` and
  `compareTo`.
- `handler_mapping.dfy` (`HandlerMapping`): `createCondition` and its two callers.

Modelling choices:

- `VersionRange` is a class and a condition's `versions` is a `set<VersionRange>` of
  references. `VersionRange` defines neither `equals` nor `hashCode`, so the Java
  `HashSet`, `LinkedHashSet` and `Set.copyOf` tell ranges apart by identity. Two ranges
  built separately with equal bounds are two elements, as `CombineKeepsEqualRanges` shows.
- `Version` has a single `final` field, so it is a datatype. Dafny's `==` on it is value
  equality, whereas the Java class defines no `equals`; nothing in the core compares
  `Version`s with `equals`, so only `compareTo` is modelled as the source uses it.
- The request is replaced by its URI string. `getMatchingCondition` returns a
  `MatchOutcome`: `Matched(this)`, `NotMatched` (Java's `null`) or `NumberFormatThrown`
  (the exception `Integer.parseInt` throws for digits beyond `Integer.MAX_VALUE`).
- Java's `.` does not match line terminators (`\n`, `\r`, U+0085, U+2028, U+2029). The
  recogniser rejects a remainder containing one, so no precondition is needed.
- The annotation lookup is reflection. Its outcome is an input `Option<Int32>`: `None`
  for no annotation, `Some(n)` for `@ApiVersion(n)`.

Behaviours of the code that are easy to misread:

- A condition with an empty range set matches no URI, although an empty set is sometimes
  described as "unconstrained". Unless `parseInt` throws first on digits beyond `int`, the
  `for` loop in `getMatchingCondition` runs zero times and the method returns `null`.
- `combine` does not merge ranges with equal bounds, although version sets are sometimes
  described as de-duplicated by their bounds. Duplicates are kept because `VersionRange`
  is compared by identity.
- An inverted range (`from > to`) is accepted by the constructor, although a range is
  sometimes described as requiring `from <= to`; it includes no version.

## Model

| member | source | states |
|---|---|---|
| `JavaLang.ParseInt` | src/main/java/com/artineer/spring_lecture_week_2/apiversion/ApiVersionRequestCondition.java:53 | a digit string parses iff its decimal value fits an `int`, and then to that non-negative value; otherwise `NumberFormatException` |
| `JavaLang.LeadingZeroIgnored` | src/main/java/com/artineer/spring_lecture_week_2/apiversion/ApiVersionRequestCondition.java:53 | a leading `0` does not change the decimal value of a digit string |
| `JavaLang.LeadingZerosIgnored` | src/main/java/com/artineer/spring_lecture_week_2/apiversion/ApiVersionRequestCondition.java:53 | any number of leading zeros leaves the decimal value unchanged |
| `JavaLang.ParseIntBoundary` | src/main/java/com/artineer/spring_lecture_week_2/apiversion/ApiVersionRequestCondition.java:53 | `"2147483647"` parses to `Integer.MAX_VALUE` and `"2147483648"` throws |
| `Versions.Version.CompareTo` | src/main/java/com/artineer/spring_lecture_week_2/apiversion/Version.java:13-15 | `Integer.compare`: -1, 0 or 1 exactly when the wrapped value is below, equal to or above the other |
| `Versions.CompareToAntisymmetric` | src/main/java/com/artineer/spring_lecture_week_2/apiversion/Version.java:14 | swapping the operands negates the result |
| `Versions.CompareToTotalPreorder` | src/main/java/com/artineer/spring_lecture_week_2/apiversion/Version.java:14 | the order is reflexive, total and transitive, and strict comparison is transitive |
| `Versions.CompareToZeroIsEquality` | src/main/java/com/artineer/spring_lecture_week_2/apiversion/Version.java:6-15 | result 0 exactly for versions wrapping the same value |
| `VersionRanges.VersionRange.constructor` | src/main/java/com/artineer/spring_lecture_week_2/apiversion/VersionRange.java:7-10 | the bounds are the given values, unchecked; `const` fields are never reassigned |
| `VersionRanges.VersionRange.Includes` | src/main/java/com/artineer/spring_lecture_week_2/apiversion/VersionRange.java:12-23 | true iff `from <= v <= to`; a function, so it has no side effects |
| `VersionRanges.VersionRange.CompareTo` | src/main/java/com/artineer/spring_lecture_week_2/apiversion/VersionRange.java:25-27 | the sign is the sign of `from - other.from`, within -1..1 |
| `VersionRanges.BoundsIncluded` | src/main/java/com/artineer/spring_lecture_week_2/apiversion/VersionRange.java:18 | both bounds of a non-inverted range are included |
| `VersionRanges.InvertedRangeIsEmpty` | src/main/java/com/artineer/spring_lecture_week_2/apiversion/VersionRange.java:7-22 | a range with `from > to` includes no version |
| `VersionRanges.CompareToIgnoresUpperBound` | src/main/java/com/artineer/spring_lecture_week_2/apiversion/VersionRange.java:25-27 | ranges with equal `from` compare 0 and compare alike against any third range, whatever their `to` |
| `VersionRanges.RangeCompareToAntisymmetric` | src/main/java/com/artineer/spring_lecture_week_2/apiversion/VersionRange.java:26 | the range order is the version order of the lower bounds, and antisymmetric |
| `UriPattern.VersionDigits` | src/main/java/com/artineer/spring_lecture_week_2/apiversion/ApiVersionRequestCondition.java:49-53 | a recognised URI is `/api/v` + non-empty digits + `/` + a remainder without line terminators, and the result is that digit group |
| `UriPattern.VersionDigitsComplete` | src/main/java/com/artineer/spring_lecture_week_2/apiversion/ApiVersionRequestCondition.java:49-53 | every URI of that shape is recognised, with exactly its digits as the group |
| `UriPattern.VersionDigitsSoundAndComplete` | src/main/java/com/artineer/spring_lecture_week_2/apiversion/ApiVersionRequestCondition.java:49-52 | the recogniser accepts exactly the language of the regular expression |
| `UriPattern.RejectedShapes` | src/main/java/com/artineer/spring_lecture_week_2/apiversion/ApiVersionRequestCondition.java:49-52 | `/widgets/5`, `/api/v2`, `/api/vx/a`, `/api/v/a` and a remainder with a newline are rejected |
| `UriPattern.LeadingZerosAccepted` | src/main/java/com/artineer/spring_lecture_week_2/apiversion/ApiVersionRequestCondition.java:49-53 | `/api/v007/a` is recognised with group `007`, which parses to 7 |
| `ApiVersionConditions.VersionRangeSet` | src/main/java/com/artineer/spring_lecture_week_2/apiversion/ApiVersionRequestCondition.java:24-35 | no range when `from <= 0`; otherwise exactly one fresh range `(from, to)` if `to > 1`, else `(from, MAX_VERSION)` |
| `ApiVersionConditions.ApiVersionRequestCondition.constructor` | src/main/java/com/artineer/spring_lecture_week_2/apiversion/ApiVersionRequestCondition.java:16-18 | the condition holds the ranges `versionRange(from, to)` builds |
| `ApiVersionConditions.ApiVersionRequestCondition.FromCollection` | src/main/java/com/artineer/spring_lecture_week_2/apiversion/ApiVersionRequestCondition.java:20-22 | the condition holds exactly the given range objects |
| `ApiVersionConditions.ApiVersionRequestCondition.Combine` | src/main/java/com/artineer/spring_lecture_week_2/apiversion/ApiVersionRequestCondition.java:37-43 | a new condition whose ranges are the identity-union of both inputs; neither input changes |
| `ApiVersionConditions.ApiVersionRequestCondition.GetMatchingCondition` | src/main/java/com/artineer/spring_lecture_week_2/apiversion/ApiVersionRequestCondition.java:45-63 | the loop returns `this` iff the URI has the versioned shape, its digits parse and some range includes the version; `null` otherwise; the parse error propagates |
| `ApiVersionConditions.ApiVersionRequestCondition.CompareTo` | src/main/java/com/artineer/spring_lecture_week_2/apiversion/ApiVersionRequestCondition.java:65-72 | nonzero only when both sides hold one range; then negative iff this range starts higher, positive iff it starts lower |
| `ApiVersionConditions.EmptyMatchesNothing` | src/main/java/com/artineer/spring_lecture_week_2/apiversion/ApiVersionRequestCondition.java:52-62 | a condition with no ranges never returns itself; it throws only on digits beyond `int` |
| `ApiVersionConditions.MatchingOutcomeOnShape` | src/main/java/com/artineer/spring_lecture_week_2/apiversion/ApiVersionRequestCondition.java:49-59 | on `/api/v<digits>/<rest>`: matched iff the value fits an `int` and some range includes it; throws iff it does not fit |
| `ApiVersionConditions.MatchingOutcomeOffShape` | src/main/java/com/artineer/spring_lecture_week_2/apiversion/ApiVersionRequestCondition.java:49-62 | a URI outside the regular expression's language gives `null` |
| `ApiVersionConditions.CombineIsUnion` | src/main/java/com/artineer/spring_lecture_week_2/apiversion/ApiVersionRequestCondition.java:38-59 | the combined condition matches a URI iff either input does, and throws exactly when they do |
| `ApiVersionConditions.CompareToSingleRanges` | src/main/java/com/artineer/spring_lecture_week_2/apiversion/ApiVersionRequestCondition.java:66-69 | for single-range conditions the result is the negated range comparison: the higher `from` ranks first, equal `from` ties |
| `ApiVersionConditions.ConditionCompareToAntisymmetric` | src/main/java/com/artineer/spring_lecture_week_2/apiversion/ApiVersionRequestCondition.java:66-71 | swapping the operands negates the result |
| `ApiVersionConditions.CompareToTiesUnlessSingle` | src/main/java/com/artineer/spring_lecture_week_2/apiversion/ApiVersionRequestCondition.java:66-71 | a condition with zero or several ranges ties with every condition, in both directions |
| `ApiVersionConditions.HigherLowerBoundRanksFirst` | src/main/java/com/artineer/spring_lecture_week_2/apiversion/ApiVersionRequestCondition.java:66-69 | `{[2, MAX_VERSION]}` ranks before `{[1, MAX_VERSION]}` (-1) and the reverse gives 1 |
| `HandlerMapping.CreateCondition` | src/main/java/com/artineer/spring_lecture_week_2/apiversion/ApiVersionRequestMappingHandlerMapping.java:22-28 | no annotation gives `null`; `@ApiVersion(n)` gives one range `[n, MAX_VERSION]` if `n > 0`, no range otherwise |
| `HandlerMapping.GetCustomTypeCondition` | src/main/java/com/artineer/spring_lecture_week_2/apiversion/ApiVersionRequestMappingHandlerMapping.java:10-14 | the type-level condition is `createCondition` of the class annotation |
| `HandlerMapping.GetCustomMethodCondition` | src/main/java/com/artineer/spring_lecture_week_2/apiversion/ApiVersionRequestMappingHandlerMapping.java:16-20 | the method-level condition is `createCondition` of the method annotation |
| `HandlerMapping.SameAnnotationSameBounds` | src/main/java/com/artineer/spring_lecture_week_2/apiversion/ApiVersionRequestMappingHandlerMapping.java:11-27 | equal annotation values give conditions with equal bounds, `{(n, MAX_VERSION)}` for positive `n` |
| `HandlerMapping.NonPositiveAnnotationMatchesNothing` | src/main/java/com/artineer/spring_lecture_week_2/apiversion/ApiVersionRequestMappingHandlerMapping.java:27 | `@ApiVersion(n)` with `n <= 0` gives a condition that matches no request |
| `HandlerMapping.PositiveAnnotationMatchesFrom` | src/main/java/com/artineer/spring_lecture_week_2/apiversion/ApiVersionRequestMappingHandlerMapping.java:27 | `@ApiVersion(n)` with `n > 0` matches `/api/v<d>/<rest>` iff `n <= d <= MAX_VERSION` |
| `HandlerMapping.ArticleUris` | src/main/java/com/artineer/spring_lecture_week_2/conroller/v2/ArticleV2Controller.java:13-20 | the article URIs for versions 1, 2 and 3 carry the digit groups `1`, `2` and `3` |
| `HandlerMapping.ArticleV2Routing` | src/main/java/com/artineer/spring_lecture_week_2/conroller/v2/ArticleV2Controller.java:13 | the `@ApiVersion(2)` condition rejects `/api/v1/article/5` and accepts `/api/v2/article/5` and `/api/v3/article/5` |
| `HandlerMapping.CombineKeepsEqualRanges` | src/main/java/com/artineer/spring_lecture_week_2/apiversion/ApiVersionRequestCondition.java:38-43 | combining type and method conditions from the same value keeps two ranges, and the result ties under `compareTo` |

## Left out

- Spring's dispatch: how the framework treats a `null` custom condition, intersects
  conditions with path patterns and sorts candidates with `compareTo` is framework code.
  Only the ordering contract of `compareTo` is modelled, not route selection.
- Annotation reflection (`AnnotationUtils.findAnnotation`): replaced by an optional input.
  The `ApiVersion` annotation type and its default value are not part of this model.
- `getContent` and `getToStringInfix`: they feed `AbstractRequestCondition`'s `toString`
  and its content-based `equals`, `hashCode` and `isEmpty`, which Spring uses when it
  registers mappings. That framework code is left out, and `==` on the Dafny class
  `ApiVersionRequestCondition` is reference equality.
- `ApiVersionRequestCondition.FromCollection`: takes a set, while the Java constructor
  accepts any `Collection` and `Set.copyOf` collapses a list holding the same range twice.
  Every caller in the source passes a `Set`, so no observable behaviour is lost.
- The iteration order of `Set.copyOf` and `LinkedHashSet`: sets are unordered here. Order
  only matters to `compareTo` on single-element sets, where it is irrelevant.
- The `HttpServletRequest` parameter of `compareTo`: it is unused by the source.
- The logging aspect, the controllers, the exception handler, the configuration bean, the
  services and the DTOs: framework wiring and delegation outside the versioning core.
