/**
 `ApiVersionRequestCondition`: the set of version ranges attached to a controller class or
 handler method. It combines with another condition by union, matches a request URI of the
 form `/api/v<digits>/...` when some range includes the version, and ranks two conditions
 by the lower bound of their single ranges.

 The set holds `VersionRange` references, so two ranges built separately with the same
 bounds are two elements, as they are in the Java `HashSet`s, which fall back on identity
 because `VersionRange` defines neither `equals` nor `hashCode`.
 */
module ApiVersionConditions {
  import opened JavaLang
  import opened Versions
  import opened VersionRanges
  import opened UriPattern

  /** What `getMatchingCondition` does: return `this`, return `null`, or throw from `parseInt`. */
  datatype MatchOutcome =
    | Matched(condition: ApiVersionRequestCondition)
    | NotMatched
    | NumberFormatThrown

  /**
   The ranges `new ApiVersionRequestCondition(from, to)` holds: none when `from` is not
   positive, otherwise a single fresh range from `from` up to `to`, or up to
   `MAX_VERSION` when `to` is at most 1.
   */
  method VersionRangeSet(from: Int32, to: Int32) returns (versionRanges: set<VersionRange>)
    ensures from <= 0 ==> versionRanges == {}
    ensures from > 0 ==> |versionRanges| == 1
    ensures forall r :: r in versionRanges ==>
      r.from.version == from && r.to.version == (if to > 1 then to else MAX_VERSION)
    ensures fresh(versionRanges)
  {
    versionRanges := {};
    if from > 0 {
      var toVersion := if to > 1 then to else MAX_VERSION;
      var versionRange := new VersionRange(from, toVersion);
      versionRanges := versionRanges + {versionRange};
    }
  }

  /** The one element of a singleton set. */
  function Single(s: set<VersionRange>): (r: VersionRange)
    requires |s| == 1
    ensures s == {r}
  {
    SingletonShape(s);
    var r :| s == {r};
    r
  }

  lemma SingletonShape(s: set<VersionRange>)
    requires |s| == 1
    ensures exists r :: s == {r}
  {
    var r :| r in s;
    assert |s - {r}| == 0;
    assert s == {r};
  }

  class ApiVersionRequestCondition {
    /** Copied once with `Set.copyOf` and never changed. */
    const versions: set<VersionRange>

    /** `new ApiVersionRequestCondition(from, to)`. */
    constructor (from: Int32, to: Int32)
      ensures from <= 0 ==> versions == {}
      ensures from > 0 ==> |versions| == 1
      ensures forall r :: r in versions ==>
        r.from.version == from && r.to.version == (if to > 1 then to else MAX_VERSION)
      ensures fresh(versions)
    {
      var ranges := VersionRangeSet(from, to);
      versions := ranges;
    }

    /** `new ApiVersionRequestCondition(collection)`: keeps the very range objects given. */
    constructor FromCollection(ranges: set<VersionRange>)
      ensures versions == ranges
    {
      versions := ranges;
    }

    /** Some range of this condition includes version `v`. */
    predicate Admits(v: Int32) {
      exists r :: r in versions && r.Includes(v)
    }

    /**
     The outcome `getMatchingCondition` is specified by: a URI that does not fully match
     `/api/v<digits>/<rest>` gives `null`; digits beyond `int` make `parseInt` throw; otherwise
     `this` exactly when some range includes the version.
     */
    function MatchingOutcome(uri: string): MatchOutcome {
      match VersionDigits(uri)
      case None => NotMatched
      case Some(digits) =>
        match ParseInt(digits)
        case NumberFormatError => NumberFormatThrown
        case Parsed(version) => if Admits(version) then Matched(this) else NotMatched
    }

    /** `combine`: a new condition over the union of both range sets; neither input changes. */
    method Combine(other: ApiVersionRequestCondition) returns (c: ApiVersionRequestCondition)
      ensures fresh(c)
      ensures c.versions == versions + other.versions
    {
      var newVersions := versions;
      newVersions := newVersions + other.versions;
      c := new ApiVersionRequestCondition.FromCollection(newVersions);
    }

    /** `getMatchingCondition`, with the request replaced by its URI. */
    method GetMatchingCondition(uri: string) returns (res: MatchOutcome)
      ensures res == MatchingOutcome(uri)
      ensures res.Matched? ==> res.condition == this
    {
      var group := VersionDigits(uri);
      if group.Some? {
        var parsed := ParseInt(group.value);
        if parsed.NumberFormatError? {
          return NumberFormatThrown;
        }
        var version := parsed.value;
        var remaining := versions;
        while remaining != {}
          invariant remaining <= versions
          invariant forall r :: r in versions && r !in remaining ==> !r.Includes(version)
          decreases remaining
        {
          var versionRange :| versionRange in remaining;
          if versionRange.Includes(version) {
            return Matched(this);
          }
          remaining := remaining - {versionRange};
        }
      }
      return NotMatched;
    }

    /**
     `compareTo`: when both conditions hold exactly one range, the one whose range starts
     higher ranks first (negative); in every other case the two rank equal.
     */
    function CompareTo(other: ApiVersionRequestCondition): (r: int)
      ensures -1 <= r <= 1
      ensures r != 0 ==> |versions| == 1 && |other.versions| == 1
      ensures |versions| == 1 && |other.versions| == 1 ==>
        (r < 0 <==> Single(versions).from.version > Single(other.versions).from.version) &&
        (r > 0 <==> Single(versions).from.version < Single(other.versions).from.version)
    {
      if |versions| == 1 && |other.versions| == 1 then
        Single(versions).CompareTo(Single(other.versions)) * -1
      else
        0
    }
  }

  /** A condition without ranges never returns itself: it gives `null` unless `parseInt` throws. */
  lemma EmptyMatchesNothing(c: ApiVersionRequestCondition, uri: string)
    requires c.versions == {}
    ensures !c.MatchingOutcome(uri).Matched?
    ensures c.MatchingOutcome(uri) == NumberFormatThrown <==>
      VersionDigits(uri).Some? && DecimalValue(VersionDigits(uri).value) > INT_MAX
  {
  }

  /**
   The outcome in terms of the URI's shape: for `/api/v<digits>/<rest>` the condition
   matches iff the digits fit an `int` and some range includes their value; any other URI
   gives `null`.
   */
  lemma MatchingOutcomeOnShape(c: ApiVersionRequestCondition, digits: string, rest: string)
    requires |digits| > 0 && AllDigits(digits) && AnyLine(rest)
    ensures var outcome := c.MatchingOutcome(Prefix + digits + "/" + rest);
      && (outcome == Matched(c) <==>
            DecimalValue(digits) <= INT_MAX && exists r :: r in c.versions && r.Includes(DecimalValue(digits)))
      && (outcome == NumberFormatThrown <==> DecimalValue(digits) > INT_MAX)
  {
    VersionDigitsComplete(digits, rest);
  }

  lemma MatchingOutcomeOffShape(c: ApiVersionRequestCondition, uri: string)
    requires !FullMatch(uri)
    ensures c.MatchingOutcome(uri) == NotMatched
  {
    VersionDigitsSoundAndComplete(uri);
  }

  /**
   Union semantics of `combine`: the combined condition matches a URI iff either part
   does, and throws exactly when the parts do.
   */
  lemma CombineIsUnion(a: ApiVersionRequestCondition, b: ApiVersionRequestCondition,
                       c: ApiVersionRequestCondition, uri: string)
    requires c.versions == a.versions + b.versions
    ensures c.MatchingOutcome(uri).Matched? <==>
      a.MatchingOutcome(uri).Matched? || b.MatchingOutcome(uri).Matched?
    ensures c.MatchingOutcome(uri).NumberFormatThrown? <==> a.MatchingOutcome(uri).NumberFormatThrown?
    ensures c.MatchingOutcome(uri).NumberFormatThrown? <==> b.MatchingOutcome(uri).NumberFormatThrown?
  {
    var g := VersionDigits(uri);
    if g.Some? && ParseInt(g.value).Parsed? {
      var v := ParseInt(g.value).value;
      if c.Admits(v) {
        var r :| r in c.versions && r.Includes(v);
        assert r in a.versions ==> a.Admits(v);
        assert r in b.versions ==> b.Admits(v);
      }
      if a.Admits(v) {
        var r :| r in a.versions && r.Includes(v);
        assert r in c.versions;
      }
      if b.Admits(v) {
        var r :| r in b.versions && r.Includes(v);
        assert r in c.versions;
      }
    }
  }

  /** For single-range conditions, `compareTo` is the reversed order of the lower bounds. */
  lemma CompareToSingleRanges(c: ApiVersionRequestCondition, d: ApiVersionRequestCondition,
                              x: VersionRange, y: VersionRange)
    requires c.versions == {x} && d.versions == {y}
    ensures c.CompareTo(d) == -x.CompareTo(y)
    ensures c.CompareTo(d) < 0 <==> x.from.version > y.from.version
    ensures c.CompareTo(d) == 0 <==> x.from.version == y.from.version
  {
    assert Single(c.versions) == x;
    assert Single(d.versions) == y;
  }

  /** Swapping the operands of `compareTo` negates the result. */
  lemma ConditionCompareToAntisymmetric(c: ApiVersionRequestCondition, d: ApiVersionRequestCondition)
    ensures c.CompareTo(d) == -d.CompareTo(c)
  {
    if |c.versions| == 1 && |d.versions| == 1 {
      RangeCompareToAntisymmetric(Single(c.versions), Single(d.versions));
    }
  }

  /** A condition holding no range or several ranges ties with every condition. */
  lemma CompareToTiesUnlessSingle(c: ApiVersionRequestCondition, d: ApiVersionRequestCondition)
    requires |c.versions| != 1
    ensures c.CompareTo(d) == 0 && d.CompareTo(c) == 0
  {
  }

  /**
   Of `{[1, MAX_VERSION]}` and `{[2, MAX_VERSION]}`, the condition whose range starts at 2
   ranks first.
   */
  method HigherLowerBoundRanksFirst() returns (rank: int, reverse: int)
    ensures rank == -1 && reverse == 1
  {
    var fromTwo := new ApiVersionRequestCondition(2, MAX_VERSION);
    var fromOne := new ApiVersionRequestCondition(1, MAX_VERSION);
    CompareToSingleRanges(fromTwo, fromOne, Single(fromTwo.versions), Single(fromOne.versions));
    rank := fromTwo.CompareTo(fromOne);
    reverse := fromOne.CompareTo(fromTwo);
  }
}
