/**
 `VersionRange`: the closed interval `[from, to]` of versions. The class defines no
 `equals` or `hashCode`, so two ranges with the same bounds are still two objects: held in
 a set, they are told apart by identity, as references are in Dafny.
 */
module VersionRanges {
  import opened JavaLang
  import opened Versions

  class VersionRange {
    /** The bounds are assigned once, in the constructor, and never again. */
    const from: Version
    const to: Version

    /** No check that `from <= to`: an inverted range can be built. */
    constructor (from: Int32, to: Int32)
      ensures this.from == Version(from) && this.to == Version(to)
    {
      this.from := Version(from);
      this.to := Version(to);
    }

    /** Both bounds are inclusive. */
    function Includes(other: Int32): (r: bool)
      ensures r <==> from.version <= other <= to.version
    {
      var otherVersion := Version(other);
      var fromCondition := from.CompareTo(otherVersion);
      var toCondition := to.CompareTo(otherVersion);
      fromCondition <= 0 && toCondition >= 0
    }

    /** Ranges are ordered by their lower bound alone. */
    function CompareTo(other: VersionRange): (r: int)
      ensures -1 <= r <= 1
      ensures r < 0 <==> from.version < other.from.version
      ensures r == 0 <==> from.version == other.from.version
      ensures r > 0 <==> from.version > other.from.version
    {
      from.CompareTo(other.from)
    }
  }

  /** The end points of a non-inverted range belong to it. */
  lemma BoundsIncluded(r: VersionRange)
    requires r.from.version <= r.to.version
    ensures r.Includes(r.from.version) && r.Includes(r.to.version)
  {
  }

  /** An inverted range includes no version. */
  lemma InvertedRangeIsEmpty(r: VersionRange, v: Int32)
    requires r.from.version > r.to.version
    ensures !r.Includes(v)
  {
  }

  /** Ranges with the same lower bound compare equal whatever their upper bounds. */
  lemma CompareToIgnoresUpperBound(r: VersionRange, s: VersionRange, t: VersionRange)
    requires r.from == s.from
    ensures r.CompareTo(t) == s.CompareTo(t) && t.CompareTo(r) == t.CompareTo(s)
    ensures r.CompareTo(s) == 0
  {
  }

  /** The range order is the version order of the lower bounds, so it is antisymmetric. */
  lemma RangeCompareToAntisymmetric(r: VersionRange, s: VersionRange)
    ensures r.CompareTo(s) == r.from.CompareTo(s.from)
    ensures r.CompareTo(s) == -s.CompareTo(r)
  {
    CompareToAntisymmetric(r.from, s.from);
  }
}
