/**
 `Version`: an immutable wrapper around one `int`, ordered numerically, and the
 `MAX_VERSION` sentinel that stands for "no upper bound".
 */
module Versions {
  import opened JavaLang

  /** The open-ended upper bound used when only a lower bound is declared. */
  const MAX_VERSION: Int32 := 9999999

  /** The wrapped `int` is fixed at construction: a `final` field, so a value type here. */
  datatype Version = Version(version: Int32) {

    /**
     `Integer.compare(this.version, other.version)`: -1, 0 or 1 according as this
     version is below, equal to or above the other.
     */
    function CompareTo(other: Version): (r: int)
      ensures r == -1 <==> version < other.version
      ensures r == 0 <==> version == other.version
      ensures r == 1 <==> version > other.version
    {
      if version < other.version then -1
      else if version == other.version then 0
      else 1
    }
  }

  /** Swapping the operands negates the result. */
  lemma CompareToAntisymmetric(a: Version, b: Version)
    ensures a.CompareTo(b) == -b.CompareTo(a)
  {
  }

  /** "At most", read off `CompareTo`, is a total preorder. */
  lemma CompareToTotalPreorder(a: Version, b: Version, c: Version)
    ensures a.CompareTo(a) == 0
    ensures a.CompareTo(b) <= 0 || b.CompareTo(a) <= 0
    ensures a.CompareTo(b) <= 0 && b.CompareTo(c) <= 0 ==> a.CompareTo(c) <= 0
    ensures a.CompareTo(b) < 0 && b.CompareTo(c) < 0 ==> a.CompareTo(c) < 0
  {
  }

  /** `CompareTo` answers 0 exactly when the wrapped values are equal. */
  lemma CompareToZeroIsEquality(a: Version, b: Version)
    ensures a.CompareTo(b) == 0 <==> a == b
  {
  }
}
