/** Version comparison and range checks of services/runtime/src/plugin-manager.ts. */
module PluginVersions {

  datatype Semver = Semver(major: nat, minor: nat, patch: nat)

  datatype RangeOperator = AtLeast | AtMost | Above | Below | Exactly | SameMinor | SameMajor

  /** One blank-separated clause of a range; anything the pattern does not match is malformed. */
  datatype Clause = Malformed | Bound(operator: RangeOperator, target: Semver)

  type Range = seq<Clause>

  function CompareVersions(left: Semver, right: Semver): int {
    if left.major != right.major then left.major - right.major
    else if left.minor != right.minor then left.minor - right.minor
    else left.patch - right.patch
  }

  predicate SatisfiesClause(version: Semver, clause: Clause) {
    match clause
    case Malformed => false
    case Bound(operator, target) =>
      var comparison := CompareVersions(version, target);
      match operator
      case AtLeast => comparison >= 0
      case AtMost => comparison <= 0
      case Above => comparison > 0
      case Below => comparison < 0
      case SameMinor => comparison >= 0 && version.major == target.major && version.minor == target.minor
      case SameMajor => comparison >= 0 && version.major == target.major
      case Exactly => comparison == 0
  }

  predicate SatisfiesRange(version: Semver, range: Range) {
    |range| > 0 && forall i :: 0 <= i < |range| ==> SatisfiesClause(version, range[i])
  }

  /** The precedence order of section 11 of Semantic Versioning 2.0.0, without pre-release tags. */
  ghost predicate Precedes(a: Semver, b: Semver) {
    || a.major < b.major
    || (a.major == b.major && a.minor < b.minor)
    || (a.major == b.major && a.minor == b.minor && a.patch < b.patch)
  }

  lemma ComparisonIsPrecedence(a: Semver, b: Semver)
    ensures CompareVersions(a, b) < 0 <==> Precedes(a, b)
    ensures CompareVersions(a, b) == 0 <==> a == b
    ensures CompareVersions(a, b) > 0 <==> Precedes(b, a)
  {
  }

  /** Ranges are convex: what lies between two accepted versions is accepted. */
  lemma RangesAreConvex(low: Semver, middle: Semver, high: Semver, range: Range)
    requires SatisfiesRange(low, range) && SatisfiesRange(high, range)
    requires CompareVersions(low, middle) <= 0 && CompareVersions(middle, high) <= 0
    ensures SatisfiesRange(middle, range)
  {
    forall i | 0 <= i < |range| ensures SatisfiesClause(middle, range[i]) {
      assert SatisfiesClause(low, range[i]) && SatisfiesClause(high, range[i]);
    }
  }

  /** A clause is an interval of versions in the order of precedence: ~ ends before the next minor version and ^
      before the next major one. */
  lemma ClausesAreIntervals(version: Semver, operator: RangeOperator, target: Semver)
    ensures SatisfiesClause(version, Bound(operator, target)) <==>
              match operator
              case AtLeast => !Precedes(version, target)
              case AtMost => !Precedes(target, version)
              case Above => Precedes(target, version)
              case Below => Precedes(version, target)
              case Exactly => version == target
              case SameMinor =>
                !Precedes(version, target) && Precedes(version, Semver(target.major, target.minor + 1, 0))
              case SameMajor => !Precedes(version, target) && Precedes(version, Semver(target.major + 1, 0, 0))
  {
    ComparisonIsPrecedence(version, target);
  }

  /** A range accepts what all its clauses accept; an empty one and a malformed clause accept nothing. */
  lemma RangesAreIntersections(version: Semver, left: Range, right: Range, clause: Clause)
    ensures left != [] && right != [] ==>
              (SatisfiesRange(version, left + right) <==>
                 SatisfiesRange(version, left) && SatisfiesRange(version, right))
    ensures SatisfiesRange(version, [clause]) <==> SatisfiesClause(version, clause)
    ensures !SatisfiesRange(version, []) && !SatisfiesClause(version, Malformed)
  {
    hide SatisfiesClause;
    var both := left + right;
    if left != [] && right != [] && SatisfiesRange(version, both) {
      forall i | 0 <= i < |left| ensures SatisfiesClause(version, left[i]) {
        assert both[i] == left[i];
      }
      forall i | 0 <= i < |right| ensures SatisfiesClause(version, right[i]) {
        assert both[|left| + i] == right[i];
      }
    }
    if SatisfiesRange(version, left) && SatisfiesRange(version, right) {
      forall i | 0 <= i < |both| ensures SatisfiesClause(version, both[i]) {
        assert both[i] == if i < |left| then left[i] else right[i - |left|];
      }
    }
    assert SatisfiesClause(version, [clause][0]) <==> SatisfiesClause(version, clause);
    MalformedRefuses(version);
  }

  lemma MalformedRefuses(version: Semver)
    ensures !SatisfiesClause(version, Malformed)
  {
  }
}
