/** Version precedence (section 11 of SemVer 2.0.0, versions without build
    metadata) and the resolution of constraints against published versions. */
module Versions {
  import opened Ordering
  import opened Registry

  datatype Identifier = Numeric(n: nat) | Alphanumeric(text: string)

  datatype Version = Version(major: nat, minor: nat, patch: nat, prerelease: seq<Identifier>)

  predicate IdentifierLower(a: Identifier, b: Identifier) {
    match (a, b)
    case (Numeric(m), Numeric(n)) => m < n
    case (Numeric(_), Alphanumeric(_)) => true
    case (Alphanumeric(_), Numeric(_)) => false
    case (Alphanumeric(s), Alphanumeric(t)) => StringLess(s, t)
  }

  /** Field by field; a longer list is higher when all earlier fields are equal. */
  predicate FieldsLower(p: seq<Identifier>, q: seq<Identifier>) {
    q != [] && (p == [] || IdentifierLower(p[0], q[0]) || (p[0] == q[0] && FieldsLower(p[1..], q[1..])))
  }

  /** A version with a prerelease part is lower than the same version without. */
  predicate PrereleaseLower(p: seq<Identifier>, q: seq<Identifier>) {
    p != [] && (q == [] || FieldsLower(p, q))
  }

  predicate Lower(a: Version, b: Version) {
    if a.major != b.major then a.major < b.major
    else if a.minor != b.minor then a.minor < b.minor
    else if a.patch != b.patch then a.patch < b.patch
    else PrereleaseLower(a.prerelease, b.prerelease)
  }

  lemma {:induction false} FieldsLowerAsymmetric(p: seq<Identifier>, q: seq<Identifier>)
    requires FieldsLower(p, q)
    ensures !FieldsLower(q, p)
    decreases |p|
  {
    StringLessIsStrictOrder();
    if p != [] && p[0] == q[0] && FieldsLower(p[1..], q[1..]) {
      FieldsLowerAsymmetric(p[1..], q[1..]);
    }
  }

  lemma {:induction false} FieldsLowerTransitive(p: seq<Identifier>, q: seq<Identifier>, r: seq<Identifier>)
    requires FieldsLower(p, q) && FieldsLower(q, r)
    ensures FieldsLower(p, r)
    decreases |p|
  {
    StringLessIsStrictOrder();
    if p != [] && p[0] == q[0] == r[0] && FieldsLower(p[1..], q[1..]) && FieldsLower(q[1..], r[1..]) {
      FieldsLowerTransitive(p[1..], q[1..], r[1..]);
    }
  }

  lemma {:induction false} FieldsLowerConnected(p: seq<Identifier>, q: seq<Identifier>)
    ensures p == q || FieldsLower(p, q) || FieldsLower(q, p)
    decreases |p|
  {
    if p != [] && q != [] {
      if p[0] == q[0] {
        FieldsLowerConnected(p[1..], q[1..]);
        assert p == [p[0]] + p[1..] && q == [q[0]] + q[1..];
      } else if p[0].Alphanumeric? && q[0].Alphanumeric? {
        StringLessConnected(p[0].text, q[0].text);
      }
    }
  }

  /** Precedence is a strict total order. */
  lemma PrecedenceIsTotalOrder()
    ensures StrictOrder(Lower)
    ensures forall a, b :: a == b || Lower(a, b) || Lower(b, a)
  {
    forall a, b | Lower(a, b)
      ensures !Lower(b, a)
    {
      if FieldsLower(a.prerelease, b.prerelease) {
        FieldsLowerAsymmetric(a.prerelease, b.prerelease);
      }
    }
    forall a, b, c | Lower(a, b) && Lower(b, c)
      ensures Lower(a, c)
    {
      if FieldsLower(a.prerelease, b.prerelease) && FieldsLower(b.prerelease, c.prerelease) {
        FieldsLowerTransitive(a.prerelease, b.prerelease, c.prerelease);
      }
    }
    forall a, b
      ensures a == b || Lower(a, b) || Lower(b, a)
    {
      FieldsLowerConnected(a.prerelease, b.prerelease);
    }
  }

  // Precedence, clause by clause.

  /** Major, minor and patch are compared in that order, whatever follows them. */
  lemma NumbersDecide(a: Version, b: Version)
    ensures a.major < b.major ==> Lower(a, b) && !Lower(b, a)
    ensures a.major == b.major && a.minor < b.minor ==> Lower(a, b) && !Lower(b, a)
    ensures a.major == b.major && a.minor == b.minor && a.patch < b.patch ==> Lower(a, b) && !Lower(b, a)
  {
  }

  /** Numbers by value, numbers below texts, texts by the code points where they first differ. */
  ghost predicate Precedes(x: Identifier, y: Identifier) {
    || (x.Numeric? && y.Numeric? && x.n < y.n)
    || (x.Numeric? && y.Alphanumeric?)
    || (x.Alphanumeric? && y.Alphanumeric? &&
        exists k :: AlikeUpTo(x.text, y.text, k) && k < |y.text| && (k == |x.text| || (x.text[k] as int) < y.text[k] as int))
  }

  lemma IdentifierLowerIff(x: Identifier, y: Identifier)
    ensures IdentifierLower(x, y) <==> Precedes(x, y)
  {
    if x.Alphanumeric? && y.Alphanumeric? {
      StringLessIff(x.text, y.text);
    }
  }

  lemma {:induction false} FieldsLowerIff(p: seq<Identifier>, q: seq<Identifier>)
    ensures FieldsLower(p, q) <==> exists k :: AlikeUpTo(p, q, k) && k < |q| && (k == |p| || Precedes(p[k], q[k]))
    decreases |p|
  {
    hide Precedes, IdentifierLower;
    if p == [] || q == [] || p[0] != q[0] {
      if q != [] {
        assert AlikeUpTo(p, q, 0);
      }
      if p != [] && q != [] {
        IdentifierLowerIff(p[0], q[0]);
        forall k
          ensures AlikeUpTo(p, q, k) ==> k == 0
        {
          AlikeTail(p, q, k);
        }
      }
    } else {
      FieldsLowerIff(p[1..], q[1..]);
      NotBelowItself(p[0]);
      forall k
        ensures AlikeUpTo(p, q, k) <==> k == 0 || AlikeUpTo(p[1..], q[1..], k - 1)
      {
        AlikeTail(p, q, k);
      }
      if k :| AlikeUpTo(p[1..], q[1..], k) && k < |q[1..]| && (k == |p[1..]| || Precedes(p[1..][k], q[1..][k])) {
        assert AlikeUpTo(p, q, k + 1);
      }
      if k :| AlikeUpTo(p, q, k) && k < |q| && (k == |p| || Precedes(p[k], q[k])) {
        assert k > 0 && AlikeUpTo(p[1..], q[1..], k - 1);
      }
    }
  }

  lemma NotBelowItself(x: Identifier)
    ensures !IdentifierLower(x, x) && !Precedes(x, x)
  {
    IdentifierLowerIff(x, x);
    StringLessIsStrictOrder();
  }

  /** Between equal numbers a release is above its prereleases, and of two prereleases
      the first differing identifier decides; when all are alike the longer is higher. */
  lemma PrereleaseDecides(a: Version, b: Version)
    requires a.major == b.major && a.minor == b.minor && a.patch == b.patch
    ensures Lower(a, b) <==>
              && a.prerelease != []
              && (b.prerelease == []
                  || exists k :: AlikeUpTo(a.prerelease, b.prerelease, k) && k < |b.prerelease|
                                 && (k == |a.prerelease| || Precedes(a.prerelease[k], b.prerelease[k])))
  {
    FieldsLowerIff(a.prerelease, b.prerelease);
  }

  /** A version that ranks below every release of the same numbers, and so on up. */
  lemma PrereleaseRanksBelowRelease(v: Version)
    requires v.prerelease != []
    ensures Lower(v, v.(prerelease := [])) && !Lower(v.(prerelease := []), v)
  {
  }

  predicate IsMax(pool: set<Version>, m: Version) {
    m in pool && forall v :: v in pool && v != m ==> Lower(v, m)
  }

  lemma {:induction false} MaxExists(pool: set<Version>)
    requires pool != {}
    ensures exists m :: IsMax(pool, m)
    decreases pool
  {
    PrecedenceIsTotalOrder();
    var v :| v in pool;
    if pool == {v} {
      assert IsMax(pool, v);
    } else {
      var rest := pool - {v};
      MaxExists(rest);
      var m :| IsMax(rest, m);
      assert IsMax(pool, if Lower(v, m) then m else v);
    }
  }

  lemma MaxIsUnique(pool: set<Version>, m: Version, n: Version)
    requires IsMax(pool, m) && IsMax(pool, n)
    ensures m == n
  {
    PrecedenceIsTotalOrder();
  }

  function Max(pool: set<Version>): (m: Version)
    requires pool != {}
    ensures IsMax(pool, m)
  {
    MaxExists(pool);
    PrecedenceIsTotalOrder();
    var m :| IsMax(pool, m);
    m
  }

  /** The version library: parsing, printing and range matching of strings.
      A range that does not parse has no matcher. */
  datatype Library = Library(
    parse: string -> Version,
    text: Version -> string,
    range: string -> Option<Version -> bool>)

  /** Printing a parsed version gives the string back, as it does for every
      version that passed manifest validation. */
  ghost predicate Canonical(lib: Library, versions: set<string>) {
    forall v :: v in versions ==> lib.text(lib.parse(v)) == v
  }

  datatype Resolution = Resolved(version: Option<string>) | BadConstraint

  const LATEST := "latest"
  const STABLE := "stable"

  function Releases(versions: set<Version>): set<Version> {
    set v | v in versions && v.prerelease == []
  }

  /** The versions a constraint chooses from; `None` when it does not parse. */
  function Pool(lib: Library, versions: set<string>, constraint: Option<string>): Option<set<Version>> {
    var parsed := set v | v in versions :: lib.parse(v);
    if constraint == None || constraint == Some(STABLE) then
      Some(if Releases(parsed) != {} then Releases(parsed) else parsed)
    else if constraint == Some(LATEST) then Some(parsed)
    else
      match lib.range(constraint.value)
      case None => None
      case Some(matches) => Some(set v | v in parsed && matches(v))
  }

  function ResolveVersion(lib: Library, versions: set<string>, constraint: Option<string>): Resolution {
    if versions == {} then Resolved(None)
    else
      match Pool(lib, versions, constraint)
      case None => BadConstraint
      case Some(pool) => Resolved(if pool == {} then None else Some(lib.text(Max(pool))))
  }

  /** `v` is the stored version that resolution must answer. */
  ghost predicate Answers(lib: Library, versions: set<string>, constraint: Option<string>, v: string) {
    && v in versions
    && Pool(lib, versions, constraint).Some?
    && IsMax(Pool(lib, versions, constraint).value, lib.parse(v))
  }

  lemma ResolvedIsStored(lib: Library, versions: set<string>, constraint: Option<string>)
    requires Canonical(lib, versions)
    ensures match ResolveVersion(lib, versions, constraint)
            case Resolved(Some(v)) => Answers(lib, versions, constraint, v)
            case Resolved(None) => versions == {} || Pool(lib, versions, constraint) == Some({})
            case BadConstraint => versions != {} && Pool(lib, versions, constraint) == None
  {
    var p := Pool(lib, versions, constraint);
    if versions != {} && p.Some? && p.value != {} {
      var m := Max(p.value);
      var v :| v in versions && lib.parse(v) == m;
      assert lib.text(m) == v;
    }
  }

  /** A version that may be answered: any for `latest`, a release for `stable`
      unless there is none at all, and otherwise what the range matches. */
  predicate Eligible(lib: Library, versions: set<string>, constraint: Option<string>, v: string) {
    v in versions &&
    if constraint == None || constraint == Some(STABLE) then
      lib.parse(v).prerelease == [] || forall w :: w in versions ==> lib.parse(w).prerelease != []
    else if constraint == Some(LATEST) then true
    else lib.range(constraint.value).Some? && lib.range(constraint.value).value(lib.parse(v))
  }

  /** Resolution said without pools: the answer is eligible and no eligible version
      ranks above it; there is none iff nothing is eligible. */
  lemma ResolutionIsHighestEligible(lib: Library, versions: set<string>, constraint: Option<string>)
    requires Canonical(lib, versions)
    ensures match ResolveVersion(lib, versions, constraint)
            case Resolved(Some(v)) =>
              && Eligible(lib, versions, constraint, v)
              && forall w :: Eligible(lib, versions, constraint, w) ==> !Lower(lib.parse(v), lib.parse(w))
            case Resolved(None) => forall w :: !Eligible(lib, versions, constraint, w)
            case BadConstraint =>
              versions != {} && constraint.Some? && constraint.value !in {LATEST, STABLE} && lib.range(constraint.value).None?
  {
    hide Lower;
    PrecedenceIsTotalOrder();
    ResolvedIsStored(lib, versions, constraint);
    if versions != {} && Pool(lib, versions, constraint).Some? {
      forall w
        ensures Eligible(lib, versions, constraint, w) <==> w in versions && lib.parse(w) in Pool(lib, versions, constraint).value
      {
        EligibleIsPooled(lib, versions, constraint, w);
      }
    }
  }

  lemma EligibleIsPooled(lib: Library, versions: set<string>, constraint: Option<string>, v: string)
    requires Pool(lib, versions, constraint).Some?
    ensures Eligible(lib, versions, constraint, v) <==> v in versions && lib.parse(v) in Pool(lib, versions, constraint).value
  {
    var parsed := set w | w in versions :: lib.parse(w);
    assert Releases(parsed) == {} <==> forall w :: w in versions ==> lib.parse(w).prerelease != [] by {
      if w :| w in versions && lib.parse(w).prerelease == [] {
        assert lib.parse(w) in Releases(parsed);
      }
    }
  }

  /** The answer is determined by what it means. */
  lemma AnswerIsUnique(lib: Library, versions: set<string>, constraint: Option<string>, v: string)
    requires Canonical(lib, versions) && Answers(lib, versions, constraint, v)
    ensures ResolveVersion(lib, versions, constraint) == Resolved(Some(v))
  {
    var pool := Pool(lib, versions, constraint).value;
    MaxIsUnique(pool, Max(pool), lib.parse(v));
  }
}
