/** Version precedence: the comparison that the cluster reconciler relies on, and section 11 of
    Semantic Versioning 2.0.0, which it has to agree with. */
module Semver {
  import opened Strings

  datatype Identifier = Numeric(n: nat) | Alphanumeric(s: string)

  datatype Version = Version(major: nat, minor: nat, patch: nat, pre: seq<Identifier>, build: seq<string>) {
    /** IncrementMinor: bumps the minor, zeroes the patch and keeps the rest. */
    function NextMinor(): Version {
      this.(minor := minor + 1, patch := 0)
    }

    predicate GT(o: Version) {
      Compare(this, o) > 0
    }

    predicate GTE(o: Version) {
      Compare(this, o) >= 0
    }
  }

  // ---------- the comparison ----------

  function CompareInt(a: int, b: int): int {
    if a < b then -1 else if a == b then 0 else 1
  }

  function CompareIdentifier(a: Identifier, b: Identifier): int {
    match (a, b)
    case (Numeric(_), Alphanumeric(_)) => -1
    case (Alphanumeric(_), Numeric(_)) => 1
    case (Numeric(m), Numeric(n)) => CompareInt(m, n)
    case (Alphanumeric(s), Alphanumeric(t)) => CompareString(s, t)
  }

  /** Field by field until one differs; then the longer list is the greater. */
  function CompareIdentifiers(a: seq<Identifier>, b: seq<Identifier>): int {
    if a == [] && b == [] then 0
    else if a == [] then -1
    else if b == [] then 1
    else
      var c := CompareIdentifier(a[0], b[0]);
      if c != 0 then c else CompareIdentifiers(a[1..], b[1..])
  }

  function ComparePre(a: seq<Identifier>, b: seq<Identifier>): int {
    if a == [] && b == [] then 0
    else if a == [] then 1
    else if b == [] then -1
    else CompareIdentifiers(a, b)
  }

  function Compare(v: Version, o: Version): int {
    if v.major != o.major then CompareInt(v.major, o.major)
    else if v.minor != o.minor then CompareInt(v.minor, o.minor)
    else if v.patch != o.patch then CompareInt(v.patch, o.patch)
    else ComparePre(v.pre, o.pre)
  }

  // ---------- section 11 ----------

  /** Two lists agree up to `i`, where the first one ends or has the lower element. */
  ghost predicate LowerAt<T(!new)>(a: seq<T>, b: seq<T>, lower: (T, T) -> bool, i: nat) {
    && i <= |a| && i < |b|
    && a[..i] == b[..i]
    && (i == |a| || lower(a[i], b[i]))
  }

  ghost predicate LowerChar(a: char, b: char) {
    a < b
  }

  ghost predicate LowerIdentifier(a: Identifier, b: Identifier) {
    || (a.Numeric? && b.Alphanumeric?)
    || (a.Numeric? && b.Numeric? && a.n < b.n)
    || (a.Alphanumeric? && b.Alphanumeric? && exists i: nat :: LowerAt(a.s, b.s, LowerChar, i))
  }

  ghost predicate LowerPre(a: seq<Identifier>, b: seq<Identifier>) {
    || (a != [] && b == [])
    || (a != [] && b != [] && exists i: nat :: LowerAt(a, b, LowerIdentifier, i))
  }

  /** `a` precedes `b` in the sense of section 11. */
  ghost predicate Precedes(a: Version, b: Version) {
    || a.major < b.major
    || (a.major == b.major && a.minor < b.minor)
    || (a.major == b.major && a.minor == b.minor && a.patch < b.patch)
    || (a.major == b.major && a.minor == b.minor && a.patch == b.patch && LowerPre(a.pre, b.pre))
  }

  /** What precedence can tell apart: everything but the build metadata. */
  function Key(v: Version): Version {
    v.(build := [])
  }

  // ---------- they agree ----------

  lemma LowerAtShifts<T(!new)>(a: seq<T>, b: seq<T>, lower: (T, T) -> bool, i: nat)
    requires a != [] && b != [] && a[0] == b[0]
    ensures LowerAt(a, b, lower, i + 1) <==> LowerAt(a[1..], b[1..], lower, i)
  {
    if i < |a| && i + 1 < |b| {
      assert a[..i + 1] == [a[0]] + a[1..][..i] && b[..i + 1] == [b[0]] + b[1..][..i];
      assert a[..i + 1][1..] == a[1..][..i] && b[..i + 1][1..] == b[1..][..i];
    }
  }

  lemma LowerAtTail<T(!new)>(a: seq<T>, b: seq<T>, lower: (T, T) -> bool)
    requires a != [] && b != [] && a[0] == b[0] && !lower(a[0], b[0])
    ensures (exists i: nat :: LowerAt(a, b, lower, i)) <==> (exists i: nat :: LowerAt(a[1..], b[1..], lower, i))
  {
    if i: nat :| LowerAt(a, b, lower, i) {
      LowerAtShifts(a, b, lower, i - 1);
    }
    if i: nat :| LowerAt(a[1..], b[1..], lower, i) {
      LowerAtShifts(a, b, lower, i);
    }
  }

  /** Two lists that differ in their first element, or of which one is empty. */
  lemma LowerAtHead<T(!new)>(a: seq<T>, b: seq<T>, lower: (T, T) -> bool)
    requires a == [] || b == [] || a[0] != b[0]
    ensures (exists i: nat :: LowerAt(a, b, lower, i))
       <==> b != [] && (a == [] || lower(a[0], b[0]))
  {
    if b != [] && (a == [] || lower(a[0], b[0])) {
      assert LowerAt(a, b, lower, 0);
    }
    if i: nat :| i > 0 && LowerAt(a, b, lower, i) {
      assert a[0] == a[..i][0];
    }
  }

  lemma {:induction false} StringsAgree(a: string, b: string)
    ensures CompareString(a, b) < 0 <==> exists i: nat :: LowerAt(a, b, LowerChar, i)
    ensures CompareString(a, b) == 0 <==> a == b
    ensures CompareString(a, b) == -CompareString(b, a)
  {
    if a == [] || b == [] || a[0] != b[0] {
      LowerAtHead(a, b, LowerChar);
    } else {
      StringsAgree(a[1..], b[1..]);
      LowerAtTail(a, b, LowerChar);
      assert a == [a[0]] + a[1..] && b == [b[0]] + b[1..];
    }
  }

  lemma IdentifierAgrees(a: Identifier, b: Identifier)
    ensures CompareIdentifier(a, b) < 0 <==> LowerIdentifier(a, b)
    ensures CompareIdentifier(a, b) == 0 <==> a == b
    ensures CompareIdentifier(a, b) == -CompareIdentifier(b, a)
  {
    if a.Alphanumeric? && b.Alphanumeric? {
      StringsAgree(a.s, b.s);
    }
  }

  lemma {:induction false} IdentifiersAgree(a: seq<Identifier>, b: seq<Identifier>)
    ensures CompareIdentifiers(a, b) < 0 <==> exists i: nat :: LowerAt(a, b, LowerIdentifier, i)
    ensures CompareIdentifiers(a, b) == 0 <==> a == b
    ensures CompareIdentifiers(a, b) == -CompareIdentifiers(b, a)
  {
    if a != [] && b != [] {
      IdentifierAgrees(a[0], b[0]);
    }
    if a == [] || b == [] || a[0] != b[0] {
      LowerAtHead(a, b, LowerIdentifier);
    } else {
      IdentifiersAgree(a[1..], b[1..]);
      LowerAtTail(a, b, LowerIdentifier);
      assert a == [a[0]] + a[1..] && b == [b[0]] + b[1..];
    }
  }

  /** The comparison is the precedence of section 11; ties are exactly the pairs that differ in build
      metadata only. */
  lemma CompareIsPrecedence(a: Version, b: Version)
    ensures Compare(a, b) < 0 <==> Precedes(a, b)
    ensures Compare(a, b) > 0 <==> Precedes(b, a)
    ensures Compare(a, b) == 0 <==> Key(a) == Key(b)
    ensures Compare(a, b) == -Compare(b, a)
  {
    IdentifiersAgree(a.pre, b.pre);
    IdentifiersAgree(b.pre, a.pre);
  }

  // ---------- a total preorder ----------

  lemma {:induction false} StringsTransitive(a: string, b: string, c: string)
    requires CompareString(a, b) <= 0 && CompareString(b, c) <= 0
    ensures CompareString(a, c) <= 0
    ensures CompareString(a, b) < 0 || CompareString(b, c) < 0 ==> CompareString(a, c) < 0
  {
    if a != [] && b != [] && c != [] && a[0] == b[0] == c[0] {
      StringsTransitive(a[1..], b[1..], c[1..]);
    }
  }

  lemma IdentifierTransitive(a: Identifier, b: Identifier, c: Identifier)
    requires CompareIdentifier(a, b) <= 0 && CompareIdentifier(b, c) <= 0
    ensures CompareIdentifier(a, c) <= 0
    ensures CompareIdentifier(a, b) < 0 || CompareIdentifier(b, c) < 0 ==> CompareIdentifier(a, c) < 0
  {
    if a.Alphanumeric? && b.Alphanumeric? && c.Alphanumeric? {
      StringsTransitive(a.s, b.s, c.s);
    }
  }

  lemma {:induction false} IdentifiersTransitive(a: seq<Identifier>, b: seq<Identifier>, c: seq<Identifier>)
    requires CompareIdentifiers(a, b) <= 0 && CompareIdentifiers(b, c) <= 0
    ensures CompareIdentifiers(a, c) <= 0
    ensures CompareIdentifiers(a, b) < 0 || CompareIdentifiers(b, c) < 0 ==> CompareIdentifiers(a, c) < 0
  {
    if a != [] && b != [] && c != [] {
      IdentifierTransitive(a[0], b[0], c[0]);
      if CompareIdentifier(a[0], b[0]) == 0 && CompareIdentifier(b[0], c[0]) == 0 {
        IdentifiersTransitive(a[1..], b[1..], c[1..]);
        IdentifierAgrees(a[0], b[0]);
      }
    }
  }

  lemma CompareTransitive(a: Version, b: Version, c: Version)
    requires Compare(a, b) <= 0 && Compare(b, c) <= 0
    ensures Compare(a, c) <= 0
    ensures Compare(a, b) < 0 || Compare(b, c) < 0 ==> Compare(a, c) < 0
  {
    if a.pre != [] && b.pre != [] && c.pre != [] && a.major == b.major == c.major && a.minor == b.minor == c.minor
      && a.patch == b.patch == c.patch
    {
      IdentifiersTransitive(a.pre, b.pre, c.pre);
    }
  }
}
