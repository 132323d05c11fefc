/** The upgrades offered to a cluster: ClusterReconciler.reconcileClusterUpgrades. */
module ClusterUpgrades {
  import opened Wrappers
  import opened Semver

  /** The tolerant version parser is a library: any partial function from strings to versions. */
  type Parser = string -> Option<Version>

  datatype Condition = True(reason: string) | False(reason: string)

  /** What one reconciliation reads: whether the feature exists and the default Kubernetes release, if
      any, with the versions in its status. Either lookup can fail. */
  datatype Environment = Environment(feature: Result<bool, string>, release: Result<Option<seq<string>>, string>)

  /** The skew limit: two minors ahead. */
  function MaxVersionSkew(current: Version): Version {
    current.NextMinor().NextMinor()
  }

  predicate InWindow(current: Version, v: Version) {
    !current.GTE(v) && !v.GT(MaxVersionSkew(current))
  }

  predicate Offers(parse: Parser, current: Version, version: string) {
    match parse(version)
    case None => false
    case Some(v) => InWindow(current, v)
  }

  function Offered(parse: Parser, current: Version, versions: seq<string>): seq<string> {
    if versions == [] then []
    else
      var n := |versions| - 1;
      Offered(parse, current, versions[..n]) + if Offers(parse, current, versions[n]) then [versions[n]] else []
  }

  class Cluster {
    var version: string
    /** A nil slice is None. */
    var upgrades: Option<seq<string>>
    var upgradesReady: Option<Condition>

    constructor (version: string)
      ensures this.version == version && upgrades == None && upgradesReady == None
    {
      this.version := version;
      upgrades, upgradesReady := None, None;
    }

    /** Every early return leaves alone what the source leaves alone; only the last one replaces the
        offered upgrades. */
    method ReconcileUpgrades(parse: Parser, env: Environment) returns (err: Option<string>)
      modifies this
      ensures version == old(version)
      ensures version == "" ==> unchanged(this) && err == None
      ensures version != "" && env.feature.Err? ==> unchanged(this) && err == Some(env.feature.error)
      ensures version != "" && env.feature == Ok(false) ==>
        upgrades == None && upgradesReady == old(upgradesReady) && err == None
      ensures
        (&& version != "" && env.feature == Ok(true)
         && (parse(version).None? || env.release.Err? || env.release.value.None?)) ==>
        && upgrades == old(upgrades)
        && upgradesReady == Some(False(if parse(version).None? || env.release.Err? then "ClusterUpgradesReconcileFailed"
                                       else "WaitingForDefaultRelease"))
        && (err.Some? <==> parse(version).Some? && env.release.Err?)
      ensures
        (&& version != "" && env.feature == Ok(true)
         && parse(version).Some? && env.release.Ok? && env.release.value.Some?) ==>
        && upgrades == Some(Offered(parse, parse(version).value, env.release.value.value))
        && upgradesReady == Some(True("Ready"))
        && err == None
    {
      if version == "" {
        return None;
      }
      if env.feature.Err? {
        return Some(env.feature.error);
      }
      if !env.feature.value {
        upgrades := None;
        return None;
      }
      if parse(version).None? {
        upgradesReady := Some(False("ClusterUpgradesReconcileFailed"));
        return None;
      }
      var currentVersion := parse(version).value;
      if env.release.Err? {
        upgradesReady := Some(False("ClusterUpgradesReconcileFailed"));
        return Some(env.release.error);
      }
      if env.release.value.None? {
        upgradesReady := Some(False("WaitingForDefaultRelease"));
        return None;
      }
      var nextMinor := currentVersion.NextMinor();
      var maxVersionSkew := nextMinor.NextMinor();
      var offered, versions := [], env.release.value.value;
      for i := 0 to |versions|
        invariant offered == Offered(parse, currentVersion, versions[..i])
      {
        assert versions[..i + 1][..i] == versions[..i];
        var parsed := parse(versions[i]);
        if parsed.None? {
          continue;
        }
        var newVersion := parsed.value;
        if currentVersion.GTE(newVersion) {
          continue;
        }
        if newVersion.GT(maxVersionSkew) {
          continue;
        }
        offered := offered + [versions[i]];
      }
      assert versions[..|versions|] == versions;
      upgrades := Some(offered);
      upgradesReady := Some(True("Ready"));
      err := None;
    }
  }

  // ---------- what is offered ----------

  /** The window in precedence: strictly above the current version, not above the skew limit. */
  lemma WindowIsPrecedence(current: Version, v: Version)
    ensures InWindow(current, v) <==> Precedes(current, v) && !Precedes(MaxVersionSkew(current), v)
  {
    CompareIsPrecedence(current, v);
    CompareIsPrecedence(v, MaxVersionSkew(current));
  }

  /** The window in numbers. The non-strict test at its upper end lets in the first patch of the second
      next minor: with all its prereleases if the current version is a release, and otherwise only
      the prereleases up to the current one. */
  lemma WindowInNumbers(current: Version, v: Version)
    ensures InWindow(current, v) <==>
      && v.major == current.major
      && Precedes(current, v)
      && (|| v.minor <= current.minor + 1
          || (&& v.minor == current.minor + 2 && v.patch == 0
              && (current.pre == [] || (v.pre != [] && CompareIdentifiers(v.pre, current.pre) <= 0))))
  {
    CompareIsPrecedence(current, v);
  }

  /** The positions of the offered versions in the release's list. */
  function Positions(parse: Parser, current: Version, versions: seq<string>): seq<nat> {
    if versions == [] then []
    else
      var n := |versions| - 1;
      Positions(parse, current, versions[..n]) + if Offers(parse, current, versions[n]) then [n] else []
  }

  lemma OffersIsWindow(parse: Parser, current: Version, version: string)
    ensures Offers(parse, current, version) <==>
      && parse(version).Some?
      && Precedes(current, parse(version).value)
      && !Precedes(MaxVersionSkew(current), parse(version).value)
  {
    if parse(version).Some? {
      WindowIsPrecedence(current, parse(version).value);
    }
  }

  /** The offer is the subsequence of the release's versions that parse and lie in the window: all of
      them, each as often as it is listed, in the order of the list. */
  lemma {:induction false} OfferedIsSubsequence(parse: Parser, current: Version, versions: seq<string>)
    ensures var at, r := Positions(parse, current, versions), Offered(parse, current, versions);
      && |r| == |at|
      && (forall k :: 0 <= k < |at| ==> at[k] < |versions| && r[k] == versions[at[k]])
      && (forall j, k :: 0 <= j < k < |at| ==> at[j] < at[k])
      && (forall i :: 0 <= i < |versions| ==>
            (i in at <==>
               && parse(versions[i]).Some?
               && Precedes(current, parse(versions[i]).value)
               && !Precedes(MaxVersionSkew(current), parse(versions[i]).value)))
  {
    hide MaxVersionSkew, Precedes, Offers;
    if versions != [] {
      var n := |versions| - 1;
      OfferedIsSubsequence(parse, current, versions[..n]);
      OffersIsWindow(parse, current, versions[n]);
      var before, at := Positions(parse, current, versions[..n]), Positions(parse, current, versions);
      forall i | 0 <= i < |versions|
        ensures i in at <==>
          && parse(versions[i]).Some?
          && Precedes(current, parse(versions[i]).value)
          && !Precedes(MaxVersionSkew(current), parse(versions[i]).value)
      {
        if i < n {
          assert i in at <==> i in before;
          assert versions[..n][i] == versions[i];
        } else if Offers(parse, current, versions[n]) {
          assert at[|at| - 1] == n;
        }
      }
    }
  }

  lemma OfferedMember(parse: Parser, current: Version, versions: seq<string>, version: string)
    ensures version in Offered(parse, current, versions) <==>
      && version in versions
      && parse(version).Some?
      && Precedes(current, parse(version).value)
      && !Precedes(MaxVersionSkew(current), parse(version).value)
  {
    hide MaxVersionSkew, Precedes, Offered;
    OfferedIsSubsequence(parse, current, versions);
    var at, r := Positions(parse, current, versions), Offered(parse, current, versions);
    if && version in versions && parse(version).Some? && Precedes(current, parse(version).value)
       && !Precedes(MaxVersionSkew(current), parse(version).value)
    {
      var i :| 0 <= i < |versions| && versions[i] == version;
      var k :| 0 <= k < |at| && at[k] == i;
      assert r[k] == version;
    }
    if version in r {
      var k :| 0 <= k < |r| && r[k] == version;
      assert at[k] in at;
    }
  }

  // ---------- upgrading again and again ----------

  /** A cluster at `from` is offered `to`. */
  ghost predicate Move(parse: Parser, versions: seq<string>, from: string, to: string) {
    parse(from).Some? && to in Offered(parse, parse(from).value, versions)
  }

  /** A cluster that moves, step by step, to a version it is offered. */
  ghost predicate UpgradePath(parse: Parser, versions: seq<string>, path: seq<string>) {
    path != [] && forall k :: 0 <= k < |path| - 1 ==> Move(parse, versions, path[k], path[k + 1])
  }

  ghost predicate Climbs(parse: Parser, from: string, to: string) {
    parse(from).Some? && parse(to).Some? && Precedes(parse(from).value, parse(to).value)
  }

  /** What precedence can tell apart among the versions of a list that parse. */
  ghost function DistinctVersions(parse: Parser, versions: seq<string>): set<Version> {
    set s | s in versions && parse(s).Some? :: Key(parse(s).value)
  }

  lemma MoveClimbs(parse: Parser, versions: seq<string>, from: string, to: string)
    requires Move(parse, versions, from, to)
    ensures Climbs(parse, from, to) && to in versions
  {
    OfferedMember(parse, parse(from).value, versions, to);
  }

  lemma ClimbsTransitive(parse: Parser, a: string, b: string, c: string)
    requires Climbs(parse, a, b) && Climbs(parse, b, c)
    ensures Climbs(parse, a, c)
  {
    hide Compare, Precedes;
    CompareIsPrecedence(parse(a).value, parse(b).value);
    CompareIsPrecedence(parse(b).value, parse(c).value);
    CompareIsPrecedence(parse(a).value, parse(c).value);
    CompareTransitive(parse(a).value, parse(b).value, parse(c).value);
  }

  lemma ClimbsToAnother(parse: Parser, a: string, b: string)
    requires Climbs(parse, a, b)
    ensures Key(parse(a).value) != Key(parse(b).value)
  {
    CompareIsPrecedence(parse(a).value, parse(b).value);
  }

  lemma {:induction false} PathClimbs(parse: Parser, versions: seq<string>, path: seq<string>, i: nat, j: nat)
    requires UpgradePath(parse, versions, path)
    requires i < j < |path|
    ensures Climbs(parse, path[i], path[j]) && path[j] in versions
  {
    hide Move, Climbs;
    assert Move(parse, versions, path[j - 1], path[(j - 1) + 1]);
    MoveClimbs(parse, versions, path[j - 1], path[j]);
    if i < j - 1 {
      PathClimbs(parse, versions, path, i, j - 1);
      ClimbsTransitive(parse, path[i], path[j - 1], path[j]);
    }
  }

  /** The versions moved to on the first `n` moves. */
  ghost function Reached(parse: Parser, path: seq<string>, n: nat): set<Version>
    requires n < |path|
  {
    set i | 1 <= i <= n && parse(path[i]).Some? :: Key(parse(path[i]).value)
  }

  lemma {:induction false} ReachedSize(parse: Parser, versions: seq<string>, path: seq<string>, n: nat)
    requires UpgradePath(parse, versions, path) && n < |path|
    ensures |Reached(parse, path, n)| == n
  {
    hide UpgradePath, Precedes;
    if n > 0 {
      ReachedSize(parse, versions, path, n - 1);
      PathClimbs(parse, versions, path, n - 1, n);
      var last := Key(parse(path[n]).value);
      if last in Reached(parse, path, n - 1) {
        var i :| 1 <= i <= n - 1 && parse(path[i]).Some? && last == Key(parse(path[i]).value);
        PathClimbs(parse, versions, path, i, n);
        ClimbsToAnother(parse, path[i], path[n]);
      }
      assert Reached(parse, path, n) == Reached(parse, path, n - 1) + {last};
    } else {
      assert Reached(parse, path, n) == {};
    }
  }

  lemma {:induction false} SubsetSize<T>(a: set<T>, b: set<T>)
    requires a <= b
    ensures |a| <= |b|
  {
    if a != {} {
      var x :| x in a;
      SubsetSize(a - {x}, b - {x});
    }
  }

  /** With a fixed release, moving to offered versions climbs strictly in precedence and ends within
      as many moves as the release has versions of different precedence. */
  lemma UpgradesEnd(parse: Parser, versions: seq<string>, path: seq<string>)
    requires UpgradePath(parse, versions, path)
    ensures |path| - 1 <= |DistinctVersions(parse, versions)|
    ensures forall i, j :: 0 <= i < j < |path| ==> Climbs(parse, path[i], path[j])
  {
    var n: nat := |path| - 1;
    hide UpgradePath, Precedes;
    ReachedSize(parse, versions, path, n);
    forall i | 1 <= i <= n ensures path[i] in versions {
      PathClimbs(parse, versions, path, 0, i);
    }
    SubsetSize(Reached(parse, path, n), DistinctVersions(parse, versions));
    forall i, j | 0 <= i < j < |path| ensures Climbs(parse, path[i], path[j]) {
      PathClimbs(parse, versions, path, i, j);
    }
  }
}
