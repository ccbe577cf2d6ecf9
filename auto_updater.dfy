/** The update checker: comparing the local version string with the one published in the repository,
    and the decision `check_for_updates` reports. Fetching the remote version is a parameter here. */
module AutoUpdate {
  import opened Util
  import opened Strings

  // ---------------------------------------------------------------- version components

  /** `[int(x) for x in v.split('.')]`; None when some component is not an integer (the ValueError
      that `compare_versions` catches). */
  function Components(v: string): (r: Option<seq<int>>)
    ensures r.Some? ==> |r.value| == |Split(v, '.')|
  {
    IntParts(Split(v, '.'))
  }

  function IntParts(cs: seq<string>): (r: Option<seq<int>>)
    ensures r.Some? <==> forall k :: 0 <= k < |cs| ==> ParseInt(cs[k]).Some?
    ensures r.Some? ==> |r.value| == |cs| && forall k :: 0 <= k < |cs| ==> ParseInt(cs[k]) == Some(r.value[k])
    decreases |cs|
  {
    if cs == [] then Some([])
    else match (ParseInt(cs[0]), IntParts(cs[1..]))
      case (Some(n), Some(ns)) => Some([n] + ns)
      case _ => None
  }

  /** The list with zeros appended until it has three components; a longer one is left as it is. */
  function Padded(p: seq<int>): (r: seq<int>)
    ensures |r| == (if |p| >= 3 then |p| else 3)
    ensures r[..|p|] == p && forall k :: |p| <= k < |r| ==> r[k] == 0
  {
    if |p| >= 3 then p else p + seq(3 - |p|, _ => 0)
  }

  /** `b` is later than `a` in the lexicographic order of their first three components. */
  predicate Later(a: seq<int>, b: seq<int>)
    requires |a| >= 3 && |b| >= 3
  {
    b[0] > a[0] || (b[0] == a[0] && (b[1] > a[1] || (b[1] == a[1] && b[2] > a[2])))
  }

  /** What `compare_versions(v1, v2)` answers: both versions consist of integer components, and `v2`'s
      first three, padded with zeros, are later than `v1`'s. */
  predicate IsNewer(v1: string, v2: string)
  {
    match (Components(v1), Components(v2))
      case (Some(p1), Some(p2)) => Later(Padded(p1), Padded(p2))
      case _ => false
  }

  // ---------------------------------------------------------------- compare_versions

  /** `while len(parts) < 3: parts.append(0)`. */
  method PadToThree(p: seq<int>) returns (parts: seq<int>)
    ensures parts == Padded(p)
  {
    parts := p;
    while |parts| < 3
      invariant |p| <= |parts| <= (if |p| >= 3 then |p| else 3)
      invariant parts[..|p|] == p && forall k :: |p| <= k < |parts| ==> parts[k] == 0
      decreases 3 - |parts|
    {
      parts := parts + [0];
    }
  }

  /** The `for i in range(3)` loop of `compare_versions`: the first differing component decides. */
  method FirstThreeLater(parts1: seq<int>, parts2: seq<int>) returns (later: bool)
    requires |parts1| >= 3 && |parts2| >= 3
    ensures later == Later(parts1, parts2)
  {
    for i := 0 to 3
      invariant forall k :: 0 <= k < i ==> parts1[k] == parts2[k]
    {
      if parts2[i] > parts1[i] {
        return true;
      } else if parts2[i] < parts1[i] {
        return false;
      }
    }
    return false;
  }

  /** `compare_versions`: True means `v2` is the newer version; a component that is not an integer
      gives False. */
  method CompareVersions(v1: string, v2: string) returns (newer: bool)
    ensures newer == IsNewer(v1, v2)
  {
    var c1, c2 := Components(v1), Components(v2);
    if c1.None? || c2.None? {
      return false;
    }
    var parts1 := PadToThree(c1.value);
    var parts2 := PadToThree(c2.value);
    newer := FirstThreeLater(parts1, parts2);
  }

  // ---------------------------------------------------------------- properties of the order

  /** A version is never newer than itself. */
  lemma NotNewerThanItself(v: string)
    ensures !IsNewer(v, v)
  {
  }

  /** Of two versions, at most one is newer than the other. */
  lemma NewerAsymmetric(v1: string, v2: string)
    ensures !(IsNewer(v1, v2) && IsNewer(v2, v1))
  {
  }

  /** Newer than newer is newer. */
  lemma NewerTransitive(v1: string, v2: string, v3: string)
    requires IsNewer(v1, v2) && IsNewer(v2, v3)
    ensures IsNewer(v1, v3)
  {
  }

  /** Two well-formed versions are either equal on their first three padded components, or exactly one
      of them is newer. */
  lemma NewerTrichotomy(v1: string, v2: string)
    requires Components(v1).Some? && Components(v2).Some?
    ensures var a, b := Padded(Components(v1).value), Padded(Components(v2).value);
      IsNewer(v1, v2) || IsNewer(v2, v1) || (a[0] == b[0] && a[1] == b[1] && a[2] == b[2])
  {
  }

  /** A component that is not an integer makes either comparison False. */
  lemma MalformedNeverNewer(v: string, w: string, k: nat)
    requires k < |Split(v, '.')| && ParseInt(Split(v, '.')[k]).None?
    ensures !IsNewer(v, w) && !IsNewer(w, v)
  {
  }

  /** Whether a version is newer depends only on the first three padded components of the two. */
  lemma NewerByFirstThree(v1: string, v2: string, w1: string, w2: string)
    requires Components(v1).Some? && Components(v2).Some? && Components(w1).Some? && Components(w2).Some?
    requires Padded(Components(v1).value)[..3] == Padded(Components(w1).value)[..3]
    requires Padded(Components(v2).value)[..3] == Padded(Components(w2).value)[..3]
    ensures IsNewer(v1, v2) == IsNewer(w1, w2)
  {
    var a, b := Padded(Components(v1).value), Padded(Components(w1).value);
    var c, d := Padded(Components(v2).value), Padded(Components(w2).value);
    assert a[0] == a[..3][0] && a[1] == a[..3][1] && a[2] == a[..3][2];
    assert b[0] == b[..3][0] && b[1] == b[..3][1] && b[2] == b[..3][2];
    assert c[0] == c[..3][0] && c[1] == c[..3][1] && c[2] == c[..3][2];
    assert d[0] == d[..3][0] && d[1] == d[..3][1] && d[2] == d[..3][2];
  }

  /** Appending the integer component `c` to a version: `Components` grows by one. */
  lemma ComponentsSnoc(v: string, c: string)
    requires '.' !in c && Components(v).Some? && ParseInt(c).Some?
    ensures Components(v + "." + c) == Some(Components(v).value + [ParseInt(c).value])
  {
    SplitAppend(v, c, '.');
    SplitWithoutSep(c, '.');
    assert v + "." + c == v + ['.'] + c;
    var cs := Split(v, '.') + [c];
    assert Components(v + "." + c) == IntParts(cs);
    var r := IntParts(cs);
    assert r.Some?;
    assert r.value == Components(v).value + [ParseInt(c).value];
  }

  /** A component after the third is ignored: it changes the answer in neither direction. */
  lemma FourthComponentIgnored(v: string, c: string, w: string)
    requires '.' !in c && Components(v).Some? && |Components(v).value| >= 3 && ParseInt(c).Some?
    ensures IsNewer(v + "." + c, w) == IsNewer(v, w) && IsNewer(w, v + "." + c) == IsNewer(w, v)
  {
    ComponentsSnoc(v, c);
    var p := Components(v).value;
    assert Padded(p + [ParseInt(c).value])[..3] == Padded(p)[..3];
    if Components(w).Some? {
      NewerByFirstThree(v + "." + c, w, v, w);
      NewerByFirstThree(w, v + "." + c, w, v);
    }
  }

  /** A missing component counts as 0: appending a zero component to a version of fewer than three
      components changes the answer in neither direction. */
  lemma ZeroComponentOptional(v: string, c: string, w: string)
    requires '.' !in c && ParseInt(c) == Some(0)
    requires Components(v).Some? && |Components(v).value| < 3
    ensures IsNewer(v + "." + c, w) == IsNewer(v, w) && IsNewer(w, v + "." + c) == IsNewer(w, v)
  {
    ComponentsSnoc(v, c);
    var p := Components(v).value;
    assert Padded(p + [0]) == Padded(p);
    if Components(w).Some? {
      NewerByFirstThree(v + "." + c, w, v, w);
      NewerByFirstThree(w, v + "." + c, w, v);
    }
  }

  /** A single digit reads as its value. */
  lemma DigitParses(c: char)
    requires IsDigit(c)
    ensures ParseInt([c]) == Some(DigitValue(c))
  {
    assert !IsSpace(c);
    StripNoEdgeSpace([c]);
    assert IsDigits([c]) && !([c][0] == '+' || [c][0] == '-');
    assert DigitsValue([c]) == DigitValue(c) by {
      assert [c][..0] == [];
    }
  }

  /** A version of one digit has that digit as its only component. */
  lemma SingleDigitVersion(c: char)
    requires IsDigit(c)
    ensures Components([c]) == Some([DigitValue(c) as int])
  {
    DigitParses(c);
    SplitWithoutSep([c], '.');
    assert IntParts([[c]]) == Some([DigitValue(c) as int]) by {
      var cs: seq<string>, n := [[c]], DigitValue(c) as int;
      assert cs[1..] == [] && cs[0] == [c];
      assert IntParts(cs[1..]) == Some([]);
      assert [n] + [] == [n];
    }
  }

  /** "1.2" and "1.2.0" are the same version to `compare_versions`. */
  lemma ShortVersionPadded(w: string)
    ensures IsNewer("1.2", w) == IsNewer("1.2.0", w) && IsNewer(w, "1.2") == IsNewer(w, "1.2.0")
  {
    SingleDigitVersion('1');
    DigitParses('2');
    DigitParses('0');
    assert "1.2" == "1" + "." + "2";
    ComponentsSnoc("1", "2");
    assert "1.2" + "." + "0" == "1.2.0";
    ZeroComponentOptional("1.2", "0", w);
  }

  // ---------------------------------------------------------------- check_for_updates

  /** What `get_remote_version` returns when it reaches the server: the version and the message, which
      is None for a JSON null. */
  datatype Remote = Remote(version: string, message: Option<string>)

  /** The four values `check_for_updates` returns. */
  datatype UpdateCheck = UpdateCheck(hasUpdate: bool, remote: Option<string>, current: string, message: string)

  /** The message reported when the server cannot be reached and the check is not silent. */
  const Unreachable: string := "无法连接到服务器"

  /** `check_for_updates`, with the local version and the outcome of the remote lookup (None when it
      failed) passed in. */
  function CheckForUpdates(current: string, remote: Option<Remote>, silent: bool): (r: UpdateCheck)
    ensures r.current == current
    ensures remote.None? ==> !r.hasUpdate && r.message == [] && r.remote == (if silent then None else Some(Unreachable))
    ensures remote.Some? ==> r.hasUpdate == IsNewer(current, remote.value.version) && r.remote == Some(remote.value.version)
  {
    match remote
      case None => UpdateCheck(false, if silent then None else Some(Unreachable), current, [])
      case Some(Remote(version, message)) =>
        UpdateCheck(IsNewer(current, version), Some(version), current,
                    match message case Some(m) => m case None => [])
  }

  /** An update is reported only when the server answered with a version newer than the local one; the
      same version, or one that does not parse, never counts as an update. */
  lemma UpdateOnlyWhenNewer(current: string, remote: Option<Remote>, silent: bool)
    ensures CheckForUpdates(current, remote, silent).hasUpdate <==>
      remote.Some? && Components(current).Some? && Components(remote.value.version).Some?
      && Later(Padded(Components(current).value), Padded(Components(remote.value.version).value))
    ensures remote.Some? && remote.value.version == current ==> !CheckForUpdates(current, remote, silent).hasUpdate
  {
  }
}
