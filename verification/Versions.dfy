/** Choosing the SDK version that suits the installed CLI. */
module Versions {
  import opened Wrappers
  import opened Text

  datatype Version = Version(major: nat, minor: nat, patch: nat)

  const U32_LIMIT := 0x1_0000_0000

  predicate AtMost(a: Version, b: Version) {
    a.major < b.major
    || (a.major == b.major && (a.minor < b.minor || (a.minor == b.minor && a.patch <= b.patch)))
  }

  predicate IsDot(c: char) { c == '.' }

  predicate IsComponent(part: string) {
    part != "" && AllDigits(part) && ParseNat(part) < U32_LIMIT
  }

  /** Three dot-separated runs of digits, each below 2^32; prereleases are not versions. */
  function ParseVersion(text: string): Option<Version> { VersionOf(Split(text, IsDot)) }

  function VersionOf(parts: seq<string>): Option<Version> {
    if |parts| == 3 && (forall i :: 0 <= i < 3 ==> IsComponent(parts[i]))
    then Some(Version(ParseNat(parts[0]), ParseNat(parts[1]), ParseNat(parts[2])))
    else None
  }

  predicate IsTriple(text: string, major: string, minor: string, patch: string) {
    IsNumber(major) && IsNumber(minor) && IsNumber(patch) && text == major + "." + minor + "." + patch
  }

  /** Three numbers with dots between them are a version exactly when they are below 2^32. */
  lemma VersionOfTriple(text: string, major: string, minor: string, patch: string)
    requires IsTriple(text, major, minor, patch)
    ensures ParseVersion(text) ==
      if ParseNat(major) < 0x1_0000_0000 && ParseNat(minor) < 0x1_0000_0000 && ParseNat(patch) < 0x1_0000_0000
      then Some(Version(ParseNat(major), ParseNat(minor), ParseNat(patch))) else None
  {
    SplitTriple(major, minor, patch);
    assert forall i :: 0 <= i < 3 ==> [major, minor, patch][i] in {major, minor, patch};
  }

  predicate IsNumber(s: string) { s != "" && AllDigits(s) }

  /** Nothing else is; no prerelease is. */
  lemma VersionIsTriple(text: string)
    requires ParseVersion(text).Some?
    ensures exists major, minor, patch :: IsTriple(text, major, minor, patch)
  {
    var parts := Split(text, IsDot);
    JoinedParts(text, IsDot, '.');
    assert parts[1..][1..] == [parts[2]];
    assert Joined(parts[1..], '.') == parts[1] + "." + parts[2];
    assert text == parts[0] + "." + (parts[1] + "." + parts[2]);
    assert IsComponent(parts[0]) && IsComponent(parts[1]) && IsComponent(parts[2]);
    assert IsTriple(text, parts[0], parts[1], parts[2]);
  }

  lemma SplitTriple(a: string, b: string, c: string)
    requires AllDigits(a) && AllDigits(b) && AllDigits(c)
    ensures Split(a + "." + b + "." + c, IsDot) == [a, b, c]
  {
    SplitWord(c, IsDot);
    SplitAfter(b, '.', c, IsDot);
    SplitAfter(a, '.', b + "." + c, IsDot);
    assert a + "." + (b + "." + c) == a + "." + b + "." + c;
  }

  /** The last of the greatest entries among those that have a key. */
  function Greatest(texts: seq<string>, key: string -> Option<Version>): (best: Option<string>)
    ensures best.Some? ==> key(best.value).Some?
  {
    if texts == [] then None
    else
      var last := texts[|texts| - 1];
      var best := Greatest(texts[..|texts| - 1], key);
      if key(last).Some? && (best.None? || AtMost(key(best.value).value, key(last).value))
      then Some(last) else best
  }

  lemma {:induction false} GreatestOf(texts: seq<string>, key: string -> Option<Version>)
    ensures var best := Greatest(texts, key);
      && (best.None? <==> forall t :: t in texts ==> key(t).None?)
      && (best.Some? ==> best.value in texts && key(best.value).Some?)
      && (best.Some? ==> forall t :: t in texts && key(t).Some? ==> AtMost(key(t).value, key(best.value).value))
  {
    if texts != [] {
      var n := |texts| - 1;
      GreatestOf(texts[..n], key);
      assert texts == texts[..n] + [texts[n]];
    }
  }

  /** Nothing after it is as great. */
  lemma {:induction false} GreatestIsLast(texts: seq<string>, key: string -> Option<Version>) returns (i: nat)
    requires Greatest(texts, key).Some?
    ensures i < |texts| && texts[i] == Greatest(texts, key).value
    ensures forall k :: i < k < |texts| && key(texts[k]).Some? ==>
      !AtMost(key(texts[i]).value, key(texts[k]).value)
  {
    var n := |texts| - 1;
    var shorter, last := texts[..n], texts[n];
    var best := Greatest(shorter, key);
    GreatestOf(shorter, key);
    if key(last).Some? && (best.None? || AtMost(key(best.value).value, key(last).value)) {
      i := n;
    } else {
      i := GreatestIsLast(shorter, key);
      assert forall k :: i < k < n ==> texts[k] == shorter[k];
    }
  }

  function LatestVersion(versions: seq<string>): Option<string> { Greatest(versions, ParseVersion) }

  /** A release whose patch does not exceed the CLI's. */
  predicate Suits(release: string, cli: Version) {
    ParseVersion(release).Some? && ParseVersion(release).value.patch <= cli.patch
  }

  /** The version of `text` when its patch is within the limit. */
  function Compatible(text: string, patch: nat): Option<Version> {
    match ParseVersion(text)
    case Some(v) => if v.patch <= patch then Some(v) else None
    case None => None
  }

  /** The first version among the words of the CLI's own version line. */
  function FirstVersion(words: seq<string>): Option<Version> {
    if words == [] then None
    else if ParseVersion(words[0]).Some? then ParseVersion(words[0])
    else FirstVersion(words[1..])
  }

  lemma {:induction false} FirstVersionOf(words: seq<string>)
    ensures var v := FirstVersion(words);
      && (v.None? <==> forall w :: w in words ==> ParseVersion(w).None?)
      && (v.Some? ==> exists i ::
            0 <= i < |words| && v == ParseVersion(words[i]) && forall k :: 0 <= k < i ==> ParseVersion(words[k]).None?)
  {
    if words != [] && ParseVersion(words[0]).None? {
      FirstVersionOf(words[1..]);
      var v := FirstVersion(words);
      if v.Some? {
        var i :| 0 <= i < |words[1..]| && v == ParseVersion(words[1..][i])
          && forall k :: 0 <= k < i ==> ParseVersion(words[1..][k]).None?;
        assert v == ParseVersion(words[i + 1]);
        forall k | 0 <= k < i + 1
          ensures ParseVersion(words[k]).None?
        {
          assert k > 0 ==> words[k] == words[1..][k - 1];
        }
      }
    }
  }

  /** The greatest published version whose patch does not exceed the CLI's patch; only the
      patch is compared, since SDK and CLI number their releases apart otherwise. */
  function ResolveTarget(versions: seq<string>, cli: string): Result<string, string> {
    match FirstVersion(Split(cli, IsSpace))
    case None => Err("invalid Claude CLI version: " + cli)
    case Some(v) => Choose(versions, v)
  }

  function Choose(versions: seq<string>, cli: Version): Result<string, string> {
    match Greatest(versions, t => Compatible(t, cli.patch))
    case None => Err("no SDK version compatible with installed Claude CLI")
    case Some(t) => Ok(t)
  }

  /** There is a target exactly when the CLI's line has a version and some release suits it, and
      then it is the greatest such release. */
  lemma TargetIsGreatest(versions: seq<string>, cli: string)
    ensures var v, target := FirstVersion(Split(cli, IsSpace)), ResolveTarget(versions, cli);
      && (target.Ok? <==> v.Some? && exists t :: t in versions && Suits(t, v.value))
      && (target.Ok? ==>
            && target.value in versions && Suits(target.value, v.value)
            && forall t :: t in versions && Suits(t, v.value) ==>
              AtMost(ParseVersion(t).value, ParseVersion(target.value).value))
  {
    var v := FirstVersion(Split(cli, IsSpace));
    if v.Some? {
      var key := t => Compatible(t, v.value.patch);
      GreatestOf(versions, key);
      assert forall t :: Suits(t, v.value) <==> key(t).Some?;
      assert Choose(versions, v.value) == ResolveTarget(versions, cli);
      assert Greatest(versions, key) == Greatest(versions, t => Compatible(t, v.value.patch));
    }
  }

  /** A CLI line that starts with a version, and says more after a space, is of that version. */
  lemma LeadingVersion(version: string, rest: string)
    requires ParseVersion(version).Some?
    ensures FirstVersion(Split(version + " " + rest, IsSpace)) == ParseVersion(version)
  {
    VersionIsTriple(version);
    SplitAfter(version, ' ', rest, IsSpace);
  }
}
