/** Lexical path normalization in the manner of Node's `path`. */
module Paths {
  import opened Text

  predicate IsSlash(c: char) { c == '/' }

  predicate Absolute(path: string) { path != "" && path[0] == '/' }

  function Segments(path: string): seq<string> { Split(path, IsSlash) }

  /** One segment's effect on the stack of segments walked so far. */
  function Push(stack: seq<string>, segment: string, absolute: bool): seq<string> {
    if segment == "" || segment == "." then stack
    else if segment == ".." then
      if stack != [] && stack[|stack| - 1] != ".." then stack[..|stack| - 1]
      else if absolute then stack
      else stack + [".."]
    else stack + [segment]
  }

  function Walk(stack: seq<string>, segments: seq<string>, absolute: bool): seq<string> {
    if segments == [] then stack
    else Push(Walk(stack, segments[..|segments| - 1], absolute), segments[|segments| - 1], absolute)
  }

  function JoinSegments(stack: seq<string>): string {
    if stack == [] then ""
    else if |stack| == 1 then stack[0]
    else stack[0] + "/" + JoinSegments(stack[1..])
  }

  function Render(stack: seq<string>, absolute: bool): string {
    if absolute then "/" + JoinSegments(stack)
    else if JoinSegments(stack) == "" then "."
    else JoinSegments(stack)
  }

  function Stack(path: string): seq<string> { Walk([], Segments(path), Absolute(path)) }

  function Normal(path: string): string { Render(Stack(path), Absolute(path)) }

  /** The normalizing loop. */
  method Normalize(path: string) returns (normal: string)
    ensures normal == Normal(path)
  {
    var absolute := Absolute(path);
    var stack: seq<string> := [];
    var segments := Segments(path);
    for i := 0 to |segments|
      invariant stack == Walk([], segments[..i], absolute)
    {
      assert segments[..i + 1][..i] == segments[..i];
      var segment := segments[i];
      if segment == "" || segment == "." {
      } else if segment == ".." {
        if stack != [] && stack[|stack| - 1] != ".." {
          stack := stack[..|stack| - 1];
        } else if !absolute {
          stack := stack + [".."];
        }
      } else {
        stack := stack + [segment];
      }
    }
    assert segments[..|segments|] == segments;
    normal := Render(stack, absolute);
  }

  // ---------------------------------------------------------------------------------------
  // Normal stacks

  predicate IsName(segment: string) {
    segment != "" && segment != "." && segment != ".." && forall i :: 0 <= i < |segment| ==> segment[i] != '/'
  }

  /** Any `..` come first, and there are none in an absolute path; the rest are names. */
  predicate NormalStack(stack: seq<string>, absolute: bool) {
    && (forall i :: 0 <= i < |stack| ==> stack[i] == ".." || IsName(stack[i]))
    && (forall i, j :: 0 <= i < j < |stack| && stack[j] == ".." ==> stack[i] == "..")
    && (absolute ==> forall i :: 0 <= i < |stack| ==> stack[i] != "..")
  }

  predicate SlashFree(segments: seq<string>) {
    forall k, i :: 0 <= k < |segments| && 0 <= i < |segments[k]| ==> segments[k][i] != '/'
  }

  lemma {:induction false} WalkIsNormal(stack: seq<string>, segments: seq<string>, absolute: bool)
    requires NormalStack(stack, absolute) && SlashFree(segments)
    ensures NormalStack(Walk(stack, segments, absolute), absolute)
  {
    if segments != [] {
      WalkIsNormal(stack, segments[..|segments| - 1], absolute);
    }
  }

  /** `..` appears only as a leading run of a relative result, and never in an absolute one. */
  lemma StackIsNormal(path: string)
    ensures NormalStack(Stack(path), Absolute(path))
  {
    SegmentsAreSlashFree(path);
    WalkIsNormal([], Segments(path), Absolute(path));
  }

  lemma {:induction false} WalkConcat(stack: seq<string>, a: seq<string>, b: seq<string>, absolute: bool)
    ensures Walk(stack, a + b, absolute) == Walk(Walk(stack, a, absolute), b, absolute)
  {
    if b == [] {
      assert a + b == a;
    } else {
      WalkConcat(stack, a, b[..|b| - 1], absolute);
      assert (a + b)[..|a + b| - 1] == a + b[..|b| - 1];
    }
  }

  /** Walking a reduced sequence is walking the original one, from anywhere. */
  lemma {:induction false} WalkReduced(base: seq<string>, segments: seq<string>, absolute: bool)
    requires SlashFree(segments)
    ensures Walk(base, Walk([], segments, false), absolute) == Walk(base, segments, absolute)
  {
    if segments != [] {
      var init, x := segments[..|segments| - 1], segments[|segments| - 1];
      var n := Walk([], init, false);
      WalkReduced(base, init, absolute);
      WalkIsNormal([], init, false);
      if x == ".." && n != [] && n[|n| - 1] != ".." {
        // The name just entered is left again.
        assert Walk(base, n, absolute) == Push(Walk(base, n[..|n| - 1], absolute), n[|n| - 1], absolute);
      } else if Push(n, x, false) != n {
        assert Push(n, x, false)[..|n|] == n;
      }
    }
  }

  /** An absolute stack walks back to itself. */
  lemma {:induction false} WalkNormalStack(stack: seq<string>, absolute: bool)
    requires NormalStack(stack, absolute)
    ensures Walk([], stack, absolute) == stack
  {
    if stack != [] {
      var init, last := stack[..|stack| - 1], stack[|stack| - 1];
      WalkNormalStack(init, absolute);
      assert init + [last] == stack;
      assert last == ".." ==> !absolute && (init == [] || init[|init| - 1] == "..");
      assert Push(init, last, absolute) == init + [last];
    }
  }

  // ---------------------------------------------------------------------------------------
  // From text to stacks and back

  lemma {:induction false} SegmentsOfWord(s: string)
    requires forall i :: 0 <= i < |s| ==> s[i] != '/'
    ensures Segments(s) == [s]
  {
    if s != "" {
      SegmentsOfWord(s[1..]);
      assert [s[0]] + s[1..] == s;
    }
  }

  /** What one more character in front does to the segments. */
  function Prepend(c: char, segments: seq<string>): seq<string>
    requires segments != []
  {
    if IsSlash(c) then [""] + segments else [[c] + segments[0]] + segments[1..]
  }

  lemma SegmentsCons(c: char, s: string)
    ensures Segments([c] + s) == Prepend(c, Segments(s))
  {
    assert ([c] + s)[1..] == s;
  }

  lemma PrependConcat(c: char, a: seq<string>, b: seq<string>)
    requires a != []
    ensures Prepend(c, a + b) == Prepend(c, a) + b
  {
    assert (a + b)[1..] == a[1..] + b;
  }

  lemma {:induction false} SegmentsConcat(left: string, right: string)
    ensures Segments(left + "/" + right) == Segments(left) + Segments(right)
  {
    if left == "" {
      SegmentsCons('/', right);
      assert left + "/" + right == ['/'] + right;
    } else {
      var tail := left[1..] + "/" + right;
      SegmentsConcat(left[1..], right);
      SegmentsCons(left[0], tail);
      SegmentsCons(left[0], left[1..]);
      assert left + "/" + right == [left[0]] + tail && left == [left[0]] + left[1..];
      PrependConcat(left[0], Segments(left[1..]), Segments(right));
    }
  }

  lemma {:induction false} SegmentsOfJoined(stack: seq<string>)
    requires stack != [] && SlashFree(stack)
    ensures Segments(JoinSegments(stack)) == stack
  {
    SegmentsOfWord(stack[0]);
    if |stack| > 1 {
      SegmentsOfJoined(stack[1..]);
      SegmentsConcat(stack[0], JoinSegments(stack[1..]));
    }
  }

  lemma JoinedIsNonempty(stack: seq<string>)
    requires stack != [] && stack[0] != ""
    ensures JoinSegments(stack) != "" && JoinSegments(stack)[0] == stack[0][0]
  {
  }

  /** A rendered stack is again absolute or not, and walking its text is walking the stack. */
  lemma WalkRendered(base: seq<string>, stack: seq<string>, absolute: bool, mode: bool)
    requires NormalStack(stack, absolute)
    ensures Render(stack, absolute) != "" && Absolute(Render(stack, absolute)) == absolute
    ensures Walk(base, Segments(Render(stack, absolute)), mode) == Walk(base, stack, mode)
  {
    var body := JoinSegments(stack);
    if stack == [] {
      SegmentsOfWord("");
      SegmentsOfWord(".");
      SegmentsConcat("", "");
      assert "" + "/" + "" == "/";
    } else {
      JoinedIsNonempty(stack);
      SegmentsOfJoined(stack);
      if absolute {
        SegmentsOfWord("");
        SegmentsConcat("", body);
        assert "" + "/" + body == "/" + body;
        assert Segments("/" + body) == [""] + stack;
        WalkConcat(base, [""], stack, mode);
      }
    }
    EmptySegments(base, mode);
  }

  lemma EmptySegments(base: seq<string>, mode: bool)
    ensures Walk(base, [""], mode) == base && Walk(base, ["", ""], mode) == base && Walk(base, ["."], mode) == base
  {
    assert ["", ""][..1] == [""];
  }

  /** The normalized text walks to where the original does, read the same way. */
  lemma StackOfNormal(path: string)
    ensures Normal(path) != "" && Absolute(Normal(path)) == Absolute(path) && Stack(Normal(path)) == Stack(path)
  {
    StackIsNormal(path);
    WalkRendered([], Stack(path), Absolute(path), Absolute(path));
    WalkNormalStack(Stack(path), Absolute(path));
  }

  lemma NormalIsIdempotent(path: string)
    ensures Normal(Normal(path)) == Normal(path)
  {
    StackOfNormal(path);
  }

  lemma SegmentsAreSlashFree(path: string)
    ensures SlashFree(Segments(path))
  {
    SplitParts(path, IsSlash);
  }

  /** From any directory, following a normalized relative path leads where the original does. */
  lemma NormalLeadsTheSameWay(base: seq<string>, path: string, absolute: bool)
    requires !Absolute(path)
    ensures Walk(base, Segments(Normal(path)), absolute) == Walk(base, Segments(path), absolute)
  {
    StackIsNormal(path);
    WalkRendered(base, Stack(path), false, absolute);
    SegmentsAreSlashFree(path);
    WalkReduced(base, Segments(path), absolute);
  }

  // ---------------------------------------------------------------------------------------
  // Joining

  function Join(left: string, right: string): string {
    if right == "" then Normal(left)
    else if left == "" then Normal(right)
    else Normal(left + "/" + right)
  }

  /** A join is the walk of the one part after the other. */
  lemma StackOfJoin(left: string, right: string)
    requires left != ""
    ensures Absolute(Join(left, right)) == Absolute(left) && Join(left, right) != ""
    ensures Stack(Join(left, right)) == Walk(Stack(left), Segments(right), Absolute(left))
    ensures Join(left, right) == Render(Walk(Stack(left), Segments(right), Absolute(left)), Absolute(left))
  {
    if right == "" {
      StackOfNormal(left);
      EmptySegments(Stack(left), Absolute(left));
    } else {
      StackOfNormal(left + "/" + right);
      SegmentsConcat(left, right);
      WalkConcat([], Segments(left), Segments(right), Absolute(left));
    }
  }

  lemma EmptyIsDot()
    ensures Normal("") == "." && Normal(".") == "." && Stack(".") == []
  {
    SegmentsOfWord("");
    SegmentsOfWord(".");
    EmptySegments([], false);
  }

  /** Joining is associative whenever the middle part is relative, unless it is empty and the
      last part is not relative. */
  lemma JoinIsAssociative(a: string, b: string, c: string)
    requires !Absolute(b) && (b == "" ==> !Absolute(c))
    ensures Join(Join(a, b), c) == Join(a, Join(b, c))
  {
    StackOfNormal(c);
    if b == "" {
      if a == "" {
        EmptyIsDot();
        StackOfJoin(".", c);
        NormalIsIdempotent(c);
      } else {
        StackOfJoin(a, "");
        StackOfJoin(Join(a, ""), c);
        StackOfJoin(a, Join("", c));
        EmptySegments(Stack(a), Absolute(a));
        if c != "" { NormalLeadsTheSameWay(Stack(a), c, Absolute(a)); }
      }
    } else {
      StackOfJoin(b, c);
      if a == "" {
        StackOfNormal(b);
        StackOfJoin(Normal(b), c);
        StackOfNormal(b + "/" + c);
        NormalIsIdempotent(b);
        NormalIsIdempotent(b + "/" + c);
      } else {
        StackOfJoin(a, b);
        StackOfJoin(Join(a, b), c);
        StackOfJoin(a, Join(b, c));
        WalkConcat(Stack(a), Segments(b), Segments(c), Absolute(a));
        SegmentsConcat(b, c);
        if c == "" {
          NormalLeadsTheSameWay(Stack(a), b, Absolute(a));
          EmptySegments(Walk(Stack(a), Segments(b), Absolute(a)), Absolute(a));
        } else {
          NormalLeadsTheSameWay(Stack(a), b + "/" + c, Absolute(a));
        }
      }
    }
  }

  // ---------------------------------------------------------------------------------------
  // Exactly when joining is associative

  /** Walked from nowhere, the segments lead above their start. */
  predicate LeadsAbove(segments: seq<string>) {
    var r := Walk([], segments, false); r != [] && r[0] == ".."
  }

  predicate AllUp(segments: seq<string>) { forall i :: 0 <= i < |segments| ==> segments[i] == ".." }

  /** `t` is `r` without some leading `..`. */
  predicate ClampsTo(r: seq<string>, t: seq<string>) {
    |t| <= |r| && r[|r| - |t|..] == t && AllUp(r[..|r| - |t|])
  }

  lemma UpsClampTo(ups: seq<string>, t: seq<string>)
    requires AllUp(ups)
    ensures ClampsTo(ups + t, t)
  {
    assert (ups + t)[|ups|..] == t && (ups + t)[..|ups|] == ups;
  }

  lemma ClampedPush(ups: seq<string>, t: seq<string>, segment: string)
    requires AllUp(ups) && NormalStack(t, true)
    ensures ClampsTo(Push(ups + t, segment, false), Push(t, segment, true))
  {
    if segment == "" || segment == "." {
      UpsClampTo(ups, t);
    } else if segment != ".." {
      assert ups + t + [segment] == ups + (t + [segment]);
      UpsClampTo(ups, t + [segment]);
    } else if t == [] {
      assert ups + t == ups;
      UpsClampTo(ups + [".."], []);
      assert ups + [".."] + [] == ups + [".."];
    } else {
      assert (ups + t)[..|ups + t| - 1] == ups + t[..|t| - 1];
      UpsClampTo(ups, t[..|t| - 1]);
    }
  }

  /** Clamping a walk at the root drops its leading `..` and nothing else. */
  lemma {:induction false} ClampedWalk(segments: seq<string>)
    requires SlashFree(segments)
    ensures ClampsTo(Walk([], segments, false), Walk([], segments, true))
  {
    if segments != [] {
      var init := segments[..|segments| - 1];
      ClampedWalk(init);
      WalkIsNormal([], init, true);
      var r, t := Walk([], init, false), Walk([], init, true);
      assert r == r[..|r| - |t|] + t;
      ClampedPush(r[..|r| - |t|], t, segments[|segments| - 1]);
    }
  }

  lemma {:induction false} WalkNames(base: seq<string>, names: seq<string>, absolute: bool)
    requires NormalStack(names, true)
    ensures Walk(base, names, absolute) == base + names
  {
    if names != [] {
      var n := |names| - 1;
      WalkNames(base, names[..n], absolute);
      assert base + names[..n] + [names[n]] == base + names;
    }
  }

  /** How far down a stack leads, counting each `..` as one up. */
  function Depth(stack: seq<string>): int {
    if stack == [] then 0
    else Depth(stack[..|stack| - 1]) + if stack[|stack| - 1] == ".." then -1 else 1
  }

  /** Every step up counts, except at the root. */
  lemma {:induction false} ClimbFrom(base: seq<string>, ups: seq<string>, absolute: bool)
    requires NormalStack(base, absolute) && AllUp(ups)
    ensures var r := Walk(base, ups, absolute);
      && (!absolute ==> Depth(r) == Depth(base) - |ups|)
      && (absolute ==> if base == [] then r == [] else |r| <= |base| && (ups != [] ==> |r| < |base|))
  {
    if ups != [] {
      var init := ups[..|ups| - 1];
      ClimbFrom(base, init, absolute);
      var r := Walk(base, init, absolute);
      if !absolute {
        assert (r + [".."])[..|r|] == r;
      } else {
        WalkIsNormal(base, init, true);
      }
    }
  }

  lemma UpsMatter(base: seq<string>, ups: seq<string>, names: seq<string>, absolute: bool)
    requires NormalStack(base, absolute) && AllUp(ups) && NormalStack(names, true)
    ensures Walk(base, ups + names, absolute) == Walk(base, names, absolute) <==> ups == [] || (absolute && base == [])
  {
    var climbed := Walk(base, ups, absolute);
    WalkConcat(base, ups, names, absolute);
    WalkNames(climbed, names, absolute);
    WalkNames(base, names, absolute);
    ClimbFrom(base, ups, absolute);
    SameFront(climbed, base, names);
  }

  /** Clamping what is walked makes no difference to where it leads, exactly when it does not
      lead above its start, or starts at the root. */
  lemma ClampMatters(base: seq<string>, segments: seq<string>, absolute: bool)
    requires NormalStack(base, absolute) && SlashFree(segments)
    ensures Walk(base, segments, absolute) == Walk(base, Walk([], segments, true), absolute)
            <==> !LeadsAbove(segments) || (absolute && base == [])
  {
    var r, t := Walk([], segments, false), Walk([], segments, true);
    ClampedWalk(segments);
    WalkIsNormal([], segments, true);
    WalkReduced(base, segments, absolute);
    SplitUps(r, t);
    UpsMatter(base, r[..|r| - |t|], t, absolute);
  }

  lemma SplitUps(r: seq<string>, t: seq<string>)
    requires ClampsTo(r, t) && NormalStack(t, true)
    ensures r == r[..|r| - |t|] + t
    ensures r != [] && r[0] == ".." <==> r[..|r| - |t|] != []
  {
  }

  lemma SameFront(a: seq<string>, b: seq<string>, tail: seq<string>)
    ensures a + tail == b + tail <==> a == b
  {
    if a + tail == b + tail {
      assert |a| == |b| && a == (a + tail)[..|a|] && b == (b + tail)[..|b|];
    }
  }

  lemma RenderIsInjective(a: seq<string>, b: seq<string>, absolute: bool)
    requires NormalStack(a, absolute) && NormalStack(b, absolute)
    ensures Render(a, absolute) == Render(b, absolute) <==> a == b
  {
    WalkRendered([], a, absolute, absolute);
    WalkRendered([], b, absolute, absolute);
    WalkNormalStack(a, absolute);
    WalkNormalStack(b, absolute);
  }

  lemma NormalIsRoot(a: string)
    ensures Normal(a) == "/" <==> Absolute(a) && Stack(a) == []
  {
    StackIsNormal(a);
    StackOfNormal(a);
    if Absolute(a) {
      assert NormalStack([], true);
      RenderIsInjective(Stack(a), [], true);
      assert Render([], true) == "/";
    }
  }

  /** Where joining the later parts first leads, when the first of them is absolute. */
  lemma StackOfLater(base: seq<string>, b: string, c: string, mode: bool)
    requires Absolute(if b == "" then c else b)
    ensures Walk(base, Segments(Join(b, c)), mode) == Walk(base, Walk([], Segments(b) + Segments(c), true), mode)
  {
    SegmentsAreSlashFree(b);
    SegmentsAreSlashFree(c);
    WalkIsNormal([], Segments(b), true);
    WalkIsNormal(Walk([], Segments(b), true), Segments(c), true);
    WalkConcat([], Segments(b), Segments(c), true);
    if b == "" {
      SegmentsOfWord("");
      EmptySegments([], true);
    } else {
      StackOfJoin(b, c);
    }
    WalkRendered(base, Walk([], Segments(b) + Segments(c), true), true, mode);
  }

  /** When the order of joining does not matter. */
  predicate Associates(a: string, b: string, c: string) {
    if a == "" then b != "" || !Absolute(c)
    else !Absolute(if b == "" then c else b) || !LeadsAbove(Segments(b) + Segments(c)) || Normal(a) == "/"
  }

  lemma JoinToNowhere(b: string, c: string)
    ensures Join(Join("", b), c) == Join("", Join(b, c)) <==> b != "" || !Absolute(c)
  {
    if b == "" {
      EmptyIsDot();
      if Absolute(c) {
        StackOfJoin(".", c);
        StackOfNormal(c);
        StackOfNormal(Join("", c));
      } else {
        JoinIsAssociative("", "", c);
      }
    } else {
      StackOfNormal(b);
      NormalIsIdempotent(b);
      StackOfJoin(b, c);
      StackOfJoin(Normal(b), c);
      NormalIsIdempotent(if c == "" then b else b + "/" + c);
    }
  }

  /** Joining is associative exactly when the later parts, joined first, lose no `..` by being
      clamped at the root: they are relative, or do not lead above their start, or the first
      part is the root itself. With an empty first part only an absolute last part after an
      empty middle one matters. */
  lemma JoinAssociatesIff(a: string, b: string, c: string)
    ensures Join(Join(a, b), c) == Join(a, Join(b, c)) <==> Associates(a, b, c)
  {
    if a == "" {
      JoinToNowhere(b, c);
    } else if !Absolute(if b == "" then c else b) {
      JoinIsAssociative(a, b, c);
    } else {
      var base, mode, segments := Stack(a), Absolute(a), Segments(b) + Segments(c);
      SegmentsAreSlashFree(b);
      SegmentsAreSlashFree(c);
      StackIsNormal(a);
      StackOfJoin(a, b);
      StackOfJoin(Join(a, b), c);
      WalkConcat(base, Segments(b), Segments(c), mode);
      LaterIsNonempty(b, c);
      StackOfJoin(a, Join(b, c));
      StackOfLater(base, b, c, mode);
      WalkIsNormal(base, segments, mode);
      WalkIsNormal([], segments, true);
      StackSlashFree(Walk([], segments, true));
      WalkIsNormal(base, Walk([], segments, true), mode);
      RenderIsInjective(Walk(base, segments, mode), Walk(base, Walk([], segments, true), mode), mode);
      ClampMatters(base, segments, mode);
      NormalIsRoot(a);
    }
  }

  lemma LaterIsNonempty(b: string, c: string)
    ensures Join(b, c) != ""
  {
    StackOfNormal(b);
    StackOfNormal(c);
    StackOfNormal(b + "/" + c);
  }

  lemma StackSlashFree(stack: seq<string>)
    requires NormalStack(stack, true)
    ensures SlashFree(stack)
  {
  }

  /** Joined from the left, `..` leads out of `a`; joined from the right, it is clamped first. */
  lemma ClampingSplitsJoins()
    ensures Join(Join("a", "/.."), "b") != Join("a", Join("/..", "b"))
  {
    SegmentsOfWord("");
    SegmentsOfWord("..");
    SegmentsOfWord("b");
    SegmentsConcat("", "..");
    assert "" + "/" + ".." == "/..";
    var segments := Segments("/..") + Segments("b");
    assert segments == ["", "..", "b"];
    assert segments[..2] == ["", ".."] && segments[..2][..1] == [""];
    assert Walk([], [""], false) == [] && Walk([], segments[..2], false) == [".."];
    assert Walk([], segments, false) == ["..", "b"];
    NormalIsRoot("a");
    JoinAssociatesIff("a", "/..", "b");
  }
}
