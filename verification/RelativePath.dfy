/** Lexical cleaning of the relative paths that name a build context or a file in it. */
module RelativePath {
  datatype Checked = Ok(path: string) | Absolute | Backslash | Control | Traversal

  predicate IsSpace(c: char) {
    var n := c as int;
    || 0x09 <= n <= 0x0D || n == 0x20 || n == 0x85 || n == 0xA0 || n == 0x1680 || 0x2000 <= n <= 0x200A
    || n == 0x2028 || n == 0x2029 || n == 0x202F || n == 0x205F || n == 0x3000
  }

  predicate IsControl(c: char) {
    c as int < 0x20 || 0x7F <= c as int < 0xA0
  }

  function TrimSpace(s: string): (t: string)
    ensures |t| <= |s| && (|t| == |s| ==> t == s)
    ensures t != "" ==> !IsSpace(t[0]) && !IsSpace(t[|t| - 1])
    ensures forall c :: c in t ==> c in s
  {
    if s == "" then s
    else if IsSpace(s[0]) then TrimSpace(s[1..])
    else if IsSpace(s[|s| - 1]) then TrimSpace(s[..|s| - 1])
    else s
  }

  function Split(s: string): (segments: seq<string>)
    ensures |segments| > 0
  {
    if s == "" then [""]
    else
      var rest := Split(s[1..]);
      if s[0] == '/' then [""] + rest else [[s[0]] + rest[0]] + rest[1..]
  }

  function Join(segments: seq<string>): string {
    if segments == [] then ""
    else if |segments| == 1 then segments[0]
    else segments[0] + "/" + Join(segments[1..])
  }

  /** One step of lexical cleaning: a ".." takes back the name before it, if there is one. */
  function Push(out: seq<string>, segment: string): seq<string> {
    if segment == "" || segment == "." then out
    else if segment == ".." && out != [] && out[|out| - 1] != ".." then out[..|out| - 1]
    else out + [segment]
  }

  function Fold(out: seq<string>, segments: seq<string>): seq<string>
    decreases |segments|
  {
    if segments == [] then out else Fold(Push(out, segments[0]), segments[1..])
  }

  function Clean(path: string): string {
    var out := Fold([], Split(path));
    if out == [] then "." else Join(out)
  }

  function ValidateRelativePath(raw: string): Checked {
    var path := TrimSpace(raw);
    if path == "" || path == "." then Ok(path)
    else if path[0] == '/' then Absolute
    else if '\\' in path then Backslash
    else if exists c :: c in path && IsControl(c) then Control
    else
      var clean := Clean(path);
      if clean == ".." || "../" <= clean then Traversal else Ok(path)
  }

  function CleanRelativePath(raw: string): Checked {
    var path := TrimSpace(raw);
    var checked := ValidateRelativePath(path);
    if !checked.Ok? then checked
    else if path == "" then Ok("")
    else Ok(Clean(path))
  }

  /* ---- What a path means ---- */

  /** Where a walk has got to: so many directories above the start, and then down through named ones. */
  datatype Place = Place(up: nat, down: seq<string>)

  const Start := Place(0, [])

  predicate IsName(segment: string) {
    segment != "" && segment != "." && segment != ".." && '/' !in segment
  }

  function Step(p: Place, segment: string): Place {
    if segment == "" || segment == "." then p
    else if segment == ".." then
      if p.down == [] then Place(p.up + 1, []) else Place(p.up, p.down[..|p.down| - 1])
    else Place(p.up, p.down + [segment])
  }

  function Walk(p: Place, segments: seq<string>): Place
    decreases |segments|
  {
    if segments == [] then p else Walk(Step(p, segments[0]), segments[1..])
  }

  function Depth(segments: seq<string>): int {
    if segments == [] then 0
    else (if segments[0] == "" || segments[0] == "." then 0 else if segments[0] == ".." then -1 else 1) + Depth(segments[1..])
  }

  /** No prefix of the walk has taken more steps up than down. */
  ghost predicate StaysInside(path: string) {
    forall k :: 0 <= k <= |Split(path)| ==> Depth(Split(path)[..k]) >= 0
  }

  /** The segments that lead to a place and nowhere else on the way. */
  function Route(p: Place): seq<string> {
    seq(p.up, i => "..") + p.down
  }

  predicate Named(p: Place) {
    forall name :: name in p.down ==> IsName(name)
  }

  predicate NoSlash(segments: seq<string>) {
    forall segment :: segment in segments ==> '/' !in segment
  }

  /* ---- Splitting and joining ---- */

  lemma {:induction false} SplitHasNoSlash(s: string)
    ensures NoSlash(Split(s))
  {
    if s != "" { SplitHasNoSlash(s[1..]); }
  }

  lemma {:induction false} SplitPlain(segment: string)
    requires '/' !in segment
    ensures Split(segment) == [segment]
  {
    if segment != "" {
      SplitPlain(segment[1..]);
      assert [segment[0]] + segment[1..] == segment;
    }
  }

  lemma {:induction false} SplitAtSlash(segment: string, rest: string)
    requires '/' !in segment
    ensures Split(segment + "/" + rest) == [segment] + Split(rest)
  {
    var s := segment + "/" + rest;
    if segment == "" {
      assert s[1..] == rest;
    } else {
      assert s[1..] == segment[1..] + "/" + rest;
      SplitAtSlash(segment[1..], rest);
      assert [s[0]] + segment[1..] == segment;
    }
  }

  lemma {:induction false} SplitJoin(segments: seq<string>)
    requires segments != [] && NoSlash(segments)
    ensures Split(Join(segments)) == segments
  {
    assert segments[0] in segments;
    if |segments| == 1 {
      SplitPlain(segments[0]);
    } else {
      SplitJoin(segments[1..]);
      SplitAtSlash(segments[0], Join(segments[1..]));
    }
  }

  /* ---- Cleaning follows the walk ---- */

  lemma PushFollowsStep(p: Place, segment: string)
    requires Named(p) && '/' !in segment
    ensures Push(Route(p), segment) == Route(Step(p, segment)) && Named(Step(p, segment))
  {
    var out := Route(p);
    if segment == ".." && p.down == [] {
      assert p.up > 0 ==> out[|out| - 1] == "..";
      assert out + [".."] == Route(Place(p.up + 1, []));
    } else if segment == ".." {
      assert out[|out| - 1] == p.down[|p.down| - 1] && IsName(p.down[|p.down| - 1]);
      assert out[..|out| - 1] == Route(Step(p, segment));
    } else if segment != "" && segment != "." {
      assert out + [segment] == Route(Step(p, segment));
    }
  }

  lemma {:induction false} FoldFollowsWalk(p: Place, segments: seq<string>)
    requires Named(p) && NoSlash(segments)
    ensures Fold(Route(p), segments) == Route(Walk(p, segments)) && Named(Walk(p, segments))
    decreases |segments|
  {
    if segments != [] {
      PushFollowsStep(p, segments[0]);
      FoldFollowsWalk(Step(p, segments[0]), segments[1..]);
    }
  }

  lemma {:induction false} WalkNames(p: Place, names: seq<string>)
    requires forall name :: name in names ==> IsName(name)
    ensures Walk(p, names) == Place(p.up, p.down + names)
    decreases |names|
  {
    if names == [] {
      assert p.down + names == p.down;
    } else {
      assert IsName(names[0]) && Step(p, names[0]) == Place(p.up, p.down + [names[0]]);
      WalkNames(Step(p, names[0]), names[1..]);
      assert p.down + [names[0]] + names[1..] == p.down + names;
    }
  }

  lemma {:induction false} WalkUp(p: Place, n: nat, names: seq<string>)
    requires p.down == []
    ensures Walk(p, seq(n, i => "..") + names) == Walk(Place(p.up + n, []), names)
    decreases n
  {
    var route := seq(n, i => "..") + names;
    if n == 0 {
      assert route == names;
    } else {
      assert route[1..] == seq(n - 1, i => "..") + names;
      WalkUp(Step(p, ".."), n - 1, names);
    }
  }

  lemma RouteLeadsThere(p: Place)
    requires Named(p)
    ensures Walk(Start, Route(p)) == p
  {
    WalkUp(Start, p.up, p.down);
    WalkNames(Place(p.up, []), p.down);
  }

  function Target(path: string): Place {
    Walk(Start, Split(path))
  }

  /** The cleaned path in terms of the place it names. */
  lemma CleanIsRoute(path: string)
    ensures Named(Target(path))
    ensures Clean(path) == if Target(path) == Start then "." else Join(Route(Target(path)))
    ensures Fold([], Split(path)) == Route(Target(path))
    ensures Split(Clean(path)) == if Target(path) == Start then ["."] else Route(Target(path))
  {
    SplitHasNoSlash(path);
    FoldFollowsWalk(Start, Split(path));
    assert Route(Start) == [];
    var p := Target(path);
    if Route(p) != [] { SplitJoin(Route(p)); }
    SplitPlain(".");
  }

  /** Cleaning keeps the meaning of every relative path. */
  lemma CleanReachesTheSamePlace(path: string)
    ensures Target(Clean(path)) == Target(path)
  {
    CleanIsRoute(path);
    if Target(path) == Start {
      assert Walk(Start, ["."]) == Walk(Start, ["."][1..]) == Start;
    } else {
      RouteLeadsThere(Target(path));
    }
  }

  /** Cleaned paths are canonical: two paths clean to the same text exactly when they name the same place. */
  lemma CleanIsCanonical(path: string, other: string)
    ensures Clean(path) == Clean(other) <==> Target(path) == Target(other)
  {
    CleanReachesTheSamePlace(path);
    CleanReachesTheSamePlace(other);
    CleanIsRoute(path);
    CleanIsRoute(other);
  }

  lemma CleanIsIdempotent(path: string)
    ensures Clean(Clean(path)) == Clean(path)
  {
    CleanReachesTheSamePlace(path);
    CleanIsCanonical(Clean(path), path);
  }

  /* ---- Validation is exact ---- */

  lemma {:induction false} UpNeverShrinks(p: Place, segments: seq<string>)
    ensures Walk(p, segments).up >= p.up
    decreases |segments|
  {
    if segments != [] { UpNeverShrinks(Step(p, segments[0]), segments[1..]); }
  }

  lemma PrefixDepth(segments: seq<string>, k: nat)
    requires 0 < k <= |segments|
    ensures Depth(segments[..k]) == Depth(segments[..1]) + Depth(segments[1..][..k - 1])
  {
    assert segments[..k][1..] == segments[1..][..k - 1];
    assert segments[..1][1..] == [];
  }

  lemma {:induction false} InsideMeansNoUp(p: Place, segments: seq<string>)
    requires p.up == 0
    ensures Walk(p, segments).up == 0 <==> forall k :: 0 <= k <= |segments| ==> |p.down| + Depth(segments[..k]) >= 0
    decreases |segments|
  {
    if segments != [] {
      var q, rest := Step(p, segments[0]), segments[1..];
      PrefixDepth(segments, 1);
      if |p.down| + Depth(segments[..1]) < 0 {
        UpNeverShrinks(q, rest);
      } else {
        InsideMeansNoUp(q, rest);
        assert |q.down| == |p.down| + Depth(segments[..1]);
        forall k | 0 <= k <= |rest| ensures |q.down| + Depth(rest[..k]) == |p.down| + Depth(segments[..k + 1]) {
          PrefixDepth(segments, k + 1);
        }
        forall k | 0 < k <= |segments| ensures |p.down| + Depth(segments[..k]) == |q.down| + Depth(rest[..k - 1]) {
          PrefixDepth(segments, k);
        }
      }
    }
  }

  lemma TraversalMeansUp(path: string)
    ensures Clean(path) == ".." || "../" <= Clean(path) <==> Target(path).up > 0
  {
    CleanIsRoute(path);
    var c, p := Clean(path), Target(path);
    if c == ".." {
      SplitPlain(c);
    } else if "../" <= c {
      assert c == ".." + "/" + c[3..];
      SplitAtSlash("..", c[3..]);
    }
    if p.up == 0 && p.down != [] { assert Split(c)[0] in p.down; }
    if p.up > 0 {
      assert Route(p)[0] == "..";
      if |Route(p)| > 1 { assert c == ".." + "/" + Join(Route(p)[1..]); }
    }
  }

  predicate Acceptable(path: string) {
    (path == "" || path[0] != '/') && '\\' !in path && forall c :: c in path ==> !IsControl(c)
  }

  /** A path is accepted exactly when it is relative, plain, and never climbs above its start. */
  lemma ValidationIsExact(raw: string)
    ensures ValidateRelativePath(raw).Ok? <==> Acceptable(TrimSpace(raw)) && StaysInside(TrimSpace(raw))
    ensures ValidateRelativePath(raw).Traversal? <==> Acceptable(TrimSpace(raw)) && !StaysInside(TrimSpace(raw))
  {
    var path := TrimSpace(raw);
    InsideMeansNoUp(Start, Split(path));
    TraversalMeansUp(path);
    if path == "" || path == "." {
      assert Walk(Start, Split(path)).up == 0 by {
        SplitPlain(path);
        assert [path][1..] == [];
        assert Walk(Start, [path]) == Walk(Step(Start, path), []);
      }
    }
  }

  lemma TrimTwice(s: string)
    ensures TrimSpace(TrimSpace(s)) == TrimSpace(s)
  {
  }

  lemma CleanInside(path: string)
    requires Target(path).up == 0
    ensures Target(path) != Start ==> Split(Clean(path)) == Target(path).down
  {
    CleanIsRoute(path);
    assert Route(Target(path)) == Target(path).down;
  }

  /**
   A cleaned path names the place the original names, inside the start, with no ".." and nothing empty left in it;
   it is "" or "." only for the start itself.
   */
  lemma CleanedPathStaysInside(raw: string)
    requires CleanRelativePath(raw).Ok?
    ensures var c := CleanRelativePath(raw).path;
            && ValidateRelativePath(raw).Ok?
            && Target(c) == Target(TrimSpace(raw))
            && Target(c).up == 0
            && (Target(c) != Start ==> Split(c) == Target(c).down && Named(Target(c)))
            && (Target(c) == Start ==> c == "" || c == ".")
            && (c == "" <==> TrimSpace(raw) == "")
  {
    var path := TrimSpace(raw);
    TrimTwice(raw);
    TargetsOfTheStart();
    if path != "" {
      CleanReachesTheSamePlace(path);
      CleanIsRoute(path);
      CleanIsRelative(path);
      TraversalMeansUp(path);
      CleanInside(path);
    }
  }

  lemma TargetsOfTheStart()
    ensures Target("") == Start && Target(".") == Start
  {
    SplitPlain(".");
    assert ["."][1..] == [] && [""][1..] == [];
  }

  /* ---- Cleaning twice ---- */

  function Weight(segments: seq<string>): nat {
    if segments == [] then 0 else |segments[0]| + 1 + Weight(segments[1..])
  }

  lemma {:induction false} WeightOfConcat(left: seq<string>, right: seq<string>)
    ensures Weight(left + right) == Weight(left) + Weight(right)
  {
    if left == [] {
      assert left + right == right;
    } else {
      assert (left + right)[1..] == left[1..] + right;
      WeightOfConcat(left[1..], right);
    }
  }

  lemma {:induction false} WeightOfSplit(s: string)
    ensures Weight(Split(s)) == |s| + 1
  {
    if s != "" {
      WeightOfSplit(s[1..]);
      WeightOfConcat([""], Split(s[1..]));
    }
  }

  lemma {:induction false} FoldWeighsLess(out: seq<string>, segments: seq<string>)
    ensures Weight(Fold(out, segments)) <= Weight(out) + Weight(segments)
    decreases |segments|
  {
    if segments != [] {
      var next := Push(out, segments[0]);
      WeightOfConcat(out, [segments[0]]);
      if out != [] {
        assert out == out[..|out| - 1] + out[|out| - 1..];
        WeightOfConcat(out[..|out| - 1], out[|out| - 1..]);
      }
      FoldWeighsLess(next, segments[1..]);
    }
  }

  lemma CleanIsNotLonger(path: string)
    requires path != ""
    ensures |Clean(path)| <= |path|
  {
    CleanIsRoute(path);
    WeightOfSplit(path);
    WeightOfSplit(Clean(path));
    FoldWeighsLess([], Split(path));
  }

  predicate Over(s: string, letters: set<char>) {
    forall c :: c in s ==> c in letters
  }

  predicate AllOver(segments: seq<string>, letters: set<char>) {
    forall i :: 0 <= i < |segments| ==> Over(segments[i], letters)
  }

  lemma {:induction false} SplitOver(s: string, letters: set<char>)
    requires Over(s, letters)
    ensures AllOver(Split(s), letters)
  {
    if s != "" { SplitOver(s[1..], letters); }
  }

  lemma {:induction false} FoldOver(out: seq<string>, segments: seq<string>, letters: set<char>)
    requires AllOver(out, letters) && AllOver(segments, letters)
    ensures AllOver(Fold(out, segments), letters)
    decreases |segments|
  {
    if segments != [] { FoldOver(Push(out, segments[0]), segments[1..], letters); }
  }

  lemma {:induction false} JoinOver(segments: seq<string>, letters: set<char>)
    requires AllOver(segments, letters) && '/' in letters
    ensures Over(Join(segments), letters)
  {
    if |segments| > 1 { JoinOver(segments[1..], letters); }
  }

  /** No character comes in but the dot and the slash. */
  lemma CleanOver(path: string, letters: set<char>)
    requires Over(path, letters) && '/' in letters && '.' in letters
    ensures Over(Clean(path), letters)
  {
    SplitOver(path, letters);
    FoldOver([], Split(path), letters);
    JoinOver(Fold([], Split(path)), letters);
  }

  lemma CleanIsRelative(path: string)
    ensures Clean(path) != "" && Clean(path)[0] != '/'
  {
    CleanIsRoute(path);
    var c, p := Clean(path), Target(path);
    if p != Start { assert Route(p)[0] == ".." || (Route(p)[0] == p.down[0] && IsName(p.down[0])); }
    assert Split(c)[0] != "";
  }

  lemma CleanIsAcceptable(path: string)
    requires Acceptable(path)
    ensures Acceptable(Clean(path))
  {
    CleanIsRelative(path);
    CleanOver(path, (set c | c in path) + {'/', '.'});
  }

  /** Cleaning a cleaned path again gives it back exactly when it has no space at its ends to trim. */
  lemma CleaningTwice(raw: string)
    requires CleanRelativePath(raw).Ok?
    ensures var c := CleanRelativePath(raw).path;
            CleanRelativePath(c) == Ok(c) <==> TrimSpace(c) == c
  {
    var path, c := TrimSpace(raw), CleanRelativePath(raw).path;
    TrimTwice(raw);
    TrimTwice(c);
    CleanedPathStaysInside(raw);
    if TrimSpace(c) != c && TrimSpace(c) != "" {
      CleanIsNotLonger(TrimSpace(c));
    }
    if TrimSpace(c) == c && c != "" {
      ValidationIsExact(raw);
      CleanIsAcceptable(path);
      CleanIsIdempotent(path);
      InsideMeansNoUp(Start, Split(c));
      ValidationIsExact(c);
    }
  }

  lemma CleanedBy(raw: string, path: string)
    requires path == TrimSpace(raw) != "" && Acceptable(path) && Clean(path) != "" && Clean(path)[0] != '.'
    ensures CleanRelativePath(raw) == Ok(Clean(path))
  {
    TrimTwice(raw);
  }

  lemma OneName(name: string)
    requires IsName(name)
    ensures Clean(name) == name && Target(name) == Place(0, [name])
  {
    SplitPlain(name);
    WalkNames(Start, [name]);
    CleanIsRoute(name);
    assert seq(0, i => "..") + [name] == [name];
  }

  lemma ThereAndBack(name: string, other: string)
    requires IsName(name) && IsName(other)
    ensures Clean(name + "/" + (".." + "/" + other)) == other
  {
    var path := name + "/" + (".." + "/" + other);
    SplitPlain(other);
    SplitAtSlash("..", other);
    SplitAtSlash(name, ".." + "/" + other);
    var s := Split(path);
    assert s == [name, "..", other] && s[1..] == ["..", other] && s[1..][1..] == [other];
    assert Walk(Place(0, [name]), s[1..]) == Walk(Start, [other]);
    WalkNames(Start, [other]);
    CleanIsRoute(path);
    assert seq(0, i => "..") + [other] == [other];
  }

  predicate PlainName(name: string) {
    IsName(name) && '\\' !in name && name[0] != '.' && forall c :: c in name ==> !IsControl(c) && !IsSpace(c)
  }

  lemma PlainNamesAreTrimmed(s: string)
    requires s != "" && !IsSpace(s[0]) && !IsSpace(s[|s| - 1])
    ensures TrimSpace(s) == s && TrimSpace(" " + s) == s
  {
    assert (" " + s)[1..] == s;
  }

  /**
   It need not: for any two plain names, "name/../ other" is cleaned to " other" with the space in front, and that to
   "other", which is another place.
   */
  lemma CleaningTwiceCanMove(name: string, other: string)
    requires PlainName(name) && PlainName(other)
    ensures var raw := name + "/" + (".." + "/" + (" " + other));
            && CleanRelativePath(raw) == Ok(" " + other) && CleanRelativePath(" " + other) == Ok(other)
            && Target(" " + other) != Target(other)
  {
    var first := " " + other;
    var raw := name + "/" + (".." + "/" + first);
    PlainPath(name, other);
    ThereAndBack(name, first);
    OneName(first);
    OneName(other);
    PlainNamesAreTrimmed(raw);
    PlainNamesAreTrimmed(other);
    CleanedBy(raw, raw);
    CleanedBy(first, other);
  }

  lemma PlainPath(name: string, other: string)
    requires PlainName(name) && PlainName(other)
    ensures var first := " " + other; var raw := name + "/" + (".." + "/" + first);
            && raw[0] == name[0] && raw[|raw| - 1] == other[|other| - 1]
            && Acceptable(raw) && Acceptable(first) && IsName(first)
  {
    var first := " " + other;
    assert first[1] == other[0];
  }
}
