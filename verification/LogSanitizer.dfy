/**
 The build log sanitizer: a reader that hides credentials and the internal registry, line by line, and hands its output out
 in whatever pieces its caller asks for. The three regular-expression passes stay uninterpreted.
 */
module LogSanitizer {
  import Paths = RelativePath

  const PublishNotice := "[SYSTEM] Publishing image to internal registry...\n"
  const RegistryMark := "[internal-registry]"
  const ImageMark := "[internal-image]"
  const PublishWords := ["push", "pushed", "digest", "sha256:", "destination"]
  const KanikoPrefixes := ["INFO[", "WARN[", "ERRO[", "DEBU["]

  /* ---- Text ---- */

  ghost predicate Occurs(part: string, s: string) {
    exists i :: OccursAt(part, s, i)
  }

  ghost predicate OccursAt(part: string, s: string, i: int) {
    0 <= i <= |s| - |part| && forall k :: 0 <= k < |part| ==> s[i + k] == part[k]
  }

  function Contains(s: string, part: string): (found: bool)
    ensures found <==> Occurs(part, s)
  {
    if part <= s then
      assert OccursAt(part, s, 0);
      true
    else if s == "" then false
    else
      assert forall i :: OccursAt(part, s[1..], i) ==> OccursAt(part, s, i + 1);
      assert forall i :: OccursAt(part, s, i) ==> i > 0 && OccursAt(part, s[1..], i - 1);
      Contains(s[1..], part)
  }

  /** Leftmost occurrences first, none overlapping another. */
  function ReplaceAll(s: string, part: string, mark: string): string
    requires part != ""
  {
    if s == "" then ""
    else if part <= s then mark + ReplaceAll(s[|part|..], part, mark)
    else [s[0]] + ReplaceAll(s[1..], part, mark)
  }

  /** What lies between the occurrences that are replaced. */
  function Cut(s: string, part: string): (pieces: seq<string>)
    requires part != ""
    ensures |pieces| > 0
  {
    if s == "" then [""]
    else if part <= s then [""] + Cut(s[|part|..], part)
    else
      var rest := Cut(s[1..], part);
      [[s[0]] + rest[0]] + rest[1..]
  }

  function Join(pieces: seq<string>, mark: string): string {
    if pieces == [] then "" else if |pieces| == 1 then pieces[0] else pieces[0] + mark + Join(pieces[1..], mark)
  }

  lemma {:induction false} CutStartsTheText(s: string, part: string)
    requires part != ""
    ensures Cut(s, part)[0] <= s
  {
    if s != "" && !(part <= s) { CutStartsTheText(s[1..], part); }
  }

  /** Replacing is cutting and joining again: with the pattern it gives the text back, with the mark the result. */
  lemma {:induction false} ReplaceAllIsCutAndJoin(s: string, part: string, mark: string)
    requires part != ""
    ensures Join(Cut(s, part), mark) == ReplaceAll(s, part, mark)
    ensures Join(Cut(s, part), part) == s
  {
    if s == "" {
    } else if part <= s {
      ReplaceAllIsCutAndJoin(s[|part|..], part, mark);
      PrependEmpty(Cut(s[|part|..], part), mark);
      PrependEmpty(Cut(s[|part|..], part), part);
    } else {
      var rest := Cut(s[1..], part);
      ReplaceAllIsCutAndJoin(s[1..], part, mark);
      PrependJoin(s[0], rest, mark);
      PrependJoin(s[0], rest, part);
    }
  }

  lemma PrependEmpty(pieces: seq<string>, mark: string)
    requires pieces != []
    ensures Join([""] + pieces, mark) == mark + Join(pieces, mark)
  {
    assert ([""] + pieces)[1..] == pieces && "" + mark == mark;
  }

  lemma PrependJoin(c: char, pieces: seq<string>, mark: string)
    requires pieces != []
    ensures Join([[c] + pieces[0]] + pieces[1..], mark) == [c] + Join(pieces, mark)
  {
    var more := [[c] + pieces[0]] + pieces[1..];
    assert more[1..] == pieces[1..];
    if |pieces| > 1 { assert ([c] + pieces[0]) + mark + Join(pieces[1..], mark) == [c] + (pieces[0] + mark + Join(pieces[1..], mark)); }
  }

  /** No piece contains the pattern. */
  lemma {:induction false} PiecesAreClean(s: string, part: string, k: nat)
    requires part != "" && k < |Cut(s, part)|
    ensures !Occurs(part, Cut(s, part)[k])
  {
    if s == "" {
    } else if part <= s {
      if k > 0 { PiecesAreClean(s[|part|..], part, k - 1); }
    } else {
      var rest := Cut(s[1..], part);
      PiecesAreClean(s[1..], part, k);
      CutStartsTheText(s[1..], part);
      if k == 0 { PrependIsClean(part, s, rest[0]); }
    }
  }

  lemma PrependIsClean(part: string, s: string, piece: string)
    requires part != "" && s != "" && !(part <= s) && piece <= s[1..] && !Occurs(part, piece)
    ensures !Occurs(part, [s[0]] + piece)
  {
    var longer := [s[0]] + piece;
    assert longer <= s && longer[1..|longer|] == piece;
    forall i ensures !OccursAt(part, longer, i) {
      if OccursAt(part, longer, i) {
        if i > 0 { OccursWithin(part, longer, i, 1, |longer|); }
      }
    }
  }

  predicate NoBrackets(s: string) {
    '[' !in s && ']' !in s
  }

  lemma OccursWithin(part: string, s: string, i: int, from: int, to: int)
    requires OccursAt(part, s, i) && 0 <= from <= i && i + |part| <= to <= |s|
    ensures OccursAt(part, s[from..to], i - from)
  {
  }

  lemma CharOf(part: string, s: string, i: int, j: int)
    requires OccursAt(part, s, i) && i <= j < i + |part|
    ensures s[j] in part
  {
    assert s[i + (j - i)] == part[j - i];
  }

  /* ---- When replacing removes ---- */

  /** The leftmost occurrence. */
  ghost predicate FirstAt(part: string, s: string, i: int) {
    OccursAt(part, s, i) && forall j :: 0 <= j < i ==> !OccursAt(part, s, j)
  }

  lemma {:induction false} LeftmostExists(part: string, s: string, i: nat)
    requires OccursAt(part, s, i)
    ensures exists k: nat :: FirstAt(part, s, k)
  {
    if j: nat :| j < i && OccursAt(part, s, j) { LeftmostExists(part, s, j); } else { assert FirstAt(part, s, i); }
  }

  lemma TailOccurs(part: string, s: string, j: int)
    requires s != ""
    ensures OccursAt(part, s[1..], j) <==> j >= 0 && OccursAt(part, s, j + 1)
  {
    if j >= 0 && OccursAt(part, s, j + 1) {
      forall k | 0 <= k < |part| ensures s[1..][j + k] == part[k] { assert s[j + 1 + k] == part[k]; }
    }
    if OccursAt(part, s[1..], j) {
      forall k | 0 <= k < |part| ensures s[j + 1 + k] == part[k] { assert s[1..][j + k] == part[k]; }
    }
  }

  lemma {:induction false} ReplaceNone(s: string, part: string, mark: string)
    requires part != "" && !Occurs(part, s)
    ensures ReplaceAll(s, part, mark) == s
  {
    if s != "" {
      assert !OccursAt(part, s, 0);
      forall j ensures !OccursAt(part, s[1..], j) { TailOccurs(part, s, j); }
      ReplaceNone(s[1..], part, mark);
    }
  }

  lemma FirstInTail(part: string, s: string, i: nat)
    requires part != "" && FirstAt(part, s, i) && i > 0
    ensures FirstAt(part, s[1..], i - 1) && !(part <= s)
  {
    assert !OccursAt(part, s, 0);
    forall j | 0 <= j <= i - 1 ensures OccursAt(part, s[1..], j) <==> OccursAt(part, s, j + 1) { TailOccurs(part, s, j); }
  }

  /** The occurrence at i becomes the mark, and replacing goes on behind it. */
  ghost predicate ReplacedAt(s: string, part: string, mark: string, i: nat)
    requires part != ""
  {
    i + |part| <= |s| && ReplaceAll(s, part, mark) == s[..i] + (mark + ReplaceAll(s[i + |part|..], part, mark))
  }

  lemma {:induction false} ReplaceFirst(s: string, part: string, mark: string, i: nat)
    requires part != "" && FirstAt(part, s, i)
    ensures ReplacedAt(s, part, mark, i)
  {
    if i == 0 {
      ReplaceAtStart(s, part, mark);
    } else {
      FirstInTail(part, s, i);
      ReplaceFirst(s[1..], part, mark, i - 1);
      ReplaceStep(s, part, mark, i);
    }
  }

  lemma ReplaceStep(s: string, part: string, mark: string, i: nat)
    requires part != "" && s != "" && !(part <= s) && 0 < i && ReplacedAt(s[1..], part, mark, i - 1)
    ensures ReplacedAt(s, part, mark, i)
  {
    ReplaceLater(s, part, mark);
    FirstOfTail(s, mark + ReplaceAll(s[i + |part|..], part, mark), i, |part|);
  }

  lemma ReplaceAtStart(s: string, part: string, mark: string)
    requires part != "" && OccursAt(part, s, 0)
    ensures ReplacedAt(s, part, mark, 0)
  {
    assert part == s[..|part|] && s[..0] == "";
  }

  lemma ReplaceLater(s: string, part: string, mark: string)
    requires part != "" && s != "" && !(part <= s)
    ensures ReplaceAll(s, part, mark) == [s[0]] + ReplaceAll(s[1..], part, mark)
  {
  }

  lemma FirstOfTail(s: string, rest: string, i: nat, n: nat)
    requires 0 < i && i + n <= |s|
    ensures s[1..][i - 1 + n..] == s[i + n..] && [s[0]] + (s[1..][..i - 1] + rest) == s[..i] + rest
  {
    assert [s[0]] + s[1..][..i - 1] == s[..i];
  }

  /** The end of the mark begins the pattern. */
  ghost predicate BorderLeft(part: string, mark: string, k: int) {
    0 < k < |part| && k <= |mark| && mark[|mark| - k..] == part[..k]
  }

  /**
   The rest of the pattern from k on begins the mark, or the other way round; and a text that ends in the first k
   characters can stand before a pattern without being part of an earlier one.
   */
  ghost predicate BorderRight(part: string, mark: string, k: int) {
    && 0 < k < |part| && (part[k..] <= mark || mark <= part[k..])
    && FirstAt(part, part[..k] + part, k)
  }

  /** The ways in which a pattern can come back by its own replacement. */
  ghost predicate Border(part: string, mark: string) {
    Occurs(part, mark) || (exists k :: BorderLeft(part, mark, k)) || (exists k :: BorderRight(part, mark, k))
  }

  ghost predicate Survives(s: string, part: string, mark: string)
    requires part != ""
  {
    Occurs(part, ReplaceAll(s, part, mark))
  }

  /** Replacing a pattern by a mark removes it from every text exactly when the two have no border. */
  lemma ReplaceAllRemovesExactly(part: string, mark: string)
    requires part != "" && mark != ""
    ensures (forall s :: !Survives(s, part, mark)) <==> !Border(part, mark)
  {
    if Border(part, mark) {
      var s := BorderSurvives(part, mark);
      assert Survives(s, part, mark);
    } else {
      forall s ensures !Survives(s, part, mark) { Removes(s, part, mark); }
    }
  }

  lemma BorderSurvives(part: string, mark: string) returns (s: string)
    requires part != "" && mark != "" && Border(part, mark)
    ensures Occurs(part, ReplaceAll(s, part, mark))
  {
    if Occurs(part, mark) {
      s := part;
      ReplaceItself(part, mark);
    } else if k :| BorderLeft(part, mark, k) {
      s := SurvivesLeft(part, mark, k);
    } else {
      var k :| BorderRight(part, mark, k);
      s := SurvivesRight(part, mark, k);
    }
  }

  lemma OccursBetween(front: string, part: string, back: string)
    ensures OccursAt(part, front + part + back, |front|)
  {
  }

  lemma SurvivesLeft(part: string, mark: string, k: int) returns (s: string)
    requires part != "" && BorderLeft(part, mark, k)
    ensures Occurs(part, ReplaceAll(s, part, mark))
  {
    var rest := part[k..];
    s := part + rest;
    assert FirstAt(part, s, 0);
    ReplaceFirst(s, part, mark, 0);
    assert s[|part|..] == rest && s[..0] + mark == mark;
    TooLong(part, rest);
    ReplaceNone(rest, part, mark);
    MarkCompletes(part, mark, k);
  }

  lemma MarkCompletes(part: string, mark: string, k: int)
    requires BorderLeft(part, mark, k)
    ensures Occurs(part, mark + part[k..])
  {
    var front := mark[..|mark| - k];
    assert part == part[..k] + part[k..] && mark == front + part[..k];
    assert mark + part[k..] == front + part + "";
    OccursBetween(front, part, "");
  }

  lemma SurvivesRight(part: string, mark: string, k: int) returns (s: string)
    requires part != "" && BorderRight(part, mark, k)
    ensures Occurs(part, ReplaceAll(s, part, mark))
  {
    var front, back := part[..k], part[k..];
    var rest := if back <= mark then "" else back[|mark|..];
    s := front + part + rest;
    StaysFirst(part, k, rest);
    ReplaceFirst(s, part, mark, k);
    assert s[..k] == front && s[k + |part|..] == rest;
    TooLong(part, rest);
    ReplaceNone(rest, part, mark);
    assert part == front + back;
    assert front + (mark + rest) == front + mark + rest;
    if back <= mark { MarkGoesOn(front, back, mark); } else { MarkEndsFirst(front, back, mark); }
  }

  lemma MarkGoesOn(front: string, back: string, mark: string)
    requires back <= mark
    ensures Occurs(front + back, front + mark + "")
  {
    assert mark == back + mark[|back|..];
    assert front + mark + "" == "" + (front + back) + mark[|back|..];
    OccursBetween("", front + back, mark[|back|..]);
  }

  lemma MarkEndsFirst(front: string, back: string, mark: string)
    requires mark <= back
    ensures Occurs(front + back, front + mark + back[|mark|..])
  {
    assert back == mark + back[|mark|..];
    assert front + mark + back[|mark|..] == "" + (front + back) + "";
    OccursBetween("", front + back, "");
  }

  lemma StaysFirst(part: string, k: int, rest: string)
    requires 0 < k < |part| && FirstAt(part, part[..k] + part, k)
    ensures FirstAt(part, part[..k] + part + rest, k)
  {
    var s := part[..k] + part + rest;
    forall j | 0 <= j < k ensures !OccursAt(part, s, j) {
      if OccursAt(part, s, j) {
        assert s[0..k + |part|] == part[..k] + part;
        OccursWithin(part, s, j, 0, k + |part|);
      }
    }
    OccursBetween(part[..k], part, rest);
  }

  lemma {:induction false} Removes(s: string, part: string, mark: string)
    requires part != "" && mark != "" && !Border(part, mark)
    ensures !Occurs(part, ReplaceAll(s, part, mark))
    decreases |s|
  {
    if !Occurs(part, s) {
      ReplaceNone(s, part, mark);
    } else {
      var n: nat :| OccursAt(part, s, n);
      LeftmostExists(part, s, n);
      var i: nat :| FirstAt(part, s, i);
      ReplaceFirst(s, part, mark, i);
      var rest := ReplaceAll(s[i + |part|..], part, mark);
      assert s[..i] + (mark + rest) == s[..i] + mark + rest;
      Removes(s[i + |part|..], part, mark);
      forall at ensures !OccursAt(part, s[..i] + mark + rest, at) {
        if OccursAt(part, s[..i] + mark + rest, at) { OccurrenceHasBorder(s, part, mark, rest, i, at); }
      }
    }
  }

  /** Wherever the pattern occurs around the first mark, it has a border with it. */
  lemma OccurrenceHasBorder(s: string, part: string, mark: string, rest: string, i: nat, at: int)
    requires part != "" && mark != "" && FirstAt(part, s, i) && !Occurs(part, rest)
    requires OccursAt(part, s[..i] + mark + rest, at)
    ensures Border(part, mark)
  {
    var result, end := s[..i] + mark + rest, at + |part|;
    var close := i + |mark|;
    assert result[0..i] == s[..i] && result[i..close] == mark && result[close..|result|] == rest;
    if at >= close {
      OccursWithin(part, result, at, close, |result|);
      assert Occurs(part, rest);
    } else if end <= i {
      OccursWithin(part, result, at, 0, i);
      assert OccursAt(part, s, at);
    } else if at >= i && end <= close {
      OccursWithin(part, result, at, i, close);
    } else if at >= i {
      LeftBorder(part, mark, result, i, at);
    } else {
      RightBorder(s, part, mark, result, i, at);
    }
  }

  lemma LeftBorder(part: string, mark: string, result: string, i: nat, at: int)
    requires OccursAt(part, result, at) && i <= at < i + |mark| < at + |part| && i + |mark| <= |result|
    requires result[i..i + |mark|] == mark
    ensures BorderLeft(part, mark, i + |mark| - at)
  {
    var k := i + |mark| - at;
    forall j | 0 <= j < k ensures mark[|mark| - k..][j] == part[..k][j] {
      assert result[at + j] == part[j] && result[i..i + |mark|][|mark| - k + j] == result[at + j];
    }
    assert mark[|mark| - k..] == part[..k];
  }

  lemma RightBorder(s: string, part: string, mark: string, result: string, i: nat, at: int)
    requires OccursAt(part, result, at) && FirstAt(part, s, i) && 0 <= at < i < at + |part| && i + |mark| <= |result|
    requires result[0..i] == s[..i] && result[i..i + |mark|] == mark
    ensures BorderRight(part, mark, i - at)
  {
    var k := i - at;
    RestMeetsMark(part, mark, result, i, at);
    forall j | 0 <= j < k ensures s[at + j] == part[j] {
      assert result[at + j] == part[j] && result[0..i][at + j] == s[..i][at + j];
    }
    FrontStaysFirst(s, part, at, k);
  }

  lemma RestMeetsMark(part: string, mark: string, result: string, i: nat, at: int)
    requires OccursAt(part, result, at) && 0 <= at < i < at + |part| && i + |mark| <= |result|
    requires result[i..i + |mark|] == mark
    ensures part[i - at..] <= mark || mark <= part[i - at..]
  {
    var k := i - at;
    var back := part[k..];
    forall j | 0 <= j < |back| && j < |mark| ensures back[j] == mark[j] {
      assert result[at + (k + j)] == part[k + j] && result[i..i + |mark|][j] == result[i + j];
    }
    if |back| <= |mark| { assert back == mark[..|back|]; } else { assert mark == back[..|mark|]; }
  }

  lemma FrontStaysFirst(s: string, part: string, at: nat, k: nat)
    requires FirstAt(part, s, at + k) && 0 < k < |part| && forall j :: 0 <= j < k ==> s[at + j] == part[j]
    ensures FirstAt(part, part[..k] + part, k)
  {
    var text := part[..k] + part;
    OccursBetween(part[..k], part, "");
    assert text + "" == text;
    forall j | 0 <= j < |text| ensures text[j] == s[at + j] {
      if j >= k { assert s[at + k + (j - k)] == part[j - k]; }
    }
    forall j | 0 <= j < k ensures !OccursAt(part, text, j) {
      if OccursAt(part, text, j) { Shifted(part, text, s, at, j); }
    }
  }

  lemma Shifted(part: string, text: string, s: string, at: nat, j: nat)
    requires OccursAt(part, text, j) && at + |text| <= |s| && forall k :: 0 <= k < |text| ==> text[k] == s[at + k]
    ensures OccursAt(part, s, at + j)
  {
    forall k | 0 <= k < |part| ensures s[at + j + k] == part[k] { assert text[j + k] == s[at + (j + k)]; }
  }

  predicate Bracketed(mark: string) {
    |mark| >= 2 && mark[0] == '[' && mark[|mark| - 1] == ']'
  }

  lemma LeftBorderChars(part: string, mark: string, k: int)
    requires BorderLeft(part, mark, k)
    ensures mark[|mark| - 1] == part[k - 1] && mark[|mark| - k] == part[0]
  {
    assert mark[|mark| - k..][k - 1] == part[..k][k - 1];
    assert mark[|mark| - k..][0] == part[..k][0];
  }

  lemma RightBorderChar(part: string, mark: string, k: int)
    requires BorderRight(part, mark, k) && mark != ""
    ensures part[k] == mark[0]
  {
    assert part[k..][0] == part[k];
  }

  /** A pattern without brackets has a border with a bracketed mark only by occurring in it. */
  lemma NoBracketsNoBorder(part: string, mark: string)
    requires part != "" && NoBrackets(part) && Bracketed(mark)
    ensures Border(part, mark) <==> Occurs(part, mark)
  {
    if k :| BorderLeft(part, mark, k) { LeftBorderChars(part, mark, k); }
    if k :| BorderRight(part, mark, k) { RightBorderChar(part, mark, k); }
  }

  /** Nor has one that begins with its only opening bracket, as an address in brackets does, unless it begins with the mark. */
  lemma LeadingBracketNoBorder(part: string, mark: string)
    requires part != "" && part[0] == '[' && '[' !in part[1..] && Bracketed(mark) && '[' !in mark[1..]
    ensures Border(part, mark) <==> Occurs(part, mark) || (mark <= part && mark != part)
  {
    if k :| BorderLeft(part, mark, k) {
      LeftBorderChars(part, mark, k);
      if k < |mark| { InTail(mark, |mark| - k); }
      assert mark[|mark| - k..] == mark == part[..k];
    }
    if k :| BorderRight(part, mark, k) {
      RightBorderChar(part, mark, k);
      InTail(part, k);
    }
    if mark <= part && mark != part {
      assert mark[|mark| - |mark|..] == mark == part[..|mark|];
      assert BorderLeft(part, mark, |mark|);
    }
  }

  lemma InTail(s: string, i: int)
    requires 0 < i < |s|
    ensures s[i] in s[1..]
  {
    assert s[1..][i - 1] == s[i];
  }

  /**
   Replacing a pattern without brackets by a bracketed mark really removes it from every text, exactly when the mark does
   not contain it.
   */
  lemma ReplaceAllRemoves(part: string, mark: string)
    requires part != "" && NoBrackets(part) && Bracketed(mark)
    ensures (forall s :: !Survives(s, part, mark)) <==> !Occurs(part, mark)
  {
    NoBracketsNoBorder(part, mark);
    ReplaceAllRemovesExactly(part, mark);
  }

  lemma ReplaceItself(part: string, mark: string)
    requires part != ""
    ensures ReplaceAll(part, part, mark) == mark
  {
    assert part[|part|..] == "" && mark + "" == mark;
  }

  /* ---- Lines ---- */

  function LineEnd(s: string): (n: nat)
    ensures n <= |s| && (s != "" ==> n > 0)
    ensures n < |s| ==> s[n - 1] == '\n'
  {
    if s == "" then 0 else if s[0] == '\n' then 1 else 1 + LineEnd(s[1..])
  }

  /** The lines of a text, each with its line break; only the last may lack one. */
  function Lines(s: string): seq<string> {
    if s == "" then [] else [s[..LineEnd(s)]] + Lines(s[LineEnd(s)..])
  }

  /* ---- One line ---- */

  /** Lower case as far as it can produce an ASCII letter: two letters outside ASCII do. */
  function Lower(c: char): char {
    if 'A' <= c <= 'Z' then c - 'A' + 'a' else if c as int == 0x130 then 'i' else if c as int == 0x212A then 'k' else c
  }

  function ToLower(s: string): string {
    seq(|s|, i requires 0 <= i < |s| => Lower(s[i]))
  }

  function IsKanikoLogLine(line: string): bool {
    exists i :: 0 <= i < |KanikoPrefixes| && KanikoPrefixes[i] <= Paths.TrimSpace(line)
  }

  function HasPublishDetail(lower: string): bool {
    exists i :: 0 <= i < |PublishWords| && Contains(lower, PublishWords[i])
  }

  /** What a sanitizer is configured with; the passes stand for its regular expressions. */
  datatype Options = Options(
    registryURL: string, destinationTag: string,
    authorizationPass: string -> string, credentialPass: string -> string, imagePass: string -> string)

  function IsInternalPublishLine(o: Options, line: string): bool {
    HasPublishDetail(ToLower(line)) &&
    ((o.registryURL != "" && Contains(line, o.registryURL)) || (o.destinationTag != "" && Contains(line, o.destinationTag))
     || IsKanikoLogLine(line))
  }

  function Redact(o: Options, line: string): string {
    var redacted := o.credentialPass(o.authorizationPass(line));
    var untagged := if o.destinationTag != "" then ReplaceAll(redacted, o.destinationTag, ImageMark) else redacted;
    if o.registryURL != "" then ReplaceAll(o.imagePass(untagged), o.registryURL, RegistryMark) else untagged
  }

  function SanitizeLine(o: Options, line: string, shown: bool): string {
    if IsInternalPublishLine(o, line) then if shown then "" else PublishNotice
    else Redact(o, line)
  }

  /** Whether the notice has been shown once these lines are done. */
  function ShownAfter(o: Options, lines: seq<string>, shown: bool): bool {
    shown || exists i :: 0 <= i < |lines| && IsInternalPublishLine(o, lines[i])
  }

  /** The line map: line i becomes what it is sanitized to after the lines before it. */
  function Sanitized(o: Options, lines: seq<string>, shown: bool): seq<string> {
    seq(|lines|, i requires 0 <= i < |lines| => SanitizeLine(o, lines[i], ShownAfter(o, lines[..i], shown)))
  }

  function Concat(parts: seq<string>): string {
    if parts == [] then "" else parts[0] + Concat(parts[1..])
  }

  /** The whole output for a source. */
  function Output(o: Options, source: string, shown: bool): string {
    Concat(Sanitized(o, Lines(source), shown))
  }

  lemma SanitizedStep(o: Options, lines: seq<string>, shown: bool)
    requires lines != []
    ensures Sanitized(o, lines, shown)
            == [SanitizeLine(o, lines[0], shown)] + Sanitized(o, lines[1..], shown || IsInternalPublishLine(o, lines[0]))
  {
    var later := shown || IsInternalPublishLine(o, lines[0]);
    assert ShownAfter(o, lines[..0], shown) == shown;
    forall i | 0 <= i < |lines| - 1
      ensures ShownAfter(o, lines[..i + 1], shown) == ShownAfter(o, lines[1..][..i], later)
    {
      ShownStep(o, lines, shown, i + 1);
      assert lines[1..][..i] == lines[1..i + 1];
    }
    SanitizedBy(o, lines, shown, later);
  }

  lemma SanitizedAt(o: Options, lines: seq<string>, shown: bool, later: bool, i: nat)
    requires i + 1 < |lines| && ShownAfter(o, lines[..i + 1], shown) == ShownAfter(o, lines[1..][..i], later)
    ensures Sanitized(o, lines, shown)[i + 1] == Sanitized(o, lines[1..], later)[i]
  {
    assert lines[1..][i] == lines[i + 1];
  }

  lemma SanitizedBy(o: Options, lines: seq<string>, shown: bool, later: bool)
    requires lines != [] && ShownAfter(o, lines[..0], shown) == shown
    requires forall i :: 0 <= i < |lines| - 1 ==> ShownAfter(o, lines[..i + 1], shown) == ShownAfter(o, lines[1..][..i], later)
    ensures Sanitized(o, lines, shown) == [SanitizeLine(o, lines[0], shown)] + Sanitized(o, lines[1..], later)
  {
    var all, tail := Sanitized(o, lines, shown), Sanitized(o, lines[1..], later);
    forall i | 0 <= i < |tail| ensures all[i + 1] == tail[i] { SanitizedAt(o, lines, shown, later, i); }
  }

  lemma OutputStep(o: Options, source: string, shown: bool)
    requires source != ""
    ensures var line := source[..LineEnd(source)];
            Output(o, source, shown) == SanitizeLine(o, line, shown) + Output(o, source[LineEnd(source)..], shown || IsInternalPublishLine(o, line))
  {
    var line, rest := source[..LineEnd(source)], Lines(source[LineEnd(source)..]);
    var lines := Lines(source);
    assert lines[0] == line && lines[1..] == rest;
    SanitizedStep(o, lines, shown);
    var all := Sanitized(o, lines, shown);
    assert all[1..] == Sanitized(o, rest, shown || IsInternalPublishLine(o, line));
  }

  lemma ShownStep(o: Options, lines: seq<string>, shown: bool, n: nat)
    requires 0 < n <= |lines|
    ensures ShownAfter(o, lines[..n], shown) == ShownAfter(o, lines[1..n], shown || IsInternalPublishLine(o, lines[0]))
  {
    var most, rest := lines[..n], lines[1..n];
    assert forall i :: 0 <= i < |rest| ==> rest[i] == most[i + 1];
    assert forall i :: 0 < i < |most| ==> most[i] == rest[i - 1];
    assert most[0] == lines[0];
  }

  /** At most one line yields the publish notice: the first one, and only if it was not shown before. */
  lemma NoticeComesOnce(o: Options, lines: seq<string>, shown: bool, i: nat, j: nat)
    requires i < j < |lines| && IsInternalPublishLine(o, lines[i]) && IsInternalPublishLine(o, lines[j])
    ensures Sanitized(o, lines, shown)[j] == ""
    ensures Sanitized(o, lines, shown)[i] == PublishNotice ==> !shown && forall k :: 0 <= k < i ==> !IsInternalPublishLine(o, lines[k])
  {
    assert lines[..j][i] == lines[i];
    forall k | 0 <= k < i ensures lines[..i][k] == lines[k] { }
  }

  /* ---- The reader ---- */

  /** How the wrapped reader ends. */
  datatype End = EOF | Broken

  datatype ReadErr = NoError | Ended(end: End)

  class BuildLogSanitizer {
    const o: Options
    const end: End
    var source: string       // what the buffered reader has still to deliver
    var pending: string
    var publishShown: bool

    constructor (o: Options, source: string, end: End)
      ensures this.o == o && Rest() == Output(o, source, false) && this.end == end
    {
      this.o, this.source, this.end, pending, publishShown := o, source, end, "", false;
    }

    /** Everything still to be read from this sanitizer. */
    ghost function Rest(): string
      reads this
    {
      pending + Output(o, source, publishShown)
    }

    method ReadString() returns (line: string, err: ReadErr)
      modifies this`source
      ensures line == old(source)[..LineEnd(old(source))] && source == old(source)[LineEnd(old(source))..]
      ensures err == if line != "" && line[|line| - 1] == '\n' then NoError else Ended(end)
    {
      var n := LineEnd(source);
      line, source := source[..n], source[n..];
      return line, if line != "" && line[|line| - 1] == '\n' then NoError else Ended(end);
    }

    method Sanitize(line: string) returns (out: string)
      modifies this`publishShown
      ensures out == SanitizeLine(o, line, old(publishShown))
      ensures publishShown == (old(publishShown) || IsInternalPublishLine(o, line))
    {
      if IsInternalPublishLine(o, line) {
        if publishShown { return ""; }
        publishShown := true;
        return PublishNotice;
      }
      out := o.credentialPass(o.authorizationPass(line));
      if o.destinationTag != "" { out := ReplaceAll(out, o.destinationTag, ImageMark); }
      if o.registryURL != "" {
        out := o.imagePass(out);
        out := ReplaceAll(out, o.registryURL, RegistryMark);
      }
    }

    /** One line becomes pending. The wrapped reader fails only once it has nothing more. */
    method NextLine() returns (failed: ReadErr)
      requires pending == ""
      modifies this`source, this`pending, this`publishShown
      ensures Rest() == old(Rest())
      ensures failed.NoError? ==> |source| < |old(source)|
      ensures failed.Ended? ==> Rest() == pending && failed.end == end
    {
      ghost var whole := source;
      var line;
      line, failed := ReadString();
      if line == "" { return; }
      OutputStep(o, whole, publishShown);
      pending := Sanitize(line);
    }

    /**
     Delivers the next piece of what is still to be read, some of it unless nothing was asked for; it ends exactly when
     nothing is left. A source that breaks off still has its last partial line delivered first.
     */
    method Read(size: nat) returns (chunk: string, err: ReadErr)
      modifies this`source, this`pending, this`publishShown
      ensures |chunk| <= size && old(Rest()) == chunk + Rest()
      ensures err.Ended? <==> old(Rest()) == ""
      ensures err.Ended? ==> err.end == end
      ensures err.NoError? && size > 0 ==> chunk != ""
    {
      err := Fill();
      if err.Ended? { return "", err; }
      chunk := Take(size);
    }

    /** Goes on to the next line that is not sanitized away. */
    method Fill() returns (err: ReadErr)
      modifies this`source, this`pending, this`publishShown
      ensures Rest() == old(Rest())
      ensures err.NoError? ==> pending != ""
      ensures err.Ended? ==> Rest() == "" && err.end == end
    {
      while pending == ""
        invariant Rest() == old(Rest())
        decreases |source|
      {
        err := NextLine();
        if pending != "" { break; }
        if err.Ended? { return; }
      }
      return NoError;
    }

    method Take(size: nat) returns (chunk: string)
      requires pending != ""
      modifies this`pending
      ensures |chunk| <= size && old(Rest()) == chunk + Rest() && old(Rest()) != "" && (size > 0 ==> chunk != "")
    {
      var n := if size < |pending| then size else |pending|;
      chunk, pending := pending[..n], pending[n..];
    }
  }

  /**
   Reading with any positive buffer sizes: what was read so far is the start of the line map's output, and at the end it
   is all of it, however it was cut up. The end comes after at most as many reads as there are characters.
   */
  method ReadAll(r: BuildLogSanitizer, sizes: seq<nat>) returns (text: string, err: ReadErr)
    requires forall i :: 0 <= i < |sizes| ==> sizes[i] > 0
    modifies r
    ensures text + r.Rest() == old(r.Rest())
    ensures err.Ended? ==> text == old(r.Rest())
    ensures |sizes| > |old(r.Rest())| ==> err.Ended?
  {
    text, err := "", NoError;
    ghost var whole := r.Rest();
    for i := 0 to |sizes|
      invariant text + r.Rest() == whole && |text| >= i && err.NoError?
    {
      var chunk;
      ghost var rest := r.Rest();
      chunk, err := r.Read(sizes[i]);
      assert text + rest == (text + chunk) + r.Rest();
      text := text + chunk;
      if err.Ended? { return; }
    }
  }

  /* ---- What the output does not show ---- */

  lemma OccursInFront(part: string, whole: string, s: string)
    requires part <= whole && Occurs(whole, s)
    ensures Occurs(part, s)
  {
    var i :| OccursAt(whole, s, i);
    assert OccursAt(part, s, i);
  }

  /** The registry's address and, with it, the destination tag that starts with it are in no sanitized line. */
  lemma LinesHideTheRegistry(o: Options, line: string, shown: bool)
    requires o.registryURL != "" && !Border(o.registryURL, RegistryMark) && !Occurs(o.registryURL, PublishNotice)
    ensures !Occurs(o.registryURL, SanitizeLine(o, line, shown))
    ensures o.registryURL <= o.destinationTag ==> !Occurs(o.destinationTag, SanitizeLine(o, line, shown))
  {
    if !IsInternalPublishLine(o, line) {
      var redacted := o.credentialPass(o.authorizationPass(line));
      var untagged := if o.destinationTag != "" then ReplaceAll(redacted, o.destinationTag, ImageMark) else redacted;
      Removes(o.imagePass(untagged), o.registryURL, RegistryMark);
    }
    if o.registryURL <= o.destinationTag && Occurs(o.destinationTag, SanitizeLine(o, line, shown)) {
      OccursInFront(o.registryURL, o.destinationTag, SanitizeLine(o, line, shown));
    }
  }

  /** No line of the output can be made to contain this text. */
  ghost predicate HiddenInLines(o: Options, part: string) {
    forall line, shown :: !Occurs(part, SanitizeLine(o, line, shown))
  }

  /** The passes leave this text as it is. */
  predicate LeavesAlone(o: Options, text: string) {
    && o.authorizationPass(text) == text && o.credentialPass(text) == text && o.imagePass(text) == text
    && (o.destinationTag != "" ==> |o.destinationTag| > |text|)
  }

  /**
   For an address without brackets that the passes leave alone when it stands by itself: it is hidden in every line exactly
   when neither the mark nor the notice contains it.
   */
  lemma HidesExactly(o: Options)
    requires o.registryURL != "" && NoBrackets(o.registryURL) && LeavesAlone(o, o.registryURL)
    ensures HiddenInLines(o, o.registryURL)
            <==> !Occurs(o.registryURL, RegistryMark) && !Occurs(o.registryURL, PublishNotice)
  {
    NoBracketsNoBorder(o.registryURL, RegistryMark);
    if !Occurs(o.registryURL, RegistryMark) && !Occurs(o.registryURL, PublishNotice) {
      forall line, shown ensures !Occurs(o.registryURL, SanitizeLine(o, line, shown)) { LinesHideTheRegistry(o, line, shown); }
    } else if Occurs(o.registryURL, RegistryMark) {
      AddressInMarkIsShown(o);
      assert Occurs(o.registryURL, SanitizeLine(o, o.registryURL, false));
    } else {
      var line := "INFO[push";
      PublishingLine(o, line);
      assert SanitizeLine(o, line, false) == PublishNotice;
    }
  }

  /** A line that is just the address is replaced by the mark, and shows the address in it. */
  lemma AddressInMarkIsShown(o: Options)
    requires o.registryURL != "" && LeavesAlone(o, o.registryURL) && Occurs(o.registryURL, RegistryMark)
    ensures SanitizeLine(o, o.registryURL, false) == RegistryMark
  {
    PartOfMarkIsPlain(o, o.registryURL);
    if o.destinationTag != "" {
      TooLong(o.destinationTag, o.registryURL);
      ReplaceNone(o.registryURL, o.destinationTag, ImageMark);
    }
    ReplaceItself(o.registryURL, RegistryMark);
  }

  lemma TooLong(part: string, s: string)
    requires |part| > |s|
    ensures !Occurs(part, s)
  {
  }

  /** No part of the mark is an internal publish line: every publish word has a letter that the mark has not. */
  lemma PartOfMarkIsPlain(o: Options, line: string)
    requires Occurs(line, RegistryMark)
    ensures !IsInternalPublishLine(o, line)
  {
    var lower := ToLower(line);
    forall c | c in lower ensures c !in PublishLetters {
      var k :| 0 <= k < |line| && lower[k] == c;
      OccursMeansChars(line, RegistryMark, line[k]);
      MarkHasNoPublishLetters(line[k]);
    }
    forall w | 0 <= w < |PublishWords| && Occurs(PublishWords[w], lower) ensures false {
      var c := WordHasLetter(w);
      OccursMeansChars(PublishWords[w], lower, c);
    }
  }

  const PublishLetters := {'p', 'd', ':'}

  lemma MarkHasNoPublishLetters(c: char)
    requires c in RegistryMark
    ensures Lower(c) !in PublishLetters
  {
  }

  lemma WordHasLetter(w: nat) returns (c: char)
    requires w < |PublishWords|
    ensures c in PublishLetters && c in PublishWords[w]
  {
    var word := PublishWords[w];
    c := if word[0] == 'p' || word[0] == 'd' then word[0] else word[6];
  }

  lemma OccursMeansChars(part: string, s: string, c: char)
    requires Occurs(part, s) && c in part
    ensures c in s
  {
    var i :| OccursAt(part, s, i);
    var k :| 0 <= k < |part| && part[k] == c;
    assert s[i + k] == c;
  }

  lemma PublishingLine(o: Options, line: string)
    requires line == "INFO[push"
    ensures IsInternalPublishLine(o, line)
  {
    assert OccursAt("push", ToLower(line), 5);
    assert Contains(ToLower(line), PublishWords[0]);
    assert Paths.TrimSpace(line) == line && KanikoPrefixes[0] <= line;
  }

  predicate Terminated(s: string) {
    s == "" || s[|s| - 1] == '\n'
  }

  /** The passes take no line break away: none of the expressions matches a break that ends a line. */
  ghost predicate KeepsBreaks(pass: string -> string) {
    forall s {:trigger pass(s)} :: s != "" && Terminated(s) ==> pass(s) != "" && Terminated(pass(s))
  }

  lemma {:induction false} ReplaceKeepsBreak(s: string, part: string, mark: string)
    requires part != "" && '\n' !in part && s != "" && Terminated(s)
    ensures ReplaceAll(s, part, mark) != "" && Terminated(ReplaceAll(s, part, mark))
  {
    if part <= s {
      ReplaceKeepsBreak(s[|part|..], part, mark);
    } else if |s| > 1 {
      ReplaceKeepsBreak(s[1..], part, mark);
    } else {
      assert ReplaceAll(s[1..], part, mark) == "";
    }
  }

  lemma RedactedStaysTerminated(o: Options, line: string)
    requires KeepsBreaks(o.authorizationPass) && KeepsBreaks(o.credentialPass) && KeepsBreaks(o.imagePass)
    requires '\n' !in o.registryURL && '\n' !in o.destinationTag && line != "" && Terminated(line)
    ensures Terminated(Redact(o, line))
  {
    var redacted := o.credentialPass(o.authorizationPass(line));
    if o.destinationTag != "" { ReplaceKeepsBreak(redacted, o.destinationTag, ImageMark); }
    var untagged := if o.destinationTag != "" then ReplaceAll(redacted, o.destinationTag, ImageMark) else redacted;
    if o.registryURL != "" { ReplaceKeepsBreak(o.imagePass(untagged), o.registryURL, RegistryMark); }
  }

  lemma LineStaysTerminated(o: Options, line: string, shown: bool)
    requires KeepsBreaks(o.authorizationPass) && KeepsBreaks(o.credentialPass) && KeepsBreaks(o.imagePass)
    requires '\n' !in o.registryURL && '\n' !in o.destinationTag && line != "" && Terminated(line)
    ensures Terminated(SanitizeLine(o, line, shown))
  {
    RedactedStaysTerminated(o, line);
  }

  lemma AcrossTheBreak(part: string, left: string, right: string)
    requires part != "" && '\n' !in part && Terminated(left) && Occurs(part, left + right)
    ensures Occurs(part, left) || Occurs(part, right)
  {
    var s := left + right;
    var i :| OccursAt(part, s, i);
    var last := |left| - 1;
    if i <= last < i + |part| { CharOf(part, s, i, last); }
    assert s[0..|left|] == left && s[|left|..|s|] == right;
    if i + |part| <= |left| { OccursWithin(part, s, i, 0, |left|); } else { OccursWithin(part, s, i, |left|, |s|); }
  }

  lemma JoinedLinesHide(part: string, line: string, output: string, rest: string)
    requires part != "" && '\n' !in part && !Occurs(part, line) && !Occurs(part, output)
    requires (rest != "" ==> Terminated(line)) && (rest == "" ==> output == "")
    ensures !Occurs(part, line + output)
  {
    if rest == "" { assert line + output == line; }
    else if Occurs(part, line + output) { AcrossTheBreak(part, line, output); }
  }

  /** Neither the passes nor the replacements take the break off a line. */
  ghost predicate BreaksStay(o: Options) {
    && KeepsBreaks(o.authorizationPass) && KeepsBreaks(o.credentialPass) && KeepsBreaks(o.imagePass)
    && '\n' !in o.registryURL && '\n' !in o.destinationTag
  }

  lemma HiddenInNext(o: Options, part: string, line: string, shown: bool, rest: string, output: string)
    requires part != "" && '\n' !in part && HiddenInLines(o, part) && !Occurs(part, output) && BreaksStay(o)
    requires line != "" && (rest != "" ==> Terminated(line)) && (rest == "" ==> output == "")
    ensures !Occurs(part, SanitizeLine(o, line, shown) + output)
  {
    if rest != "" { LineStaysTerminated(o, line, shown); }
    JoinedLinesHide(part, SanitizeLine(o, line, shown), output, rest);
  }

  lemma {:induction false} HiddenAcrossLines(o: Options, part: string, source: string, shown: bool)
    requires part != "" && '\n' !in part && HiddenInLines(o, part) && BreaksStay(o)
    ensures !Occurs(part, Output(o, source, shown))
    decreases |source|
  {
    if source != "" {
      var line, rest := source[..LineEnd(source)], source[LineEnd(source)..];
      var later := shown || IsInternalPublishLine(o, line);
      OutputStep(o, source, shown);
      HiddenAcrossLines(o, part, rest, later);
      HiddenInNext(o, part, line, shown, rest, Output(o, rest, later));
    }
  }

  /** Nor are they anywhere in the whole output, across lines or not. */
  lemma OutputHidesTheRegistry(o: Options, source: string, shown: bool)
    requires o.registryURL != "" && BreaksStay(o)
    requires !Border(o.registryURL, RegistryMark) && !Occurs(o.registryURL, PublishNotice)
    ensures !Occurs(o.registryURL, Output(o, source, shown))
    ensures o.registryURL <= o.destinationTag ==> !Occurs(o.destinationTag, Output(o, source, shown))
  {
    forall line, now ensures !Occurs(o.registryURL, SanitizeLine(o, line, now)) { LinesHideTheRegistry(o, line, now); }
    HiddenAcrossLines(o, o.registryURL, source, shown);
    if o.registryURL <= o.destinationTag && Occurs(o.destinationTag, Output(o, source, shown)) {
      OccursInFront(o.registryURL, o.destinationTag, Output(o, source, shown));
    }
  }
}
