// Path segments: the cursor loop of string_util.hpp.
module Paths {
  // ----- the segments of a path

  /** The first '/' at or after `from`, or the length. */
  function FindSlash(s: string, from: nat): (k: nat)
    requires from <= |s|
    ensures from <= k <= |s|
    ensures '/' !in s[from..k]
    ensures k < |s| ==> s[k] == '/'
    decreases |s| - from
  {
    if from == |s| || s[from] == '/' then from
    else
      var k := FindSlash(s, from + 1);
      assert s[from..k] == [s[from]] + s[from + 1..k];
      k
  }

  /** The pieces between slashes; a path without a slash is one piece. */
  function Split(s: string): seq<string>
    decreases |s|
  {
    var k := FindSlash(s, 0);
    if k == |s| then [s] else [s[..k]] + Split(s[k + 1..])
  }

  function NonEmpty(pieces: seq<string>): seq<string> {
    if pieces == [] then []
    else (if pieces[0] == "" then [] else [pieces[0]]) + NonEmpty(pieces[1..])
  }

  /** What a path consists of. */
  function Segments(s: string): seq<string> {
    NonEmpty(Split(s))
  }

  /** A path that can be cut by the cursor loop: empty, or starting with a slash, as a target in
      origin-form does (section 3.2.1 of RFC 9112). */
  predicate IsRooted(s: string) {
    s == "" || s[0] == '/'
  }

  lemma {:induction false} NonEmptyConcat(a: seq<string>, b: seq<string>)
    ensures NonEmpty(a + b) == NonEmpty(a) + NonEmpty(b)
  {
    if a == [] {
      assert a + b == b;
    } else {
      assert (a + b)[1..] == a[1..] + b;
      NonEmptyConcat(a[1..], b);
    }
  }

  lemma {:induction false} FindSlashFrom(s: string, a: nat, from: nat)
    requires a <= from <= |s|
    ensures FindSlash(s[a..], from - a) == FindSlash(s, from) - a
    decreases |s| - from
  {
    if from < |s| && s[from] != '/' {
      FindSlashFrom(s, a, from + 1);
    }
  }

  lemma {:induction false} FindSlashIn(a: string, rest: string)
    requires '/' !in a
    ensures FindSlash(a + "/" + rest, 0) == |a|
    ensures FindSlash(a, 0) == |a|
  {
    if a != "" {
      var s := a + "/" + rest;
      assert s[0] == a[0] && s[1..] == a[1..] + "/" + rest;
      FindSlashFrom(s, 1, 1);
      FindSlashFrom(a, 1, 1);
      FindSlashIn(a[1..], rest);
    }
  }

  /** A slash in the middle separates the pieces of both sides. */
  lemma {:induction false} SplitAtSlash(a: string, b: string)
    ensures Split(a + "/" + b) == Split(a) + Split(b)
    decreases |a|
  {
    var s, k := a + "/" + b, FindSlash(a, 0);
    if k == |a| {
      assert a[0..k] == a;
      FindSlashIn(a, b);
      assert s[..k] == a && s[k + 1..] == b;
    } else {
      var front, back := a[..k], a[k + 1..];
      assert a[0..k] == front;
      assert s == front + "/" + (back + "/" + b);
      FindSlashIn(front, back + "/" + b);
      assert s[..k] == front && s[k + 1..] == back + "/" + b;
      SplitAtSlash(back, b);
    }
  }

  lemma SegmentsAtSlash(a: string, b: string)
    ensures Segments(a + "/" + b) == Segments(a) + Segments(b)
  {
    SplitAtSlash(a, b);
    NonEmptyConcat(Split(a), Split(b));
  }

  lemma NoSegments()
    ensures Segments("") == []
  {
    assert Split("") == [""];
    assert [""][1..] == [];
  }

  /** Joining two paths at a slash joins their segments. */
  lemma SegmentsConcat(a: string, b: string)
    requires b != "" && b[0] == '/'
    ensures Segments(a + b) == Segments(a) + Segments(b)
  {
    assert a + b == a + "/" + b[1..];
    assert b == "" + "/" + b[1..];
    SegmentsAtSlash(a, b[1..]);
    SegmentsAtSlash("", b[1..]);
    NoSegments();
  }

  lemma OneSegment(piece: string)
    requires '/' !in piece
    ensures Segments(piece) == if piece == "" then [] else [piece]
  {
    FindSlashIn(piece, "");
    assert Split(piece) == [piece];
    assert NonEmpty([piece][1..]) == [];
    assert NonEmpty([piece]) == (if piece == "" then [] else [piece]) + [];
  }

  lemma FirstSegment(first: string, rest: string)
    requires '/' !in first && IsRooted(rest)
    ensures Segments("/" + first + rest) == (if first == "" then [] else [first]) + Segments(rest)
  {
    assert "/" + first == "" + "/" + first;
    SegmentsAtSlash("", first);
    NoSegments();
    OneSegment(first);
    if rest == "" {
      assert "/" + first + rest == "/" + first;
    } else {
      SegmentsConcat("/" + first, rest);
    }
  }

  // ----- the cursor loop

  /** Where one call of next_segment leaves the cursor. */
  function Advance(path: string, pos: nat): (next: nat)
    requires pos <= |path|
    ensures pos <= next <= |path|
  {
    if pos == |path| || path[pos] != '/' then pos else FindSlash(path, pos + 1)
  }

  /** next_segment: the piece after the slash at the cursor; nothing, and no progress, if the
      cursor is not at a slash. Reading the character at the length is allowed in C++. */
  method NextSegment(path: string, pos: nat) returns (segment: string, next: nat)
    requires pos <= |path|
    ensures next == Advance(path, pos)
    ensures next > pos <==> pos < |path| && path[pos] == '/'
    ensures next > pos ==> segment == path[pos + 1..next]
    ensures next == pos ==> segment == ""
    ensures pos < |path| && path[pos] == '/' ==>
      '/' !in segment && (next == |path| || path[next] == '/')
  {
    if pos == |path| || path[pos] != '/' {
      return "", pos;
    }
    next := FindSlash(path, pos + 1);
    segment := path[pos + 1..next];
  }

  lemma StepSegments(path: string, pos: nat)
    requires pos < |path| && path[pos] == '/'
    ensures var next := Advance(path, pos);
      var segment := path[pos + 1..next];
      Segments(path[pos..]) == (if segment == "" then [] else [segment]) + Segments(path[next..])
  {
    var next := Advance(path, pos);
    assert path[pos..] == "/" + path[pos + 1..next] + path[next..];
    FirstSegment(path[pos + 1..next], path[next..]);
  }

  lemma MoveSegment(done: seq<string>, segment: string, rest: seq<string>)
    ensures done + ((if segment == "" then [] else [segment]) + rest)
         == (if segment == "" then done else done + [segment]) + rest
  {}

  /** all_segments: the loop ends, and delivers the non-empty pieces of the path. */
  method AllSegments(path: string) returns (segments: seq<string>)
    requires IsRooted(path)
    ensures segments == Segments(path)
  {
    segments := [];
    var pos := 0;
    assert path[0..] == path;
    while pos < |path|
      invariant pos <= |path|
      invariant pos == |path| || path[pos] == '/'
      invariant segments + Segments(path[pos..]) == Segments(path)
      decreases |path| - pos
    {
      StepSegments(path, pos);
      ghost var before := segments;
      var segment;
      segment, pos := NextSegment(path, pos);
      MoveSegment(before, segment, Segments(path[pos..]));
      if segment != "" {
        segments := segments + [segment];
      }
    }
    assert path[pos..] == "";
    NoSegments();
  }

  /** The cursor after n rounds of the loop. */
  function CursorAfter(path: string, n: nat): (pos: nat)
    ensures pos <= |path|
  {
    if n == 0 then 0 else Advance(path, CursorAfter(path, n - 1))
  }

  lemma {:induction false} CursorStuck(path: string, n: nat)
    requires !IsRooted(path)
    ensures CursorAfter(path, n) == 0
  {
    if n > 0 {
      CursorStuck(path, n - 1);
    }
  }

  lemma {:induction false} CursorMoves(path: string, n: nat)
    requires IsRooted(path)
    ensures var pos := CursorAfter(path, n);
      (pos == |path| || path[pos] == '/') && (pos == |path| || pos >= n)
  {
    if n > 0 {
      CursorMoves(path, n - 1);
    }
  }

  /** The loop of all_segments reaches the end of the path if and only if the path is rooted. */
  lemma LoopEndsExactly(path: string)
    ensures (exists n :: CursorAfter(path, n) == |path|) <==> IsRooted(path)
  {
    if IsRooted(path) {
      CursorMoves(path, |path|);
    } else {
      forall n: nat ensures CursorAfter(path, n) < |path| {
        CursorStuck(path, n);
      }
    }
  }

  // ----- what an empty answer means

  predicate AllSlashes(s: string) {
    forall i :: 0 <= i < |s| ==> s[i] == '/'
  }

  lemma {:induction false} NoSegmentsExactly(s: string)
    ensures Segments(s) == [] <==> AllSlashes(s)
    decreases |s|
  {
    if s == "" {
      NoSegments();
    } else if s[0] == '/' {
      var rest := s[1..];
      assert s == "" + "/" + rest;
      SegmentsAtSlash("", rest);
      NoSegments();
      NoSegmentsExactly(rest);
      assert AllSlashes(s) <==> AllSlashes(rest) by {
        assert forall i :: 0 < i < |s| ==> s[i] == rest[i - 1];
        assert forall i :: 0 <= i < |rest| ==> rest[i] == s[i + 1];
      }
    } else {
      assert Split(s)[0] != "";
      assert NonEmpty(Split(s)) != [];
    }
  }

  /** The last slash before position i. */
  function PreviousSlash(path: string, i: nat): (j: nat)
    requires 0 < i <= |path| && path[0] == '/'
    ensures j < i && path[j] == '/' && forall k :: j < k < i ==> path[k] != '/'
  {
    if path[i - 1] == '/' then i - 1 else PreviousSlash(path, i - 1)
  }

  lemma {:induction false} NextSlashIs(path: string, from: nat, i: nat)
    requires from <= i < |path| && path[i] == '/' && forall k :: from <= k < i ==> path[k] != '/'
    ensures FindSlash(path, from) == i
    decreases i - from
  {
    if from < i {
      NextSlashIs(path, from + 1, i);
    }
  }

  lemma {:induction false} EverySlashIsVisited(path: string, i: nat) returns (n: nat)
    requires IsRooted(path) && i < |path| && path[i] == '/'
    ensures CursorAfter(path, n) == i
    decreases i
  {
    if i == 0 {
      n := 0;
    } else {
      var j := PreviousSlash(path, i);
      var m := EverySlashIsVisited(path, j);
      NextSlashIs(path, j + 1, i);
      n := m + 1;
    }
  }

  /** The answer of next_segment at this cursor is empty. */
  predicate EmptyAnswer(path: string, pos: nat)
    requires pos <= |path|
  {
    Advance(path, pos) <= pos + 1
  }

  /** In the whole walk an empty answer comes only when no segment is left. */
  ghost predicate EmptyMeansEnd(path: string) {
    forall n: nat :: EmptyAnswer(path, CursorAfter(path, n)) ==> Segments(path[CursorAfter(path, n)..]) == []
  }

  /** Two slashes in a row have only slashes after them. */
  predicate DoubleSlashOnlyAtEnd(path: string) {
    forall i :: 0 <= i < |path| - 1 && path[i] == '/' && path[i + 1] == '/' ==> AllSlashes(path[i..])
  }

  lemma EmptyAtEnd(path: string, pos: nat)
    requires DoubleSlashOnlyAtEnd(path) && pos <= |path| && (pos == |path| || path[pos] == '/')
    requires EmptyAnswer(path, pos)
    ensures Segments(path[pos..]) == []
  {
    NoSegmentsExactly(path[pos..]);
    if pos + 1 < |path| {
      assert Advance(path, pos) == pos + 1;
      assert path[pos + 1] == '/';
    }
  }

  /** A path that starts with another character: the first answer is empty, with segments left. */
  lemma StuckAtFirst(path: string)
    requires !IsRooted(path)
    ensures !EmptyMeansEnd(path)
  {
    assert CursorAfter(path, 0) == 0 && EmptyAnswer(path, 0);
    assert path[0..] == path;
    NoSegmentsExactly(path);
  }

  lemma DoubleSlashStops(path: string)
    requires IsRooted(path) && EmptyMeansEnd(path)
    ensures DoubleSlashOnlyAtEnd(path)
  {
    forall i | 0 <= i < |path| - 1 && path[i] == '/' && path[i + 1] == '/' ensures AllSlashes(path[i..]) {
      var n := EverySlashIsVisited(path, i);
      assert EmptyAnswer(path, CursorAfter(path, n));
      NoSegmentsExactly(path[i..]);
    }
  }

  /** The documented meaning of an empty answer, that there is no more segment, holds of exactly the
      paths that are empty or start with a slash and have no double slash ahead of a segment. */
  lemma EmptyAnswerExactly(path: string)
    ensures EmptyMeansEnd(path) <==> IsRooted(path) && DoubleSlashOnlyAtEnd(path)
  {
    if !IsRooted(path) {
      StuckAtFirst(path);
    } else if EmptyMeansEnd(path) {
      DoubleSlashStops(path);
    } else if DoubleSlashOnlyAtEnd(path) {
      forall n: nat | EmptyAnswer(path, CursorAfter(path, n)) ensures Segments(path[CursorAfter(path, n)..]) == [] {
        CursorMoves(path, n);
        EmptyAtEnd(path, CursorAfter(path, n));
      }
    }
  }

  // ----- building and splitting

  /** A slash before each segment. */
  function Build(segments: seq<string>): string {
    if segments == [] then "" else "/" + segments[0] + Build(segments[1..])
  }

  ghost predicate AreSegments(segments: seq<string>) {
    forall i :: 0 <= i < |segments| ==> segments[i] != "" && '/' !in segments[i]
  }

  /** Splitting a built path gives its segments back. */
  lemma {:induction false} SplitAfterBuild(segments: seq<string>)
    requires AreSegments(segments)
    ensures Segments(Build(segments)) == segments
  {
    if segments == [] {
      NoSegments();
    } else {
      SplitAfterBuild(segments[1..]);
      FirstSegment(segments[0], Build(segments[1..]));
      assert segments == [segments[0]] + segments[1..];
    }
  }

  /** No empty piece: every slash is followed by something other than a slash. */
  predicate IsCanonical(path: string) {
    IsRooted(path) && forall i :: 0 <= i < |path| && path[i] == '/' ==> i + 1 < |path| && path[i + 1] != '/'
  }

  lemma {:induction false} BuildAfterSplit(path: string)
    requires IsCanonical(path)
    ensures Build(Segments(path)) == path
    decreases |path|
  {
    if path == "" {
      NoSegments();
    } else {
      var next := Advance(path, 0);
      var segment, rest := path[1..next], path[next..];
      StepSegments(path, 0);
      assert path[0..] == path;
      assert segment != "" by { assert path[1] != '/'; }
      forall i | 0 <= i < |rest| && rest[i] == '/' ensures i + 1 < |rest| && rest[i + 1] != '/' {
        assert path[next + i] == '/';
      }
      BuildAfterSplit(rest);
      assert Segments(path)[1..] == Segments(rest);
      assert path == "/" + segment + rest;
    }
  }

  lemma {:induction false} BuiltIsCanonical(segments: seq<string>)
    requires AreSegments(segments)
    ensures IsCanonical(Build(segments))
  {
    if segments != [] {
      var first, rest := segments[0], Build(segments[1..]);
      BuiltIsCanonical(segments[1..]);
      var path := "/" + first + rest;
      forall i | 0 <= i < |path| && path[i] == '/' ensures i + 1 < |path| && path[i + 1] != '/' {
        if i == 0 {
          assert path[1] == first[0];
        } else {
          assert forall j :: 0 < j <= |first| ==> path[j] == first[j - 1] && path[j] != '/';
          assert path[i] == rest[i - 1 - |first|];
        }
      }
    }
  }

  lemma {:induction false} PiecesAreSegments(path: string)
    ensures AreSegments(Segments(path))
    decreases |path|
  {
    var k := FindSlash(path, 0);
    assert path[0..k] == path[..k];
    if k == |path| {
      OneSegment(path);
    } else {
      PiecesAreSegments(path[k + 1..]);
      assert path == path[..k] + "/" + path[k + 1..];
      SegmentsAtSlash(path[..k], path[k + 1..]);
      OneSegment(path[..k]);
    }
  }

  /** Splitting and building again changes exactly the paths that have an empty piece, and then
      gives the path without them. */
  lemma NormalForm(path: string)
    ensures Build(Segments(path)) == path <==> IsCanonical(path)
    ensures Segments(Build(Segments(path))) == Segments(path)
  {
    PiecesAreSegments(path);
    SplitAfterBuild(Segments(path));
    BuiltIsCanonical(Segments(path));
    if IsCanonical(path) {
      BuildAfterSplit(path);
    }
  }
}
