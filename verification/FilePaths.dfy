// Which file a request is served from: the document root and the request target, joined.
module FilePaths {
  import opened Paths

  function WithoutSlash(base: string): string {
    if base != "" && base[|base| - 1] == '/' then base[..|base| - 1] else base
  }

  /** One slash at the end of the root gives way to the slash of the target. */
  function Joined(base: string, path: string): string {
    WithoutSlash(base) + path
  }

  /** path_cat, without the branch for Windows. */
  method PathCat(base: string, path: string) returns (result: string)
    ensures result == Joined(base, path)
  {
    if base == "" {
      return path;
    }
    result := base;
    if result[|result| - 1] == '/' {
      result := result[..|result| - 1];
    }
    result := result + path;
  }

  predicate HasDotDot(s: string) {
    exists k :: 0 <= k < |s| - 1 && s[k] == '.' && s[k + 1] == '.'
  }

  /** A target the file handler accepts. */
  predicate Accepted(target: string) {
    target != "" && target[0] == '/' && !HasDotDot(target)
  }

  datatype Served = BadRequest(why: string) | File(path: string)

  function IndexFor(target: string): string
    requires target != ""
  {
    if target[|target| - 1] == '/' then "index.html" else ""
  }

  function ServedFrom(docRoot: string, getOrHead: bool, target: string): Served {
    if !getOrHead then BadRequest("Unknown HTTP-method")
    else if !Accepted(target) then BadRequest("Illegal request-target")
    else File(Joined(docRoot, target) + IndexFor(target))
  }

  /** FileRequestHandler up to the opening of the file. */
  method FileFor(docRoot: string, getOrHead: bool, target: string) returns (r: Served)
    ensures r == ServedFrom(docRoot, getOrHead, target)
  {
    if !getOrHead {
      return BadRequest("Unknown HTTP-method");
    }
    if target == "" || target[0] != '/' || HasDotDot(target) {
      return BadRequest("Illegal request-target");
    }
    var path := PathCat(docRoot, target);
    if target[|target| - 1] == '/' {
      path := path + "index.html";
    }
    return File(path);
  }

  /** One slash between the two: a root gives the same path with and without a slash at its end, and
      more than one slash at its end is not touched. */
  lemma OneSlashAtTheSeam(root: string, target: string)
    ensures Joined(root + "/", target) == root + target
    ensures root == "" || root[|root| - 1] != '/' ==> Joined(root, target) == root + target
  {
    assert (root + "/")[..|root|] == root;
  }

  /** Every request gets one of three answers: the method is looked at first, then the target, which must
      start with a slash and have no two dots in a row; and what is served is the joined path, with
      the index file exactly for a target that ends in a slash. */
  lemma WhatIsServed(docRoot: string, getOrHead: bool, target: string)
    ensures var r := ServedFrom(docRoot, getOrHead, target);
      && (r == BadRequest("Unknown HTTP-method") <==> !getOrHead)
      && (r == BadRequest("Illegal request-target") <==>
            getOrHead && (target == "" || target[0] != '/' || exists k: nat :: k <= |target| && ".." <= target[k..]))
      && (r.BadRequest? ==> r.why == "Unknown HTTP-method" || r.why == "Illegal request-target")
      && (r.File? ==> var joined := Joined(docRoot, target);
            && (r.path == joined + "index.html" <==> target[|target| - 1] == '/')
            && (r.path == joined <==> target[|target| - 1] != '/'))
  {
    if k :| 0 <= k < |target| - 1 && target[k] == '.' && target[k + 1] == '.' {
      assert ".." <= target[k..];
    }
    if k: nat :| k <= |target| && ".." <= target[k..] {
      assert target[k] == target[k..][0] && target[k + 1] == target[k..][1];
      assert HasDotDot(target);
    }
  }

  // ----- segments of the joined path

  lemma TrailingSlashIsNoSegment(base: string)
    ensures Segments(WithoutSlash(base)) == Segments(base)
  {
    if WithoutSlash(base) != base {
      assert base == WithoutSlash(base) + "/" + "";
      SegmentsAtSlash(WithoutSlash(base), "");
      NoSegments();
    }
  }

  /** The joined path consists of the root's segments, then the target's. */
  lemma JoinedSegments(base: string, target: string)
    requires target != "" && target[0] == '/'
    ensures Segments(Joined(base, target)) == Segments(base) + Segments(target)
  {
    TrailingSlashIsNoSegment(base);
    SegmentsConcat(WithoutSlash(base), target);
  }

  /** It is absolute exactly if the root is, given a root. */
  lemma JoinedAbsolute(base: string, target: string)
    requires base != "" && target != "" && target[0] == '/'
    ensures Joined(base, target) != "" && (Joined(base, target)[0] == '/' <==> base[0] == '/')
  {}

  lemma SlashAtEnd(target: string, more: string)
    requires target != "" && target[|target| - 1] == '/'
    ensures target + more == target[..|target| - 1] + "/" + more
  {}

  lemma IndexSegment(target: string)
    requires target != "" && target[0] == '/' && target[|target| - 1] == '/'
    ensures Segments(target + "index.html") == Segments(target) + ["index.html"]
  {
    var front := target[..|target| - 1];
    SlashAtEnd(target, "index.html");
    SlashAtEnd(target, "");
    assert target + "" == target;
    SegmentsAtSlash(front, "index.html");
    SegmentsAtSlash(front, "");
    NoSegments();
    OneSegment("index.html");
  }

  // ----- resolving

  /** One step of a walk along a path: stay, go up, or go down. Above the top of an absolute path
      is its top; a relative path may lead out of where it starts. */
  function Walk(absolute: bool, at: seq<string>, segment: string): seq<string> {
    if segment == "." then at
    else if segment != ".." then at + [segment]
    else if at != [] && at[|at| - 1] != ".." then at[..|at| - 1]
    else if absolute then at
    else at + [".."]
  }

  function Resolve(absolute: bool, segments: seq<string>): seq<string> {
    if segments == [] then []
    else Walk(absolute, Resolve(absolute, segments[..|segments| - 1]), segments[|segments| - 1])
  }

  function WithoutDots(segments: seq<string>): seq<string> {
    if segments == [] then []
    else WithoutDots(segments[..|segments| - 1])
         + if segments[|segments| - 1] == "." then [] else [segments[|segments| - 1]]
  }

  lemma {:induction false} ResolveBelow(absolute: bool, root: seq<string>, below: seq<string>)
    requires ".." !in below
    ensures Resolve(absolute, root + below) == Resolve(absolute, root) + WithoutDots(below)
  {
    var all := root + below;
    if below == [] {
      assert all == root;
    } else {
      var last := below[|below| - 1];
      assert last in below;
      assert all[..|all| - 1] == root + below[..|below| - 1];
      assert all[|all| - 1] == last;
      ResolveBelow(absolute, root, below[..|below| - 1]);
    }
  }

  /** A segment is a part of its path. */
  lemma PartOfTail(path: string, from: nat, j: nat, n: nat)
    requires from <= |path| && j + n <= |path[from..]|
    ensures path[from..][j..j + n] == path[from + j..from + j + n]
  {}

  lemma {:induction false} SegmentIsPart(path: string, segment: string) returns (k: nat)
    requires segment in Segments(path)
    ensures k + |segment| <= |path| && path[k..k + |segment|] == segment
    decreases |path|
  {
    var e := FindSlash(path, 0);
    assert path[0..e] == path[..e];
    OneSegment(path[..e]);
    if e == |path| {
      assert path[..e] == path;
      k := 0;
    } else {
      var rest := path[e + 1..];
      assert path == path[..e] + "/" + rest;
      SegmentsAtSlash(path[..e], rest);
      if segment == path[..e] {
        k := 0;
      } else {
        var j := SegmentIsPart(rest, segment);
        k := e + 1 + j;
        PartOfTail(path, e + 1, j, |segment|);
      }
    }
  }

  lemma UpNeedsDotDot(target: string)
    requires ".." in Segments(target)
    ensures HasDotDot(target)
  {
    var k := SegmentIsPart(target, "..");
    var part := target[k..k + 2];
    assert part[0] == target[k] && part[1] == target[k + 1];
  }

  /** What is served is the root and, below it, the target's segments and maybe the index file. */
  lemma ServedSegments(docRoot: string, target: string) returns (below: seq<string>)
    requires Accepted(target)
    ensures below == Segments(target) + (if IndexFor(target) == "" then [] else ["index.html"])
    ensures Segments(Joined(docRoot, target) + IndexFor(target)) == Segments(docRoot) + below
    ensures ".." !in below
  {
    if ".." in Segments(target) {
      UpNeedsDotDot(target);
    }
    if IndexFor(target) == "" {
      below := Segments(target);
      assert Joined(docRoot, target) + "" == Joined(docRoot, target);
      JoinedSegments(docRoot, target);
    } else {
      below := Segments(target) + ["index.html"];
      assert Joined(docRoot, target) + "index.html" == Joined(docRoot, target + "index.html");
      IndexSegment(target);
      JoinedSegments(docRoot, target + "index.html");
    }
  }

  lemma WithoutDotsIndex(target: string)
    requires target != ""
    ensures var index := if IndexFor(target) == "" then [] else ["index.html"];
      WithoutDots(Segments(target) + index) == WithoutDots(Segments(target)) + index
  {
    var all := Segments(target) + ["index.html"];
    assert all[..|all| - 1] == Segments(target) && all[|all| - 1] == "index.html";
    assert Segments(target) + [] == Segments(target);
  }

  /** Every file that is served lies below the document root: its resolved path is the resolved
      root followed by the target's segments, without the dots, and the index file for a target
      that ends in a slash. */
  lemma ServedBelowRoot(absolute: bool, docRoot: string, target: string)
    requires ServedFrom(docRoot, true, target).File?
    ensures var path := ServedFrom(docRoot, true, target).path;
      var index := if IndexFor(target) == "" then [] else ["index.html"];
      && Segments(path) == Segments(docRoot) + (Segments(target) + index)
      && Resolve(absolute, Segments(path))
         == Resolve(absolute, Segments(docRoot)) + (WithoutDots(Segments(target)) + index)
      && Resolve(absolute, Segments(docRoot)) <= Resolve(absolute, Segments(path))
  {
    var below := ServedSegments(docRoot, target);
    ResolveBelow(absolute, Segments(docRoot), below);
    WithoutDotsIndex(target);
  }

  lemma StepUp(absolute: bool, root: seq<string>)
    requires Resolve(absolute, root) != []
    requires var at := Resolve(absolute, root); at[|at| - 1] != ".."
    ensures |Resolve(absolute, root + [".."])| == |Resolve(absolute, root)| - 1
  {
    var all := root + [".."];
    assert all[..|all| - 1] == root && all[|all| - 1] == "..";
  }

  /** The check for two dots is what this rests on: the target "/.." would lead out of the root. */
  lemma UpLeavesRoot(absolute: bool, docRoot: string)
    requires Resolve(absolute, Segments(docRoot)) != []
    requires var at := Resolve(absolute, Segments(docRoot)); at[|at| - 1] != ".."
    ensures !(Resolve(absolute, Segments(docRoot)) <= Resolve(absolute, Segments(Joined(docRoot, "/.."))))
  {
    JoinedSegments(docRoot, "/..");
    assert Segments("/..") == [".."] by {
      SplitAfterBuild([".."]);
      assert [".."][1..] == [];
      assert Build([".."]) == "/..";
    }
    StepUp(absolute, Segments(docRoot));
  }
}
