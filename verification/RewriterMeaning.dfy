// What the rewriter keeps of a request, and what it changes.
module RewriterMeaning {
  import opened RequestRewriter

  ghost predicate OneLine(s: string) {
    '\n' !in s
  }

  // ----- when a request is complete

  /** The four characters that end a header, at position k. */
  predicate HeaderEndAt(s: string, k: nat) {
    k + 3 < |s| && s[k] == '\r' && s[k + 1] == '\n' && s[k + 2] == '\r' && s[k + 3] == '\n'
  }

  lemma HeaderEndIsThere(s: string, k: nat)
    requires k <= |s|
    ensures HEADER_END <= s[k..] <==> HeaderEndAt(s, k)
  {
    if HEADER_END <= s[k..] {
      assert forall i :: 0 <= i < 4 ==> s[k..][i] == HEADER_END[i] && s[k..][i] == s[k + i];
    }
  }

  /** A request is complete exactly if the end of a header is somewhere in it, whatever follows. */
  lemma CompleteExactly(s: string)
    ensures HasCompleteHttpRequest(s) <==> exists k :: HeaderEndAt(s, k)
  {
    if HasCompleteHttpRequest(s) {
      var k: nat :| k <= |s| && HEADER_END <= s[k..];
      HeaderEndIsThere(s, k);
    }
    if k :| HeaderEndAt(s, k) {
      HeaderEndIsThere(s, k);
    }
  }

  /** More bytes, for instance of a body, keep a complete request complete. */
  lemma CompleteStays(a: string, b: string)
    requires HasCompleteHttpRequest(a)
    ensures HasCompleteHttpRequest(a + b)
  {
    CompleteExactly(a);
    var k :| HeaderEndAt(a, k);
    assert HeaderEndAt(a + b, k);
    CompleteExactly(a + b);
  }

  // ----- lines

  lemma {:induction false} LinesHaveNoBreak(s: string)
    ensures forall i :: 0 <= i < |Lines(s)| ==> OneLine(Lines(s)[i])
    decreases |s|
  {
    if s != "" && LineEnd(s, 0) < |s| {
      LinesHaveNoBreak(s[LineEnd(s, 0) + 1..]);
    }
  }

  lemma {:induction false} LineEndOf(line: string, rest: string)
    requires OneLine(line)
    ensures LineEnd(line + "\n" + rest, 0) == |line|
  {
    var s := line + "\n" + rest;
    if line != "" {
      assert s[0] == line[0] && s[1..] == line[1..] + "\n" + rest;
      LineEndFrom(s, 1, 1);
      LineEndOf(line[1..], rest);
    }
  }

  /** A text whose first line end is in place. */
  lemma FirstLine(s: string, e: nat)
    requires e < |s| && s[e] == '\n' && forall i :: 0 <= i < e ==> s[i] != '\n'
    ensures LineEnd(s, 0) == e && Lines(s) == [s[..e]] + Lines(s[e + 1..])
  {
    LinesCut(s, s[..LineEnd(s, 0)], s[LineEnd(s, 0) + 1..]);
  }

  lemma LinesOfJoined(line: string, rest: string)
    requires OneLine(line)
    ensures Lines(line + "\n" + rest) == [line] + Lines(rest)
  {
    var s := line + "\n" + rest;
    LineEndOf(line, rest);
    assert s[..|line|] == line && s[|line| + 1..] == rest;
    LinesCut(s, line, rest);
  }

  lemma {:induction false} LinesOfUnlines(lines: seq<string>)
    requires forall i :: 0 <= i < |lines| ==> OneLine(lines[i])
    ensures Lines(Unlines(lines)) == lines
  {
    if lines != [] {
      LinesOfJoined(lines[0], Unlines(lines[1..]));
      LinesOfUnlines(lines[1..]);
      assert lines == [lines[0]] + lines[1..];
    }
  }

  /** The text with a line end after its last line. */
  function Ended(s: string): string {
    if s == "" || s[|s| - 1] == '\n' then s else s + "\n"
  }

  lemma EndedBehind(front: string, rest: string)
    ensures front + "\n" + Ended(rest) == Ended(front + "\n" + rest)
  {
    var s := front + "\n" + rest;
    assert s[|s| - 1] == if rest == "" then '\n' else rest[|rest| - 1];
  }

  lemma UnlinesMore(line: string, lines: seq<string>)
    ensures Unlines([line] + lines) == line + "\n" + Unlines(lines)
  {
    assert ([line] + lines)[1..] == lines;
  }

  lemma LastLineAlone(s: string)
    requires s != "" && LineEnd(s, 0) == |s|
    ensures Unlines(Lines(s)) == Ended(s)
  {
    LinesCut(s, s, "");
    UnlinesMore(s, []);
    assert [s] + [] == [s];
  }

  /** The lines put together again are the text, with a line end after its last line. */
  lemma {:induction false} LinesExactly(s: string)
    ensures Unlines(Lines(s)) == Ended(s)
    decreases |s|
  {
    var e := LineEnd(s, 0);
    if s != "" && e == |s| {
      LastLineAlone(s);
    } else if s != "" {
      var front, rest := s[..e], s[e + 1..];
      LinesExactly(rest);
      LinesCut(s, front, rest);
      UnlinesMore(front, Lines(rest));
      EndedBehind(front, rest);
      assert s == front + "\n" + rest;
    }
  }

  /** The white space of the C locale, by its codes. */
  lemma SpacesOfTheCLocale(c: char)
    ensures IsSpace(c) <==> 9 <= c as int <= 13 || c as int == 32
  {}

  lemma {:induction false} WordsAreWords(s: string)
    ensures forall i :: 0 <= i < |Words(s)| ==> IsWord(Words(s)[i])
    decreases |s|
  {
    if s != "" {
      if IsSpace(s[0]) {
        WordsAreWords(s[1..]);
      } else {
        WordsAreWords(s[WordEnd(s)..]);
      }
    }
  }

  /** A word of a line, or nothing: never a space in it. */
  lemma WordShape(line: string, i: nat)
    ensures Word(line, i) == "" || IsWord(Word(line, i))
    ensures Word(line, i) == "" ==> Word(line, i + 1) == ""
  {
    WordsAreWords(line);
  }

  // ----- the request line

  lemma {:induction false} WordEndOf(w: string, rest: string)
    requires (forall c :: c in w ==> !IsSpace(c)) && (rest != "" ==> IsSpace(rest[0]))
    ensures WordEnd(w + rest) == |w|
  {
    if w == "" {
      assert w + rest == rest;
    } else {
      assert w[0] in w && (w + rest)[0] == w[0] && (w + rest)[1..] == w[1..] + rest;
      WordEndOf(w[1..], rest);
    }
  }

  lemma WordsOf(w: string, rest: string)
    requires IsWord(w) && (rest != "" ==> IsSpace(rest[0]))
    ensures Words(w + rest) == [w] + Words(rest)
  {
    WordEndOf(w, rest);
    var s := w + rest;
    assert s[0] == w[0] && w[0] in w;
    assert s[..|w|] == w && s[|w|..] == rest;
  }

  lemma SpaceSkipped(c: char, rest: string)
    requires IsSpace(c)
    ensures Words([c] + rest) == Words(rest)
  {
    assert ([c] + rest)[1..] == rest;
  }

  /** One word, if there is one, then a space and the rest. */
  lemma WordThenSpace(w: string, c: char, rest: string)
    requires (w == "" || IsWord(w)) && IsSpace(c)
    ensures Words(w + ([c] + rest)) == (if w == "" then [] else [w]) + Words(rest)
  {
    SpaceSkipped(c, rest);
    if w == "" {
      assert w + ([c] + rest) == [c] + rest;
    } else {
      WordsOf(w, [c] + rest);
    }
  }

  /** A word, or nothing where one is missing. */
  function OneWord(w: string): seq<string> {
    if w == "" then [] else [w]
  }

  lemma LineFromTheRight(w0: string, w1: string, w2: string)
    ensures w0 + " " + w1 + " " + w2 + "\r" == w0 + ([' '] + (w1 + ([' '] + (w2 + (['\r'] + "")))))
  {}

  lemma ThreeWords(w0: string, w1: string, w2: string)
    requires (w0 == "" || IsWord(w0)) && (w1 == "" || IsWord(w1)) && (w2 == "" || IsWord(w2))
    ensures Words(w0 + ([' '] + (w1 + ([' '] + (w2 + (['\r'] + ""))))))
         == OneWord(w0) + (OneWord(w1) + (OneWord(w2) + []))
  {
    WordThenSpace(w2, '\r', "");
    WordThenSpace(w1, ' ', w2 + (['\r'] + ""));
    WordThenSpace(w0, ' ', w1 + ([' '] + (w2 + (['\r'] + ""))));
  }

  lemma RequestLineWords(line: string)
    ensures Words(RequestLine(line))
         == OneWord(Word(line, 0)) + OneWord(Word(line, 1)) + OneWord(Word(line, 2))
  {
    var w0, w1, w2 := Word(line, 0), Word(line, 1), Word(line, 2);
    WordShape(line, 0);
    WordShape(line, 1);
    WordShape(line, 2);
    LineFromTheRight(w0, w1, w2);
    ThreeWords(w0, w1, w2);
    assert OneWord(w0) + (OneWord(w1) + (OneWord(w2) + [])) == OneWord(w0) + OneWord(w1) + OneWord(w2);
  }

  /** The white space of the rewritten request line is one space after each of the first two words and
      the carriage return at its end, as in section 3 of RFC 9112, also if words are missing. */
  lemma RequestLineSpaces(line: string)
    ensures var r, a, b := RequestLine(line), |Word(line, 0)|, |Word(line, 1)|;
      && |r| == a + b + |Word(line, 2)| + 3
      && r[a] == ' ' && r[a + 1 + b] == ' ' && r[|r| - 1] == '\r'
      && (forall i :: 0 <= i < |r| && i != a && i != a + 1 + b && i != |r| - 1 ==> !IsSpace(r[i]))
  {
    var w0, w1, w2 := Word(line, 0), Word(line, 1), Word(line, 2);
    var r := RequestLine(line);
    WordShape(line, 0);
    WordShape(line, 1);
    WordShape(line, 2);
    assert forall i :: 0 <= i < |w0| ==> r[i] == w0[i] && w0[i] in w0;
    assert forall i :: 0 <= i < |w1| ==> r[|w0| + 1 + i] == w1[i] && w1[i] in w1;
    assert forall i :: 0 <= i < |w2| ==> r[|w0| + |w1| + 2 + i] == w2[i] && w2[i] in w2;
    forall i | 0 <= i < |r| && i != |w0| && i != |w0| + 1 + |w1| && i != |r| - 1 ensures !IsSpace(r[i]) {
      if i < |w0| {
        assert r[i] == w0[i];
      } else if i < |w0| + 1 + |w1| {
        assert r[i] == w1[i - |w0| - 1];
      } else {
        assert r[i] == w2[i - |w0| - |w1| - 2];
      }
    }
  }

  lemma PickWord(a: string, b: string, c: string, i: nat)
    requires (a == "" ==> b == "") && (b == "" ==> c == "")
    ensures var words := OneWord(a) + OneWord(b) + OneWord(c);
      (if i < |words| then words[i] else "") == if i == 0 then a else if i == 1 then b else if i == 2 then c else ""
  {}

  /** Reading the rewritten request line gives the same method, url and version, also when some
      of them are missing; what followed them is gone. */
  lemma RequestLineKept(line: string, i: nat)
    ensures Word(RequestLine(line), i) == if i < 3 then Word(line, i) else ""
  {
    RequestLineWords(line);
    var w0, w1, w2 := Word(line, 0), Word(line, 1), Word(line, 2);
    WordShape(line, 0);
    WordShape(line, 1);
    PickWord(w0, w1, w2, i);
    WordShape(line, 2);
  }

  lemma RequestLineIsOneLine(line: string)
    ensures OneLine(RequestLine(line))
  {
    WordShape(line, 0);
    WordShape(line, 1);
    WordShape(line, 2);
    assert IsSpace('\n');
    assert OneLine(Word(line, 0)) && OneLine(Word(line, 1)) && OneLine(Word(line, 2));
  }

  // ----- the whole request

  /** Split again, the rewritten request has exactly the lines that were meant. */
  lemma RewrittenSplitsBack(request: string)
    ensures Lines(Rewrite(request)) == RewrittenLines(request)
  {
    LinesHaveNoBreak(request);
    var lines := Lines(request);
    if lines != [] {
      RequestLineIsOneLine(lines[0]);
    }
    forall i | 0 <= i < |RewrittenLines(request)| ensures OneLine(RewrittenLines(request)[i]) {
      if lines != [] && 0 < i < |RewrittenLines(request)| - 1 {
        assert RewrittenLines(request)[i] == lines[i] + "\r";
      }
    }
    LinesOfUnlines(RewrittenLines(request));
  }

  /** The line without the carriage returns at its end. */
  function StripCrs(line: string): string {
    if line != "" && line[|line| - 1] == '\r' then StripCrs(line[..|line| - 1]) else line
  }

  /** The content of a line that is ended by CR LF, as section 2.2 of RFC 9112 has it: a single
      carriage return before the line feed belongs to the line end. */
  function StripOneCr(line: string): string {
    if line != "" && line[|line| - 1] == '\r' then line[..|line| - 1] else line
  }

  lemma StripAddedCr(line: string)
    ensures StripCrs(line + "\r") == StripCrs(line)
    ensures StripOneCr(line + "\r") == line
  {
    assert (line + "\r")[..|line|] == line;
  }

  lemma RewrittenLineAt(request: string, i: nat)
    requires i < |Lines(request)|
    ensures |RewrittenLines(request)| == |Lines(request)| + 1
    ensures RewrittenLines(request)[i] == if i == 0 then RequestLine(Lines(request)[0]) else Lines(request)[i] + "\r"
    ensures RewrittenLines(request)[|Lines(request)|] == "\r"
  {}

  /** The rewriter keeps the meaning of a request: its three first words; the number and order of
      the other lines, up to carriage returns at their ends; and one empty line is added. */
  lemma RewriteKeepsMeaning(request: string)
    requires request != ""
    ensures var before, after := Lines(request), Lines(Rewrite(request));
      && |before| > 0 && |after| == |before| + 1
      && (forall i: nat :: i < 3 ==> Word(after[0], i) == Word(before[0], i))
      && (forall i :: 1 <= i < |before| ==> StripCrs(after[i]) == StripCrs(before[i]))
      && after[|before|] == "\r"
  {
    RewrittenSplitsBack(request);
    RewrittenLineAt(request, 0);
    forall i: nat | i < 3 ensures Word(RewrittenLines(request)[0], i) == Word(Lines(request)[0], i) {
      RequestLineKept(Lines(request)[0], i);
    }
    forall i | 1 <= i < |Lines(request)|
      ensures StripCrs(RewrittenLines(request)[i]) == StripCrs(Lines(request)[i])
    {
      RewrittenLineAt(request, i);
      StripAddedCr(Lines(request)[i]);
    }
  }

  /** Of nothing the rewriter makes an empty line. */
  lemma NothingRewritten()
    ensures Rewrite("") == "\r\n"
  {
    assert ["\r"][1..] == [];
  }

  /** What a server reads from a later line is changed: it is the line as received if and only if
      that line had no carriage return. A request whose lines end in CR LF is therefore forwarded
      with a stray carriage return in each of them. */
  lemma LineContentKept(request: string, i: nat)
    requires 1 <= i < |Lines(request)|
    ensures |Lines(Rewrite(request))| == |Lines(request)| + 1
    ensures var before, after := Lines(request)[i], Lines(Rewrite(request))[i];
      StripOneCr(after) == StripOneCr(before) <==> (before == "" || before[|before| - 1] != '\r')
  {
    RewrittenSplitsBack(request);
    RewrittenLineAt(request, i);
    StripAddedCr(Lines(request)[i]);
  }

  lemma LaterLine(s: string, e: nat, i: nat)
    requires e < |s| && Lines(s) == [s[..e]] + Lines(s[e + 1..]) && i < |Lines(s[e + 1..])|
    ensures i + 1 < |Lines(s)| && Lines(s)[i + 1] == Lines(s[e + 1..])[i]
  {}

  lemma CrAfterFirst(s: string, e: nat)
    requires e + 2 < |s| && LineEnd(s, 0) == e && s[e] == '\n' && s[e + 1] == '\r' && s[e + 2] == '\n'
    ensures |Lines(s)| > 1 && Lines(s)[1] == "\r"
  {
    var rest := s[e + 1..];
    FirstLine(s, e);
    FirstLine(rest, 1);
    assert rest[..1] == "\r";
    LaterLine(s, e, 0);
  }

  lemma CrBehindFirst(s: string, e: nat, j: nat)
    requires e < |s| && s[e] == '\n' && forall i :: 0 <= i < e ==> s[i] != '\n'
    requires j < |Lines(s[e + 1..])| && Lines(s[e + 1..])[j] == "\r"
    ensures j + 1 < |Lines(s)| && Lines(s)[j + 1] == "\r"
  {
    FirstLine(s, e);
    LaterLine(s, e, j);
  }

  lemma HeaderEndBehind(s: string, e: nat, k: nat)
    requires e < k && HeaderEndAt(s, k)
    ensures HeaderEndAt(s[e + 1..], k - e - 1)
  {}

  /** The first line end is not inside the end of the header, unless that begins in the first line. */
  lemma FirstBreak(s: string, k: nat)
    requires HeaderEndAt(s, k)
    ensures var e := LineEnd(s, 0); e < |s| && s[e] == '\n' && (e == k + 1 || e < k)
    ensures forall i :: 0 <= i < LineEnd(s, 0) ==> s[i] != '\n'
  {}

  /** The empty line at the end of a header is a later line that ends in a carriage return. */
  lemma {:induction false} HeaderEndIsALine(s: string, k: nat) returns (i: nat)
    requires HeaderEndAt(s, k)
    ensures 1 <= i < |Lines(s)| && Lines(s)[i] == "\r"
    decreases |s|
  {
    var e := LineEnd(s, 0);
    FirstBreak(s, k);
    if e == k + 1 {
      CrAfterFirst(s, e);
      i := 1;
    } else {
      HeaderEndBehind(s, e, k);
      var j := HeaderEndIsALine(s[e + 1..], k - e - 1);
      CrBehindFirst(s, e, j);
      i := j + 1;
    }
  }

  /** So every request that the proxy rewrites is changed in some line after the first. */
  lemma EveryRequestIsChanged(request: string) returns (i: nat)
    requires HasCompleteHttpRequest(request)
    ensures 1 <= i < |Lines(request)| < |Lines(Rewrite(request))|
    ensures StripOneCr(Lines(Rewrite(request))[i]) != StripOneCr(Lines(request)[i])
  {
    CompleteExactly(request);
    var k :| HeaderEndAt(request, k);
    i := HeaderEndIsALine(request, k);
    LineContentKept(request, i);
  }

  lemma {:induction false} UnlinesLastTwo(a: seq<string>, x: string)
    ensures Unlines(a + [x, "\r"]) == Unlines(a) + x + "\n\r\n"
  {
    if a == [] {
      assert [x, "\r"][1..] == ["\r"] && ["\r"][1..] == [];
      assert a + [x, "\r"] == [x, "\r"];
    } else {
      assert (a + [x, "\r"])[1..] == a[1..] + [x, "\r"];
      UnlinesLastTwo(a[1..], x);
    }
  }

  lemma EndsComplete(front: string)
    ensures var r := front + HEADER_END;
      |r| >= 4 && r[|r| - 4..] == HEADER_END && HasCompleteHttpRequest(r)
  {
    var r := front + HEADER_END;
    assert r[|front|..] == HEADER_END;
  }

  lemma LastTwo(lines: seq<string>)
    requires |lines| >= 2
    ensures lines == lines[..|lines| - 2] + [lines[|lines| - 2], lines[|lines| - 1]]
  {}

  lemma LastTwoLines(request: string) returns (before: seq<string>, body: string)
    requires request != ""
    ensures RewrittenLines(request) == before + [body + "\r", "\r"]
  {
    var lines, n := RewrittenLines(request), |Lines(request)| - 1;
    RewrittenLineAt(request, n);
    before := lines[..n];
    var line := Lines(request)[n];
    body := if n == 0 then Word(line, 0) + " " + Word(line, 1) + " " + Word(line, 2) else line;
    LastTwo(lines);
  }

  /** The rewritten request is complete and ends where its header ends. */
  lemma RewriteIsComplete(request: string)
    requires request != ""
    ensures var r := Rewrite(request);
      |r| >= 4 && r[|r| - 4..] == HEADER_END && HasCompleteHttpRequest(r)
  {
    var before, body := LastTwoLines(request);
    UnlinesLastTwo(before, body + "\r");
    EndsComplete(Unlines(before) + body);
    assert Unlines(before) + (body + "\r") + "\n\r\n" == Unlines(before) + body + HEADER_END;
  }
}
