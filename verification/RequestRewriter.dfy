// parse_http_request and has_complete_http_request of the simple proxy: a request is split into
// lines, its first line is rebuilt from three words, and every line is ended with CR LF.
module RequestRewriter {
  const HEADER_END: string := "\r\n\r\n"

  /** std::string::find finds `sub`. */
  predicate Contains(s: string, sub: string) {
    exists k: nat :: k <= |s| && sub <= s[k..]
  }

  predicate HasCompleteHttpRequest(request: string) {
    Contains(request, HEADER_END)
  }

  // ----- lines and words

  /** The first line end at or after `pos`, or the end of the text. */
  function LineEnd(s: string, pos: nat): (k: nat)
    requires pos <= |s|
    ensures pos <= k <= |s|
    ensures forall i :: pos <= i < k ==> s[i] != '\n'
    ensures k < |s| ==> s[k] == '\n'
    decreases |s| - pos
  {
    if pos == |s| || s[pos] == '\n' then pos else LineEnd(s, pos + 1)
  }

  /** What repeated getline calls deliver: the pieces between line ends, without an empty piece
      after a final line end. */
  function Lines(s: string): seq<string>
    decreases |s|
  {
    if s == "" then []
    else
      var k := LineEnd(s, 0);
      if k == |s| then [s] else [s[..k]] + Lines(s[k + 1..])
  }

  predicate IsSpace(c: char) {
    c == ' ' || c == '\t' || c == '\n' || c == '\U{0B}' || c == '\U{0C}' || c == '\r'
  }

  ghost predicate IsWord(w: string) {
    w != "" && forall c :: c in w ==> !IsSpace(c)
  }

  function WordEnd(s: string): (k: nat)
    ensures k <= |s|
    ensures forall c :: c in s[..k] ==> !IsSpace(c)
    ensures k < |s| ==> IsSpace(s[k])
    ensures s != "" && !IsSpace(s[0]) ==> k > 0
  {
    if s == "" || IsSpace(s[0]) then 0
    else
      var k := WordEnd(s[1..]);
      assert s[..1 + k] == [s[0]] + s[1..][..k];
      1 + k
  }

  /** What repeated `>>` into strings delivers. */
  function Words(s: string): seq<string>
    decreases |s|
  {
    if s == "" then []
    else if IsSpace(s[0]) then Words(s[1..])
    else [s[..WordEnd(s)]] + Words(s[WordEnd(s)..])
  }

  /** The i-th string read from the line; a read that finds no word leaves it empty. */
  function Word(line: string, i: nat): string {
    if i < |Words(line)| then Words(line)[i] else ""
  }

  // ----- the rewriter

  function RequestLine(line: string): string {
    Word(line, 0) + " " + Word(line, 1) + " " + Word(line, 2) + "\r"
  }

  function WithCr(lines: seq<string>): seq<string> {
    seq(|lines|, i requires 0 <= i < |lines| => lines[i] + "\r")
  }

  /** Lines, each followed by its line end. */
  function Unlines(lines: seq<string>): string {
    if lines == [] then "" else lines[0] + "\n" + Unlines(lines[1..])
  }

  /** The lines that the rewriter writes. */
  function RewrittenLines(request: string): seq<string> {
    var lines := Lines(request);
    (if lines == [] then [] else [RequestLine(lines[0])] + WithCr(lines[1..])) + ["\r"]
  }

  function Rewrite(request: string): string {
    Unlines(RewrittenLines(request))
  }

  lemma {:induction false} LineEndFrom(s: string, a: nat, pos: nat)
    requires a <= pos <= |s|
    ensures LineEnd(s[a..], pos - a) == LineEnd(s, pos) - a
    decreases |s| - pos
  {
    if pos < |s| && s[pos] != '\n' {
      LineEndFrom(s, a, pos + 1);
    }
  }

  lemma LinesCut(t: string, line: string, rest: string)
    requires t != "" && line == t[..LineEnd(t, 0)]
    requires LineEnd(t, 0) < |t| ==> rest == t[LineEnd(t, 0) + 1..]
    ensures LineEnd(t, 0) == |t| ==> Lines(t) == [line]
    ensures LineEnd(t, 0) < |t| ==> Lines(t) == [line] + Lines(rest)
  {
    if LineEnd(t, 0) < |t| {
      assert Lines(t) == [t[..LineEnd(t, 0)]] + Lines(t[LineEnd(t, 0) + 1..]);
    } else {
      assert line == t;
    }
  }

  lemma Slices(s: string, pos: nat, k: nat)
    requires pos <= k <= |s|
    ensures s[pos..][..k - pos] == s[pos..k]
    ensures k < |s| ==> s[pos..][k - pos + 1..] == s[k + 1..]
  {}

  lemma LinesFrom(s: string, pos: nat, k: nat)
    requires pos < |s| && k == LineEnd(s, pos)
    ensures k == |s| ==> Lines(s[pos..]) == [s[pos..k]]
    ensures k < |s| ==> Lines(s[pos..]) == [s[pos..k]] + Lines(s[k + 1..])
  {
    assert LineEnd(s[pos..], 0) == k - pos by { LineEndFrom(s, pos, pos); }
    Slices(s, pos, k);
    if k < |s| {
      LinesCut(s[pos..], s[pos..k], s[k + 1..]);
    } else {
      LinesCut(s[pos..], s[pos..k], "");
    }
  }

  lemma LinesAfter(s: string, pos: nat, k: nat, next: nat)
    requires pos < |s| && k == LineEnd(s, pos) && next == (if k == |s| then k else k + 1)
    ensures Lines(s[pos..]) == [s[pos..k]] + Lines(s[next..])
  {
    LinesFrom(s, pos, k);
    if k == |s| {
      assert s[next..] == "";
    }
  }

  /** getline from `pos`: the next line and where the next call starts, unless the text is used up. */
  method GetLine(s: string, pos: nat) returns (ok: bool, line: string, next: nat)
    requires pos <= |s|
    ensures ok <==> pos < |s|
    ensures pos <= next <= |s| && (ok ==> pos < next)
    ensures Lines(s[pos..]) == (if ok then [line] else []) + Lines(s[next..])
  {
    if pos == |s| {
      return false, "", pos;
    }
    var k := pos;
    while k < |s| && s[k] != '\n'
      invariant pos <= k <= |s|
      invariant LineEnd(s, k) == LineEnd(s, pos)
    {
      k := k + 1;
    }
    ok, line := true, s[pos..k];
    next := if k == |s| then k else k + 1;
    LinesAfter(s, pos, k, next);
  }

  /** The lines still to come, as they will be written. */
  function Rest(lines: seq<string>): string {
    Unlines(WithCr(lines) + ["\r"])
  }

  lemma RestStep(written: string, line: string, more: seq<string>)
    ensures written + Rest([line] + more) == written + line + "\r\n" + Rest(more)
  {
    var all := WithCr([line] + more) + ["\r"];
    assert all[1..] == WithCr(more) + ["\r"];
    assert written + (line + "\r" + "\n" + Rest(more)) == written + line + "\r\n" + Rest(more);
  }

  lemma RewriteStart(request: string, line: string, more: seq<string>)
    requires Lines(request) == [line] + more
    ensures Rewrite(request) == RequestLine(line) + "\n" + Rest(more)
  {
    assert Lines(request)[1..] == more;
    var all := RewrittenLines(request);
    assert all == [RequestLine(line)] + (WithCr(more) + ["\r"]);
    assert all[1..] == WithCr(more) + ["\r"];
  }

  lemma RestEnd()
    ensures Rest([]) == "\r\n"
  {
    assert WithCr([]) + ["\r"] == ["\r"];
    assert ["\r"][1..] == [];
  }

  /** parse_http_request: the loop over the lines of the request. */
  method ParseHttpRequest(request: string) returns (newRequest: string)
    ensures newRequest == Rewrite(request)
  {
    newRequest := "";
    assert request[0..] == request;
    var ok, line, pos := GetLine(request, 0);
    if ok {
      newRequest := Word(line, 0) + " " + Word(line, 1) + " " + Word(line, 2) + "\r\n";
      RewriteStart(request, line, Lines(request[pos..]));
      assert newRequest == RequestLine(line) + "\n";
    } else {
      assert request == "";
    }
    ok, line, pos := GetLine(request, pos);
    while ok
      invariant pos <= |request|
      invariant newRequest + Rest((if ok then [line] else []) + Lines(request[pos..])) == Rewrite(request)
      invariant !ok ==> pos == |request|
      decreases ok, |request| - pos
    {
      RestStep(newRequest, line, Lines(request[pos..]));
      newRequest := newRequest + line + "\r\n";
      ok, line, pos := GetLine(request, pos);
    }
    RestEnd();
    newRequest := newRequest + "\r\n";
  }
}
