// The white space of the printed text: nothing but layout, and the layout shows the nesting.
module JsonLayout {
  import opened Basics
  import opened JsonText
  import opened JsonGrammar
  import opened JsonRoundTrip
  import opened PrettyPrinter

  /** Where a left-to-right reader is: outside strings, in one, or after a backslash in one. */
  datatype Lex = Outside | Inside | Escaped

  function NextLex(l: Lex, c: char): Lex {
    match l
    case Outside => if c == '\"' then Inside else Outside
    case Inside => if c == '\\' then Escaped else if c == '\"' then Outside else Inside
    case Escaped => Inside
  }

  // ----- erasing white space outside strings

  function Kept(c: char, l: Lex): string {
    if l == Outside && IsWs(c) then "" else [c]
  }

  function Erase(s: string, l: Lex): string {
    if s == "" then ""
    else Kept(s[0], l) + Erase(s[1..], NextLex(l, s[0]))
  }

  function EndLex(s: string, l: Lex): Lex {
    if s == "" then l else EndLex(s[1..], NextLex(l, s[0]))
  }

  function Comma(more: bool): string {
    if more then "," else ""
  }

  /** The text with no white space at all. */
  function Compact(v: Value): string
    decreases v, 0
  {
    match v
    case Null => "null"
    case Bool(b) => if b then "true" else "false"
    case Number(n) => IntText(n)
    case Text(s) => Quote(s)
    case List(elems) => "[" + CompactElements(elems) + "]"
    case Object(members) => "{" + CompactMembers(members) + "}"
  }

  function CompactElements(elems: seq<Value>): string
    decreases elems, 0
  {
    if elems == [] then ""
    else Compact(elems[0]) + Comma(|elems| > 1) + CompactElements(elems[1..])
  }

  function CompactMembers(members: seq<Member>): string
    decreases members, 0
  {
    if members == [] then ""
    else Quote(members[0].key) + ":" + Compact(members[0].value)
         + Comma(|members| > 1) + CompactMembers(members[1..])
  }

  lemma {:induction false} EndLexConcat(a: string, b: string, l: Lex)
    ensures EndLex(a + b, l) == EndLex(b, EndLex(a, l))
  {
    if a == "" {
      assert a + b == b;
    } else {
      assert (a + b)[0] == a[0] && (a + b)[1..] == a[1..] + b;
      EndLexConcat(a[1..], b, NextLex(l, a[0]));
    }
  }

  lemma {:induction false} EraseConcat(a: string, b: string, l: Lex)
    ensures Erase(a + b, l) == Erase(a, l) + Erase(b, EndLex(a, l))
    ensures EndLex(a + b, l) == EndLex(b, EndLex(a, l))
  {
    EndLexConcat(a, b, l);
    if a == "" {
      assert a + b == b;
    } else {
      var m := NextLex(l, a[0]);
      assert (a + b)[0] == a[0] && (a + b)[1..] == a[1..] + b;
      EraseConcat(a[1..], b, m);
      Regroup(Kept(a[0], l), Erase(a[1..], m), Erase(b, EndLex(a, l)));
    }
  }

  /** `text`, read from outside strings to outside strings, keeps exactly `kept`. */
  ghost predicate Keeps(text: string, kept: string) {
    Erase(text, Outside) == kept && EndLex(text, Outside) == Outside
  }

  lemma KeepsConcat(a: string, x: string, b: string, y: string)
    requires Keeps(a, x) && Keeps(b, y)
    ensures Keeps(a + b, x + y)
  {
    EraseConcat(a, b, Outside);
  }

  lemma {:induction false} KeepsNone(s: string)
    requires Blank(s)
    ensures Keeps(s, "")
  {
    if s != "" {
      assert s[0] in s;
      assert forall c :: c in s[1..] ==> c in s;
      KeepsNone(s[1..]);
    }
  }

  lemma {:induction false} KeepsAll(s: string)
    requires forall c :: c in s ==> !IsWs(c) && c != '\"'
    ensures Keeps(s, s)
  {
    if s != "" {
      assert s[0] in s;
      assert forall c :: c in s[1..] ==> c in s;
      KeepsAll(s[1..]);
    }
  }

  /** Read from state `l`, the text neither ends the string nor the line. */
  predicate StaysInside(s: string, l: Lex) {
    l != Outside && (s == "" || (s[0] != '\n' && StaysInside(s[1..], NextLex(l, s[0]))))
  }

  lemma LexOne(c: char, l: Lex)
    ensures EndLex([c], l) == NextLex(l, c)
    ensures Erase([c], l) == if l == Outside && IsWs(c) then "" else [c]
    ensures l != Outside && c != '\n' && NextLex(l, c) != Outside ==> StaysInside([c], l)
  {
    assert [c][1..] == "";
  }

  lemma {:induction false} InsideConcat(a: string, b: string, l: Lex)
    requires StaysInside(a, l) && StaysInside(b, EndLex(a, l))
    ensures StaysInside(a + b, l) && EndLex(a + b, l) == EndLex(b, EndLex(a, l))
  {
    if a == "" {
      assert a + b == b;
    } else {
      assert (a + b)[0] == a[0] && (a + b)[1..] == a[1..] + b;
      InsideConcat(a[1..], b, NextLex(l, a[0]));
    }
  }

  lemma {:induction false} PlainInside(s: string)
    requires forall c :: c in s ==> c != '\n' && c != '\"' && c != '\\'
    ensures StaysInside(s, Inside) && EndLex(s, Inside) == Inside
  {
    if s != "" {
      assert s[0] in s;
      assert forall c :: c in s[1..] ==> c in s;
      PlainInside(s[1..]);
    }
  }

  lemma EscapeInside(c: char, rest: string)
    requires c != '\n' && forall d :: d in rest ==> d != '\n' && d != '\"' && d != '\\'
    ensures StaysInside(['\\', c] + rest, Inside) && EndLex(['\\', c] + rest, Inside) == Inside
  {
    var s := ['\\', c] + rest;
    assert s[1..] == [c] + rest && s[1..][1..] == rest;
    PlainInside(rest);
  }

  lemma EscapeShape(c: char)
    ensures var e := EscapeChar(c);
      if |e| == 1 then e == [c] && c != '\n' && c != '\"' && c != '\\'
      else |e| > 1 && e == ['\\', e[1]] + e[2..] && e[1] != '\n' && (forall d :: d in e[2..] ==> d in HEX_DIGITS)
  {
    var e := EscapeChar(c);
    if |e| > 2 {
      var hi, lo := HexDigit(c as int / 16), HexDigit(c as int % 16);
      assert hi in HEX_DIGITS && lo in HEX_DIGITS;
      assert e[2..] == ['0', '0', hi, lo];
    }
  }

  lemma EscapedCharInside(c: char)
    ensures StaysInside(EscapeChar(c), Inside) && EndLex(EscapeChar(c), Inside) == Inside
  {
    var e := EscapeChar(c);
    EscapeShape(c);
    if |e| == 1 {
      PlainInside(e);
    } else {
      EscapeInside(e[1], e[2..]);
    }
  }

  /** Escaping keeps every character of a string inside it, and on one line. */
  lemma {:induction false} EscapedInside(s: string)
    ensures StaysInside(EscapeAll(s), Inside) && EndLex(EscapeAll(s), Inside) == Inside
  {
    if s != "" {
      EscapedCharInside(s[0]);
      EscapedInside(s[1..]);
      InsideConcat(EscapeChar(s[0]), EscapeAll(s[1..]), Inside);
    }
  }

  lemma {:induction false} InsideKept(s: string, l: Lex)
    requires StaysInside(s, l)
    ensures Erase(s, l) == s
  {
    if s != "" {
      InsideKept(s[1..], NextLex(l, s[0]));
    }
  }

  lemma KeepsQuote(s: string)
    ensures Keeps(Quote(s), Quote(s))
  {
    EscapedInside(s);
    InsideKept(EscapeAll(s), Inside);
    LexOne('\"', Outside);
    EraseConcat("\"", EscapeAll(s), Outside);
    LexOne('\"', Inside);
    EraseConcat("\"" + EscapeAll(s), "\"", Outside);
  }

  lemma KeepsScalar(v: Value, indent: string)
    requires v.Null? || v.Bool? || v.Number?
    ensures Keeps(Render(v, indent), Compact(v))
  {
    if v.Number? {
      DigitsBack(if v.n < 0 then -v.n else v.n);
    }
    KeepsAll(Compact(v));
  }

  lemma KeepsContainer(open: char, body: string, kept: string, indent: string, close: char)
    requires Keeps(body, kept) && Blank(indent)
    requires open != '\"' && close != '\"' && !IsWs(open) && !IsWs(close)
    ensures Keeps([open, '\n'] + body + "\n" + indent + [close], [open] + kept + [close])
  {
    assert [open, '\n'] == [open] + "\n";
    KeepsAll([open]);
    KeepsAll([close]);
    KeepsNone("\n");
    KeepsNone(indent);
    KeepsConcat([open], [open], "\n", "");
    KeepsConcat([open, '\n'], [open] + "", body, kept);
    KeepsConcat([open, '\n'] + body, [open] + "" + kept, "\n", "");
    KeepsConcat([open, '\n'] + body + "\n", [open] + "" + kept + "", indent, "");
    KeepsConcat([open, '\n'] + body + "\n" + indent, [open] + "" + kept + "" + "", [close], [close]);
    assert [open] + "" + kept + "" + "" == [open] + kept;
  }

  lemma KeepsSeparator(more: bool)
    ensures Keeps(Continue(more), Comma(more))
  {
    KeepsAll(",");
    KeepsNone("\n");
    KeepsConcat(",", ",", "\n", "");
    assert "," + "\n" == ",\n";
  }

  lemma KeepsColon()
    ensures Keeps(" : ", ":")
  {
    KeepsNone(" ");
    KeepsAll(":");
    KeepsConcat(" ", "", ":", ":");
    KeepsConcat(" " + ":", "" + ":", " ", "");
    assert " " + ":" + " " == " : ";
  }

  lemma {:induction false} KeepsValue(v: Value, indent: string)
    requires Blank(indent)
    ensures Keeps(Render(v, indent), Compact(v))
    decreases v, 0
  {
    match v
    case Text(s) => KeepsQuote(s);
    case List(elems) =>
      KeepsElements(elems, indent + SP4);
      KeepsContainer('[', RenderElements(elems, indent + SP4), CompactElements(elems), indent, ']');
    case Object(members) =>
      KeepsMembers(members, indent + SP4);
      KeepsContainer('{', RenderMembers(members, indent + SP4), CompactMembers(members), indent, '}');
    case _ => KeepsScalar(v, indent);
  }

  lemma {:induction false} KeepsElements(elems: seq<Value>, indent: string)
    requires Blank(indent)
    ensures Keeps(RenderElements(elems, indent), CompactElements(elems))
    decreases elems, 0
  {
    if elems != [] {
      var value, kept := Render(elems[0], indent), Compact(elems[0]);
      var more := |elems| > 1;
      KeepsNone(indent);
      KeepsValue(elems[0], indent);
      KeepsConcat(indent, "", value, kept);
      KeepsSeparator(more);
      KeepsConcat(indent + value, "" + kept, Continue(more), Comma(more));
      KeepsElements(elems[1..], indent);
      KeepsConcat(indent + value + Continue(more), "" + kept + Comma(more),
                  RenderElements(elems[1..], indent), CompactElements(elems[1..]));
      assert "" + kept == kept;
    }
  }

  lemma {:induction false} KeepsMembers(members: seq<Member>, indent: string)
    requires Blank(indent)
    ensures Keeps(RenderMembers(members, indent), CompactMembers(members))
    decreases members, 0
  {
    if members != [] {
      var key, value, kept := Quote(members[0].key), Render(members[0].value, indent), Compact(members[0].value);
      var more := |members| > 1;
      KeepsNone(indent);
      KeepsQuote(members[0].key);
      KeepsConcat(indent, "", key, key);
      KeepsColon();
      KeepsConcat(indent + key, "" + key, " : ", ":");
      KeepsValue(members[0].value, indent);
      KeepsConcat(indent + key + " : ", "" + key + ":", value, kept);
      KeepsSeparator(more);
      KeepsConcat(indent + key + " : " + value, "" + key + ":" + kept, Continue(more), Comma(more));
      KeepsMembers(members[1..], indent);
      KeepsConcat(indent + key + " : " + value + Continue(more), "" + key + ":" + kept + Comma(more),
                  RenderMembers(members[1..], indent), CompactMembers(members[1..]));
      assert "" + key == key;
    }
  }

  /** Without the white space outside strings the printed text is the compact one. */
  lemma PrettyErasesToCompact(v: Value, indent: string)
    requires Blank(indent)
    ensures Erase(Pretty(v, indent), Outside) == Compact(v)
  {
    KeepsValue(v, indent);
    if indent == "" {
      KeepsNone("\n");
      KeepsConcat(Render(v, indent), Compact(v), "\n", "");
    }
  }

  // ----- indentation

  /** A reader that checks lines: `depth` open brackets, and, at the start of a line, the number
      of spaces so far. A line may start only where its nesting says, and the line that ends outside
      all containers is the last one. */
  datatype Layout = Bad | Line(lex: Lex, depth: nat, spaces: Option<nat>) | Finished

  const START: Layout := Line(Outside, 0, Some(0))

  function NextLayout(a: Layout, c: char): Layout {
    if !a.Line? then Bad
    else if a.lex != Outside then
      if c == '\n' then Bad else a.(lex := NextLex(a.lex, c))
    else if c == '\n' then
      if a.depth == 0 then if a.spaces.None? then Finished else Bad
      else if a.spaces.Some? && a.spaces.value > 0 then Bad
      else a.(spaces := Some(0))
    else if c == ' ' && a.spaces.Some? then a.(spaces := Some(a.spaces.value + 1))
    else
      var closes := c == ']' || c == '}';
      var opens := c == '[' || c == '{';
      if closes && a.depth == 0 then Bad
      else
        var depth := if closes then a.depth - 1 else a.depth;
        if a.spaces.Some? && a.spaces.value != 4 * depth then Bad
        else Line(NextLex(Outside, c), if opens then depth + 1 else depth, None)
  }

  function Scan(s: string, a: Layout): Layout {
    if s == "" then a else Scan(s[1..], NextLayout(a, s[0]))
  }

  function Spaces(n: nat): string {
    seq(n, _ => ' ')
  }

  lemma {:induction false} ScanConcat(s: string, t: string, a: Layout)
    ensures Scan(s + t, a) == Scan(t, Scan(s, a))
  {
    if s == "" {
      assert s + t == t;
    } else {
      assert (s + t)[0] == s[0] && (s + t)[1..] == s[1..] + t;
      ScanConcat(s[1..], t, NextLayout(a, s[0]));
    }
  }

  lemma {:induction false} ScanSpaces(n: nat, depth: nat, k: nat)
    ensures Scan(Spaces(n), Line(Outside, depth, Some(k))) == Line(Outside, depth, Some(k + n))
  {
    if n > 0 {
      assert Spaces(n)[1..] == Spaces(n - 1);
      ScanSpaces(n - 1, depth, k + 1);
    }
  }

  /** A place where a value of this depth may start: after its indent, or within a line. */
  predicate Ready(a: Layout, depth: nat) {
    a == Line(Outside, depth, None) || a == Line(Outside, depth, Some(4 * depth))
  }

  predicate IsPlain(c: char) {
    c != '\n' && c != ' ' && c != '\"' && c != '[' && c != ']' && c != '{' && c != '}'
  }

  lemma {:induction false} ScanPlain(s: string, a: Layout, depth: nat)
    requires s != "" && (forall c :: c in s ==> IsPlain(c)) && Ready(a, depth)
    ensures Scan(s, a) == Line(Outside, depth, None)
  {
    assert s[0] in s;
    if |s| == 1 {
      assert s[1..] == "";
    } else {
      assert forall c :: c in s[1..] ==> c in s;
      ScanPlain(s[1..], NextLayout(a, s[0]), depth);
    }
  }

  lemma {:induction false} ScanInside(s: string, l: Lex, depth: nat)
    requires StaysInside(s, l)
    ensures Scan(s, Line(l, depth, None)) == Line(EndLex(s, l), depth, None)
  {
    if s != "" {
      ScanInside(s[1..], NextLex(l, s[0]), depth);
    }
  }

  lemma ScanQuote(s: string, a: Layout, depth: nat)
    requires Ready(a, depth)
    ensures Scan(Quote(s), a) == Line(Outside, depth, None)
  {
    var q := Quote(s);
    assert q[0] == '\"' && q[1..] == EscapeAll(s) + "\"";
    assert NextLayout(a, '\"') == Line(Inside, depth, None);
    EscapedInside(s);
    ScanInside(EscapeAll(s), Inside, depth);
    ScanConcat(EscapeAll(s), "\"", Line(Inside, depth, None));
    assert "\""[1..] == "";
  }

  lemma ScanScalar(v: Value, indent: string, a: Layout, depth: nat)
    requires (v.Null? || v.Bool? || v.Number?) && Ready(a, depth)
    ensures Scan(Render(v, indent), a) == Line(Outside, depth, None)
  {
    if v.Number? {
      DigitsBack(if v.n < 0 then -v.n else v.n);
    }
    ScanPlain(Render(v, indent), a, depth);
  }

  lemma ScanOne(c: char, a: Layout)
    ensures Scan([c], a) == NextLayout(a, c)
  {
    assert [c][1..] == "";
  }

  lemma ScanContainer(open: char, body: string, close: char, a: Layout, depth: nat, end: Option<nat>)
    requires Ready(a, depth) && (end == None || end == Some(0))
    requires (open == '[' || open == '{') && (close == ']' || close == '}')
    requires Scan(body, Line(Outside, depth + 1, Some(0))) == Line(Outside, depth + 1, end)
    ensures Scan([open, '\n'] + body + "\n" + Spaces(4 * depth) + [close], a) == Line(Outside, depth, None)
  {
    var deeper := Line(Outside, depth + 1, Some(0));
    var s2, s3 := [open, '\n'] + body, [open, '\n'] + body + "\n";
    assert [open, '\n'] == [open] + "\n";
    ScanOne(open, a);
    ScanConcat([open], "\n", a);
    ScanOne('\n', Line(Outside, depth + 1, None));
    assert Scan([open, '\n'], a) == deeper;
    ScanConcat([open, '\n'], body, a);
    ScanConcat(s2, "\n", a);
    ScanOne('\n', Line(Outside, depth + 1, end));
    assert Scan(s3, a) == deeper;
    ScanConcat(s3, Spaces(4 * depth), a);
    ScanSpaces(4 * depth, depth + 1, 0);
    ScanConcat(s3 + Spaces(4 * depth), [close], a);
    ScanOne(close, Line(Outside, depth + 1, Some(4 * depth)));
  }

  lemma ScanSeparator(more: bool, depth: nat)
    requires depth > 0
    ensures Scan(Continue(more), Line(Outside, depth, None))
         == Line(Outside, depth, if more then Some(0) else None)
  {
    assert ",\n" == "," + "\n";
    ScanConcat(",", "\n", Line(Outside, depth, None));
    ScanOne(',', Line(Outside, depth, None));
    ScanOne('\n', Line(Outside, depth, None));
  }

  lemma ScanIndent(depth: nat)
    ensures Spaces(4 * depth) + SP4 == Spaces(4 * (depth + 1))
    ensures Scan(Spaces(4 * depth), Line(Outside, depth, Some(0))) == Line(Outside, depth, Some(4 * depth))
  {
    ScanSpaces(4 * depth, depth, 0);
  }

  lemma ScanColon(depth: nat)
    ensures Scan(" : ", Line(Outside, depth, None)) == Line(Outside, depth, None)
  {
    var a := Line(Outside, depth, None);
    assert " : " == [' '] + [':'] + [' '];
    ScanOne(' ', a);
    ScanOne(':', a);
    ScanConcat([' '], [':'], a);
    ScanConcat([' '] + [':'], [' '], a);
  }

  lemma {:induction false} ScanValue(v: Value, a: Layout, depth: nat)
    requires Ready(a, depth)
    ensures Scan(Render(v, Spaces(4 * depth)), a) == Line(Outside, depth, None)
    decreases v, 0
  {
    match v
    case Text(s) => ScanQuote(s, a, depth);
    case List(elems) =>
      var body := RenderElements(elems, Spaces(4 * depth) + SP4);
      ScanElements(elems, depth + 1);
      ScanContainer('[', body, ']', a, depth, if elems == [] then Some(0) else None);
    case Object(members) =>
      var body := RenderMembers(members, Spaces(4 * depth) + SP4);
      ScanMembers(members, depth + 1);
      ScanContainer('{', body, '}', a, depth, if members == [] then Some(0) else None);
    case _ => ScanScalar(v, Spaces(4 * depth), a, depth);
  }

  lemma {:induction false} ScanElements(elems: seq<Value>, depth: nat)
    requires depth > 0
    ensures Scan(RenderElements(elems, Spaces(4 * (depth - 1)) + SP4), Line(Outside, depth, Some(0)))
         == Line(Outside, depth, if elems == [] then Some(0) else None)
    decreases elems, 0
  {
    ScanIndent(depth - 1);
    ScanIndent(depth);
    if elems != [] {
      var a, indent, more := Line(Outside, depth, Some(0)), Spaces(4 * depth), |elems| > 1;
      var value, rest := Render(elems[0], indent), RenderElements(elems[1..], indent);
      ScanConcat(indent, value, a);
      ScanValue(elems[0], Line(Outside, depth, Some(4 * depth)), depth);
      ScanConcat(indent + value, Continue(more), a);
      ScanSeparator(more, depth);
      ScanConcat(indent + value + Continue(more), rest, a);
      if more {
        ScanElements(elems[1..], depth);
      } else {
        assert rest == "";
      }
    }
  }

  lemma {:induction false} ScanMembers(members: seq<Member>, depth: nat)
    requires depth > 0
    ensures Scan(RenderMembers(members, Spaces(4 * (depth - 1)) + SP4), Line(Outside, depth, Some(0)))
         == Line(Outside, depth, if members == [] then Some(0) else None)
    decreases members, 0
  {
    ScanIndent(depth - 1);
    ScanIndent(depth);
    if members != [] {
      var a, indent, more := Line(Outside, depth, Some(0)), Spaces(4 * depth), |members| > 1;
      var key, value := Quote(members[0].key), Render(members[0].value, indent);
      var rest := RenderMembers(members[1..], indent);
      ScanConcat(indent, key, a);
      ScanQuote(members[0].key, Line(Outside, depth, Some(4 * depth)), depth);
      ScanConcat(indent + key, " : ", a);
      ScanColon(depth);
      ScanConcat(indent + key + " : ", value, a);
      ScanValue(members[0].value, Line(Outside, depth, None), depth);
      ScanConcat(indent + key + " : " + value, Continue(more), a);
      ScanSeparator(more, depth);
      ScanConcat(indent + key + " : " + value + Continue(more), rest, a);
      if more {
        ScanMembers(members[1..], depth);
      } else {
        assert rest == "";
      }
    }
  }

  // ----- what the reader of lines accepts

  /** Brackets opened and not closed, outside strings. */
  function Nesting(s: string, l: Lex): int {
    if s == "" then 0
    else
      var c := s[0];
      (if l != Outside then 0 else if c == '[' || c == '{' then 1 else if c == ']' || c == '}' then -1 else 0)
      + Nesting(s[1..], NextLex(l, c))
  }

  predicate StartsLine(s: string, i: nat) {
    i < |s| && (i == 0 || s[i - 1] == '\n')
  }

  /** The line at i starts outside strings, and its first character other than a space, if any, comes
      after four spaces for each container around it; a closing bracket is outside its container. */
  ghost predicate LineAligned(s: string, i: nat) {
    StartsLine(s, i) ==>
      && EndLex(s[..i], Outside) == Outside
      && forall k: nat :: i + k < |s| && s[i..i + k] == Spaces(k) && s[i + k] != ' ' && s[i + k] != '\n' ==>
           k == 4 * (Nesting(s[..i + k], Outside) - if s[i + k] == ']' || s[i + k] == '}' then 1 else 0)
  }

  /** Every line is aligned; the brackets match; and the only line end outside all containers is the
      last character. */
  ghost predicate WellLaidOut(s: string) {
    && (forall i: nat :: LineAligned(s, i))
    && (forall j: nat :: j < |s| && s[j] == '\n' ==> (Nesting(s[..j], Outside) == 0 <==> j == |s| - 1))
    && s != "" && s[|s| - 1] == '\n'
  }

  lemma {:induction false} ScanBad(s: string)
    ensures Scan(s, Bad) == Bad
    ensures s != "" ==> Scan(s, Finished) == Bad
  {
    if s != "" {
      ScanBad(s[1..]);
    }
  }

  /** The reader knows the strings and the nesting. */
  lemma {:induction false} ScanTracks(s: string, a: Layout)
    requires a.Line? && Scan(s, a).Line?
    ensures Scan(s, a).lex == EndLex(s, a.lex) && Scan(s, a).depth == a.depth + Nesting(s, a.lex)
  {
    if s != "" {
      ScanBad(s[1..]);
      ScanTracks(s[1..], NextLayout(a, s[0]));
    }
  }

  /** Ahead of any character of an accepted text the reader is in a line. */
  lemma InLine(s: string, i: nat)
    requires Scan(s, START) == Finished && i < |s|
    ensures var a := Scan(s[..i], START);
      && a.Line? && a.lex == EndLex(s[..i], Outside) && a.depth == Nesting(s[..i], Outside)
      && Scan(s[i + 1..], NextLayout(a, s[i])) == Finished
  {
    assert s == s[..i] + s[i..];
    ScanConcat(s[..i], s[i..], START);
    ScanBad(s[i..]);
    ScanTracks(s[..i], START);
  }

  lemma AtLineStart(s: string, i: nat)
    requires Scan(s, START) == Finished && StartsLine(s, i)
    ensures var a := Scan(s[..i], START); a.Line? && a.lex == Outside && a.spaces == Some(0)
  {
    InLine(s, i);
    if i > 0 {
      InLine(s, i - 1);
      assert s[..i] == s[..i - 1] + [s[i - 1]];
      ScanConcat(s[..i - 1], [s[i - 1]], START);
      ScanOne('\n', Scan(s[..i - 1], START));
    }
  }

  lemma AcceptedIsAligned(s: string, i: nat)
    requires Scan(s, START) == Finished
    ensures LineAligned(s, i)
  {
    if StartsLine(s, i) {
      AtLineStart(s, i);
      InLine(s, i);
      var depth := Scan(s[..i], START).depth;
      forall k: nat | i + k < |s| && s[i..i + k] == Spaces(k) && s[i + k] != ' ' && s[i + k] != '\n'
        ensures k == 4 * (Nesting(s[..i + k], Outside) - if s[i + k] == ']' || s[i + k] == '}' then 1 else 0)
      {
        assert s[..i + k] == s[..i] + Spaces(k);
        ScanConcat(s[..i], Spaces(k), START);
        ScanSpaces(k, depth, 0);
        InLine(s, i + k);
        ScanBad(s[i + k + 1..]);
      }
    }
  }

  lemma AcceptedEndsOnce(s: string, j: nat)
    requires Scan(s, START) == Finished && j < |s| && s[j] == '\n'
    ensures Nesting(s[..j], Outside) == 0 <==> j == |s| - 1
  {
    InLine(s, j);
    ScanBad(s[j + 1..]);
  }

  /** A text that the reader accepts is laid out line by line. */
  lemma AcceptedIsLaidOut(s: string)
    requires Scan(s, START) == Finished
    ensures WellLaidOut(s)
  {
    forall i: nat ensures LineAligned(s, i) {
      AcceptedIsAligned(s, i);
    }
    forall j: nat | j < |s| && s[j] == '\n' ensures Nesting(s[..j], Outside) == 0 <==> j == |s| - 1 {
      AcceptedEndsOnce(s, j);
    }
    InLine(s, |s| - 1);
  }

  /** Every line of a top-level call starts with four spaces for each container around it; its text
      is made of whole lines, and its only line end outside a container is its last character. */
  lemma PrettyIndented(v: Value)
    ensures WellLaidOut(Pretty(v, ""))
    ensures Scan(Pretty(v, ""), START) == Finished
    ensures Scan(Render(v, ""), START) == Line(Outside, 0, None)
  {
    assert Spaces(0) == "";
    ScanValue(v, START, 0);
    ScanConcat(Render(v, ""), "\n", START);
    ScanOne('\n', Line(Outside, 0, None));
    AcceptedIsLaidOut(Pretty(v, ""));
  }
}
