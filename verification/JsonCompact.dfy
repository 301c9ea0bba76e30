// The compact text of a tree: it reads back as that tree, no JSON text of the tree is shorter, and the
// printed text is what a formatter makes of it character by character.
module JsonCompact {
  import opened Basics
  import opened JsonText
  import opened JsonGrammar
  import opened PrettyPrinter
  import opened JsonRoundTrip
  import opened JsonLayout

  // ----- characters and integers

  lemma ShortEscape(c: char)
    ensures |EscapeChar(c)| == 2 <==> exists e :: SimpleEscape(e) == Some(c) && e != '/'
  {
    var h := EscapeChar(c);
    if |h| == 2 {
      assert SimpleEscape(h[1]) == Some(c) && h[1] != '/';
    }
  }

  lemma HexCode(hi: nat, lo: nat)
    requires hi < 16 && lo < 16
    ensures CodeUnit(['0', '0', HexDigit(hi), HexDigit(lo)]) == Some(hi * 16 + lo)
  {
    HexBack(hi);
    HexBack(lo);
  }

  lemma LowerHex(d: nat)
    requires d < 16
    ensures HexDigit(d) in "0123456789abcdef" && (d < 2 ==> HexDigit(d) in "01")
  {
    assert d < 2 ==> HexDigit(d) == "01"[d];
  }

  lemma ControlText(hi: char, lo: char)
    ensures var h := "\\u00" + [hi, lo];
      |h| == 6 && h[..4] == "\\u00" && h[2..] == ['0', '0', hi, lo] && h[4] == hi && h[5] == lo
  {}

  /** The code of a control character in lower-case hexadecimal digits. */
  ghost predicate IsControlEscape(h: string, code: int) {
    && |h| == 6 && h[..4] == "\\u00" && h[4] in "01" && h[5] in "0123456789abcdef"
    && CodeUnit(h[2..]) == Some(code)
  }

  lemma ControlEscape(hi: nat, lo: nat)
    requires hi < 2 && lo < 16
    ensures IsControlEscape("\\u00" + [HexDigit(hi), HexDigit(lo)], hi * 16 + lo)
  {
    HexCode(hi, lo);
    LowerHex(hi);
    LowerHex(lo);
    ControlText(HexDigit(hi), HexDigit(lo));
  }

  lemma LongEscape(c: char)
    requires |EscapeChar(c)| > 2
    ensures IsControlEscape(EscapeChar(c), c as int)
  {
    var hi, lo := c as int / 16, c as int % 16;
    ControlEscape(hi, lo);
    assert EscapeChar(c) == "\\u00" + [HexDigit(hi), HexDigit(lo)];
  }

  /** Only what section 7 of RFC 8259 wants escaped is escaped: by two characters if there is such an
      escape, and otherwise by the code in lower-case hexadecimal digits. */
  lemma EscapedExactly(c: char)
    ensures EscapeChar(c) == [c] <==> ' ' <= c && c != '\"' && c != '\\'
    ensures |EscapeChar(c)| == 2 <==> exists e :: SimpleEscape(e) == Some(c) && e != '/'
    ensures EscapeChar(c) == [c] || |EscapeChar(c)| == 2 || IsControlEscape(EscapeChar(c), c as int)
  {
    ShortEscape(c);
    if |EscapeChar(c)| > 2 {
      LongEscape(c);
    }
  }

  /** A sign for the negative numbers and no other. */
  lemma SignExactly(n: int)
    ensures IntText(n) != "" && (IntText(n)[0] == '-' <==> n < 0)
    ensures n < 0 ==> IntText(n)[1..] == IntText(-n)
  {
    var m := if n < 0 then -n else n;
    DigitsBack(m);
    assert NatText(m)[0] in NatText(m);
    assert n < 0 ==> IntText(n)[1..] == NatText(m);
  }

  lemma EscapeLength(c: char, e: char)
    ensures |EscapeChar(c)| <= 6
    ensures SimpleEscape(e) == Some(c) ==> |EscapeChar(c)| <= 2
  {}

  lemma EscapeTakes(s: string)
    requires ParseEscape(s).Got?
    ensures var taken := |s| - |ParseEscape(s).rest|;
      taken >= 5 || (taken == 1 && SimpleEscape(s[0]) == Some(ParseEscape(s).value))
  {}

  lemma EscapeShortest(s: string)
    requires ParseEscape(s).Got?
    ensures |EscapeChar(ParseEscape(s).value)| <= 1 + |s| - |ParseEscape(s).rest|
  {
    EscapeTakes(s);
    EscapeLength(ParseEscape(s).value, s[0]);
  }

  lemma {:induction false} CharsShortest(s: string)
    requires ParseChars(s).Got?
    ensures |EscapeAll(ParseChars(s).value)| + 1 <= |s| - |ParseChars(s).rest|
    decreases |s|
  {
    if s[0] == '\\' {
      var e := ParseEscape(s[1..]);
      EscapeShortest(s[1..]);
      CharsShortest(e.rest);
      assert ([e.value] + ParseChars(e.rest).value)[1..] == ParseChars(e.rest).value;
    } else if s[0] != '\"' {
      CharsShortest(s[1..]);
      assert ([s[0]] + ParseChars(s[1..]).value)[1..] == ParseChars(s[1..]).value;
    }
  }

  lemma StringShortest(s: string)
    requires ParseString(s).Got?
    ensures |Quote(ParseString(s).value)| <= |s| - |ParseString(s).rest|
  {
    CharsShortest(s[1..]);
  }

  lemma {:induction false} DigitsShortest(digits: string)
    requires digits != "" && forall c :: c in digits ==> IsDigit(c)
    ensures |NatText(DigitsValue(digits))| <= |digits|
  {
    var front, last := digits[..|digits| - 1], digits[|digits| - 1];
    assert last in digits;
    if front != "" {
      assert forall c :: c in front ==> c in digits;
      DigitsShortest(front);
      assert DigitsValue(digits) / 10 == DigitsValue(front);
    } else {
      assert DigitsValue(front) == 0;
    }
  }

  lemma NatShortest(s: string)
    requires ParseNat(s).Got?
    ensures ParseNat(s).value >= 0 && |NatText(ParseNat(s).value)| <= |s| - |ParseNat(s).rest|
  {
    DigitsShortest(s[..DigitRun(s)]);
  }

  lemma IntShortest(s: string)
    requires ParseInt(s).Got?
    ensures |IntText(ParseInt(s).value)| <= |s| - |ParseInt(s).rest|
  {
    if s[0] == '-' {
      NatShortest(s[1..]);
    } else {
      NatShortest(s);
    }
  }

  // ----- no text of a tree is shorter than its compact text

  lemma {:induction false} ValueShortest(s: string)
    requires ParseValue(s).Got?
    ensures |Compact(ParseValue(s).value)| <= |s| - |ParseValue(s).rest|
    decreases |s|, 0
  {
    if s[0] == '{' {
      var t := SkipWs(s[1..]);
      if t[0] != '}' {
        MembersShortest(t);
      }
    } else if s[0] == '[' {
      var t := SkipWs(s[1..]);
      if t[0] != ']' {
        ElementsShortest(t);
      }
    } else if s[0] == '\"' {
      StringShortest(s);
    } else if !("true" <= s) && !("false" <= s) && !("null" <= s) {
      IntShortest(s);
    }
  }

  lemma {:induction false} ElementsShortest(s: string)
    requires ParseElements(s).Got?
    ensures |CompactElements(ParseElements(s).value)| + 1 <= |s| - |ParseElements(s).rest|
    decreases |s|, 1
  {
    ValueShortest(s);
    var v, t := ParseValue(s).value, SkipWs(ParseValue(s).rest);
    if t[0] == ',' {
      var more := SkipWs(t[1..]);
      ElementsShortest(more);
      assert ([v] + ParseElements(more).value)[1..] == ParseElements(more).value;
    } else {
      assert [v][1..] == [];
    }
  }

  lemma {:induction false} MemberShortest(s: string)
    requires ParseMember(s).Got?
    ensures var m := ParseMember(s).value;
      |Quote(m.key)| + 1 + |Compact(m.value)| <= |s| - |ParseMember(s).rest|
    decreases |s|, 0
  {
    StringShortest(s);
    var t := SkipWs(ParseString(s).rest);
    ValueShortest(SkipWs(t[1..]));
  }

  lemma {:induction false} MembersShortest(s: string)
    requires ParseMembers(s).Got?
    ensures |CompactMembers(ParseMembers(s).value)| + 1 <= |s| - |ParseMembers(s).rest|
    decreases |s|, 1
  {
    MemberShortest(s);
    var m, t := ParseMember(s).value, SkipWs(ParseMember(s).rest);
    if t[0] == ',' {
      var more := SkipWs(t[1..]);
      MembersShortest(more);
      assert ([m] + ParseMembers(more).value)[1..] == ParseMembers(more).value;
    } else {
      assert [m][1..] == [];
    }
  }

  // ----- the compact text reads back

  /** A text that starts with a value: no white space, and no closing bracket. */
  predicate StartsValue(s: string) {
    s != "" && !IsWs(s[0]) && s[0] != ']' && s[0] != '}'
  }

  lemma CompactStarts(v: Value)
    ensures StartsValue(Compact(v))
  {
    if v.Number? {
      var m := if v.n < 0 then -v.n else v.n;
      DigitsBack(m);
      assert NatText(m)[0] in NatText(m);
    }
  }

  lemma ElementsStart(elems: seq<Value>, rest: string)
    requires elems != []
    ensures StartsValue(CompactElements(elems) + rest)
  {
    CompactStarts(elems[0]);
  }

  /** A container, read after its opening bracket. */
  lemma ReadList(text: string, elems: seq<Value>, rest: string)
    requires StartsValue(text) && ParseElements(text) == Got(elems, rest)
    ensures ParseValue("[" + text) == Got(List(elems), rest)
  {
    assert ("[" + text)[1..] == text;
  }

  lemma ReadObject(text: string, members: seq<Member>, rest: string)
    requires StartsValue(text) && ParseMembers(text) == Got(members, rest)
    ensures ParseValue("{" + text) == Got(Object(members), rest)
  {
    assert ("{" + text)[1..] == text;
  }

  lemma ReadEmpty(rest: string)
    ensures ParseValue("[" + "]" + rest) == Got(List([]), rest)
    ensures ParseValue("{" + "}" + rest) == Got(Object([]), rest)
  {
    assert ("[" + "]" + rest)[1..] == "]" + rest && ("{" + "}" + rest)[1..] == "}" + rest;
    assert ("]" + rest)[1..] == rest && ("}" + rest)[1..] == rest;
  }

  lemma {:induction false} CompactBack(v: Value, rest: string)
    requires EndsNumber(rest)
    ensures ParseValue(Compact(v) + rest) == Got(v, rest)
    decreases v, 1
  {
    match v
    case Text(s) => StringBack(s, rest);
    case List(elems) => CompactListBack(elems, rest);
    case Object(members) => CompactObjectBack(members, rest);
    case Null => ValueBack(v, "", rest);
    case Bool(_) => ValueBack(v, "", rest);
    case Number(_) => ValueBack(v, "", rest);
  }

  lemma {:induction false} CompactListBack(elems: seq<Value>, rest: string)
    ensures ParseValue(Compact(List(elems)) + rest) == Got(List(elems), rest)
    decreases elems, 1
  {
    var text := CompactElements(elems) + ("]" + rest);
    assert Compact(List(elems)) + rest == "[" + text;
    if elems == [] {
      assert "[" + text == "[" + "]" + rest;
      ReadEmpty(rest);
    } else {
      CompactElementsBack(elems, rest);
      ElementsStart(elems, "]" + rest);
      ReadList(text, elems, rest);
    }
  }

  lemma {:induction false} CompactObjectBack(members: seq<Member>, rest: string)
    ensures ParseValue(Compact(Object(members)) + rest) == Got(Object(members), rest)
    decreases members, 1
  {
    var text := CompactMembers(members) + ("}" + rest);
    assert Compact(Object(members)) + rest == "{" + text;
    if members == [] {
      assert "{" + text == "{" + "}" + rest;
      ReadEmpty(rest);
    } else {
      CompactMembersBack(members, rest);
      ReadObject(text, members, rest);
    }
  }

  function CompactMember(m: Member): string {
    Quote(m.key) + ":" + Compact(m.value)
  }


  /** What a text of elements or members starts with. */
  lemma Follows(first: string, rest: string, close: string)
    ensures first + "," + rest + close == first + ("," + (rest + close))
    ensures first + "" + "" + close == first + close
  {}

  lemma ElementsText(elems: seq<Value>, close: string)
    requires elems != []
    ensures CompactElements(elems) + close == Compact(elems[0])
         + if |elems| == 1 then close else "," + (CompactElements(elems[1..]) + close)
  {
    Follows(Compact(elems[0]), CompactElements(elems[1..]), close);
  }

  lemma MembersText(members: seq<Member>, close: string)
    requires members != []
    ensures CompactMembers(members) + close == CompactMember(members[0])
         + if |members| == 1 then close else "," + (CompactMembers(members[1..]) + close)
  {
    Follows(CompactMember(members[0]), CompactMembers(members[1..]), close);
  }

  lemma LastElement(v: Value, rest: string)
    requires ParseValue(Compact(v) + ("]" + rest)) == Got(v, "]" + rest)
    ensures ParseElements(Compact(v) + ("]" + rest)) == Got([v], rest)
  {
    assert ("]" + rest)[1..] == rest;
  }

  lemma LastMember(m: Member, rest: string)
    requires ParseMember(CompactMember(m) + ("}" + rest)) == Got(m, "}" + rest)
    ensures ParseMembers(CompactMember(m) + ("}" + rest)) == Got([m], rest)
  {
    assert ("}" + rest)[1..] == rest;
  }

  lemma AfterComma(more: string)
    requires StartsValue(more)
    ensures SkipWs("," + more) == "," + more && SkipWs(("," + more)[1..]) == more
  {
    assert ("," + more)[1..] == more;
  }

  lemma {:induction false} CompactElementsBack(elems: seq<Value>, rest: string)
    requires elems != []
    ensures ParseElements(CompactElements(elems) + ("]" + rest)) == Got(elems, rest)
    decreases elems, 0
  {
    var v, tail := elems[0], elems[1..];
    ElementsText(elems, "]" + rest);
    if |elems| == 1 {
      CompactBack(v, "]" + rest);
      LastElement(v, rest);
      assert elems == [v];
    } else {
      var more := CompactElements(tail) + ("]" + rest);
      CompactBack(v, "," + more);
      CompactElementsBack(tail, rest);
      ElementsStart(tail, "]" + rest);
      AfterComma(more);
      ReadElement(Compact(v) + ("," + more), v, "," + more, more, tail, rest);
      assert elems == [v] + tail;
    }
  }
  lemma CompactMemberBack(m: Member, rest: string)
    requires ParseValue(Compact(m.value) + rest) == Got(m.value, rest)
    ensures ParseMember(CompactMember(m) + rest) == Got(m, rest)
  {
    var value := Compact(m.value) + rest;
    assert CompactMember(m) + rest == Quote(m.key) + (":" + value);
    assert (":" + value)[1..] == value;
    StringBack(m.key, ":" + value);
    CompactStarts(m.value);
  }

  lemma ReadMoreMembers(first: string, m: Member, more: string, tail: seq<Member>, rest: string)
    requires StartsValue(more) && ParseMember(first + ("," + more)) == Got(m, "," + more)
    requires ParseMembers(more) == Got(tail, rest)
    ensures ParseMembers(first + ("," + more)) == Got([m] + tail, rest)
  {
    AfterComma(more);
    ReadMember(first + ("," + more), m, "," + more, more, tail, rest);
  }

  lemma FirstCompactMember(members: seq<Member>, more: string, close: string, rest: string)
    requires |members| > 1 && StartsValue(more) && more == CompactMembers(members[1..]) + close
    requires ParseMember(CompactMember(members[0]) + ("," + more)) == Got(members[0], "," + more)
    requires ParseMembers(more) == Got(members[1..], rest)
    ensures ParseMembers(CompactMembers(members) + close) == Got(members, rest)
  {
    MembersText(members, close);
    ReadMoreMembers(CompactMember(members[0]), members[0], more, members[1..], rest);
    assert members == [members[0]] + members[1..];
  }

  lemma {:induction false} CompactMembersBack(members: seq<Member>, rest: string)
    requires members != []
    ensures ParseMembers(CompactMembers(members) + ("}" + rest)) == Got(members, rest)
    decreases members, 0
  {
    var m := members[0];
    if |members| == 1 {
      MembersText(members, "}" + rest);
      CompactBack(m.value, "}" + rest);
      CompactMemberBack(m, "}" + rest);
      LastMember(m, rest);
      assert members == [m];
    } else {
      var more := CompactMembers(members[1..]) + ("}" + rest);
      CompactBack(m.value, "," + more);
      CompactMemberBack(m, "," + more);
      CompactMembersBack(members[1..], rest);
      assert more[0] == '\"';
      FirstCompactMember(members, more, "}" + rest, rest);
    }
  }

  /** The compact text is a shortest JSON text of its tree: it reads back as that tree, and every text
      that does is at least as long. */
  lemma CompactIsShortest(v: Value, t: string)
    ensures ParseText(Compact(v)) == Some(v)
    ensures ParseText(t) == Some(v) ==> |Compact(v)| <= |t|
  {
    CompactStarts(v);
    CompactBack(v, "");
    assert Compact(v) + "" == Compact(v);
    if ParseText(t) == Some(v) {
      ValueShortest(SkipWs(t));
    }
  }

  // ----- the printed text, as a formatter makes it from the compact one

  /** Where the formatter is: inside or outside a string, how deep, and whether at the start of a line. */
  datatype Pen = Pen(lex: Lex, depth: nat, atStart: bool)

  predicate Opens(c: char) {
    c == '[' || c == '{'
  }

  predicate Closes(c: char) {
    c == ']' || c == '}'
  }

  function Indent(depth: nat, atStart: bool): string {
    if atStart then Spaces(4 * depth) else ""
  }

  /** What the formatter writes for a character: a line end after each opening bracket and comma and
      before each closing bracket, four spaces per open bracket at the start of a line, and a space on
      both sides of a colon. */
  function Put(p: Pen, c: char): string {
    if p.lex != Outside then [c]
    else if Closes(c) then "\n" + Spaces(4 * (if p.depth > 0 then p.depth - 1 else 0)) + [c]
    else Indent(p.depth, p.atStart) + (if Opens(c) || c == ',' then [c] + "\n" else if c == ':' then " : " else [c])
  }

  function Move(p: Pen, c: char): Pen {
    if p.lex != Outside then p.(lex := NextLex(p.lex, c))
    else if Closes(c) then Pen(Outside, if p.depth > 0 then p.depth - 1 else 0, false)
    else if Opens(c) then Pen(Outside, p.depth + 1, true)
    else Pen(NextLex(Outside, c), p.depth, c == ',')
  }

  /** What has been written, and where the formatter is then. */
  datatype Page = Page(text: string, pen: Pen)

  function Format(s: string, p: Pen): Page {
    if s == "" then Page("", p)
    else
      var rest := Format(s[1..], Move(p, s[0]));
      Page(Put(p, s[0]) + rest.text, rest.pen)
  }

  ghost predicate Writes(s: string, p: Pen, out: string, q: Pen) {
    Format(s, p) == Page(out, q)
  }

  lemma WritesFirst(c: char, s: string, p: Pen, out: string, q: Pen)
    requires Writes(s, Move(p, c), out, q)
    ensures Writes([c] + s, p, Put(p, c) + out, q)
  {
    assert ([c] + s)[0] == c && ([c] + s)[1..] == s;
  }

  lemma Spliced(a: string, b: string, x: string, y: string, z: string)
    requires a != ""
    ensures [a[0]] + (a[1..] + b) == a + b && x + (y + z) == x + y + z
  {}


  lemma {:induction false} WritesConcat(a: string, x: string, b: string, y: string, p: Pen, q: Pen, r: Pen)
    requires Writes(a, p, x, q) && Writes(b, q, y, r)
    ensures Writes(a + b, p, x + y, r)
    decreases |a|
  {
    if a == "" {
      assert a + b == b && x + y == y;
    } else {
      var c, tail := a[0], a[1..];
      var rest := Format(tail, Move(p, c)).text;
      WritesConcat(tail, rest, b, y, Move(p, c), q, r);
      WritesFirst(c, tail + b, p, rest + y, r);
      Spliced(a, b, Put(p, c), rest, y);
    }
  }
  lemma WritesThree(a: string, x: string, b: string, y: string, c: string, z: string, p: Pen, q: Pen, r: Pen, u: Pen)
    requires Writes(a, p, x, q) && Writes(b, q, y, r) && Writes(c, r, z, u)
    ensures Writes(a + b + c, p, x + y + z, u)
  {
    WritesConcat(a, x, b, y, p, q, r);
    WritesConcat(a + b, x + y, c, z, p, r, u);
  }

  lemma WritesOne(c: char, p: Pen)
    ensures Writes([c], p, Put(p, c), Move(p, c))
  {
    assert [c][1..] == "" && Put(p, c) + "" == Put(p, c);
  }

  lemma {:induction false} WritesInside(s: string, l: Lex, depth: nat)
    requires StaysInside(s, l)
    ensures Writes(s, Pen(l, depth, false), s, Pen(EndLex(s, l), depth, false))
  {
    if s != "" {
      WritesInside(s[1..], NextLex(l, s[0]), depth);
    }
  }

  lemma WritesMarks(depth: nat, atStart: bool)
    ensures Writes("\"", Pen(Outside, depth, atStart), Indent(depth, atStart) + "\"", Pen(Inside, depth, false))
    ensures Writes("\"", Pen(Inside, depth, false), "\"", Pen(Outside, depth, false))
  {
    WritesOne('\"', Pen(Outside, depth, atStart));
    WritesOne('\"', Pen(Inside, depth, false));
  }

  lemma WritesEscaped(s: string, depth: nat)
    ensures Writes(EscapeAll(s), Pen(Inside, depth, false), EscapeAll(s), Pen(Inside, depth, false))
  {
    EscapedInside(s);
    WritesInside(EscapeAll(s), Inside, depth);
  }

  lemma Quoted(indent: string, body: string)
    ensures indent + "\"" + body + "\"" == indent + ("\"" + body + "\"")
  {}

  lemma WritesQuote(s: string, depth: nat, atStart: bool)
    ensures Writes(Quote(s), Pen(Outside, depth, atStart),
                   Indent(depth, atStart) + Quote(s), Pen(Outside, depth, false))
  {
    var body, indent, inside := EscapeAll(s), Indent(depth, atStart), Pen(Inside, depth, false);
    WritesEscaped(s, depth);
    WritesMarks(depth, atStart);
    Quoted(indent, body);
    WritesThree("\"", indent + "\"", body, body, "\"", "\"",
                Pen(Outside, depth, atStart), inside, inside, Pen(Outside, depth, false));
  }

  /** A character that is printed as it is. */
  predicate IsLetter(c: char) {
    c != '\"' && c != ',' && c != ':' && !Opens(c) && !Closes(c)
  }

  lemma {:induction false} WritesLetters(s: string, depth: nat)
    requires forall c :: c in s ==> IsLetter(c)
    ensures Writes(s, Pen(Outside, depth, false), s, Pen(Outside, depth, false))
  {
    if s != "" {
      assert s[0] in s;
      assert forall c :: c in s[1..] ==> c in s;
      WritesLetters(s[1..], depth);
    }
  }

  lemma WritesFirstLetter(c: char, tail: string, depth: nat, atStart: bool)
    requires IsLetter(c) && Writes(tail, Pen(Outside, depth, false), tail, Pen(Outside, depth, false))
    ensures Writes([c] + tail, Pen(Outside, depth, atStart),
                   Indent(depth, atStart) + [c] + tail, Pen(Outside, depth, false))
  {
    WritesFirst(c, tail, Pen(Outside, depth, atStart), tail, Pen(Outside, depth, false));
  }

  lemma FirstLetter(s: string, indent: string)
    requires s != ""
    ensures s == [s[0]] + s[1..] && indent + s == indent + [s[0]] + s[1..]
  {}

  lemma WritesScalar(s: string, depth: nat, atStart: bool)
    requires s != "" && forall c :: c in s ==> IsLetter(c)
    ensures Writes(s, Pen(Outside, depth, atStart), Indent(depth, atStart) + s, Pen(Outside, depth, false))
  {
    var tail := s[1..];
    assert IsLetter(s[0]) by { assert s[0] in s; }
    assert forall c :: c in tail ==> c in s;
    WritesLetters(tail, depth);
    WritesFirstLetter(s[0], tail, depth, atStart);
    FirstLetter(s, Indent(depth, atStart));
  }

  lemma WritesBrackets(open: char, close: char, depth: nat, atStart: bool, end: bool)
    requires Opens(open) && Closes(close)
    ensures Writes([open], Pen(Outside, depth, atStart),
                   Indent(depth, atStart) + ([open] + "\n"), Pen(Outside, depth + 1, true))
    ensures Writes([close], Pen(Outside, depth + 1, end),
                   "\n" + Spaces(4 * depth) + [close], Pen(Outside, depth, false))
  {
    WritesOne(open, Pen(Outside, depth, atStart));
    WritesOne(close, Pen(Outside, depth + 1, end));
  }

  lemma Bracketed(indent: string, open: string, body: string, back: string, close: string)
    ensures (indent + (open + "\n")) + body + ("\n" + back + close)
         == indent + (open + "\n" + body + "\n" + back + close)
  {}

  lemma WritesContainer(open: char, text: string, body: string, close: char, depth: nat, atStart: bool, end: bool)
    requires Opens(open) && Closes(close)
    requires Writes(text, Pen(Outside, depth + 1, true), body, Pen(Outside, depth + 1, end))
    ensures Writes([open] + text + [close], Pen(Outside, depth, atStart),
                   Indent(depth, atStart) + ([open] + "\n" + body + "\n" + Spaces(4 * depth) + [close]),
                   Pen(Outside, depth, false))
  {
    WritesBrackets(open, close, depth, atStart, end);
    WritesThree([open], Indent(depth, atStart) + ([open] + "\n"), text, body,
                [close], "\n" + Spaces(4 * depth) + [close],
                Pen(Outside, depth, atStart), Pen(Outside, depth + 1, true), Pen(Outside, depth + 1, end),
                Pen(Outside, depth, false));
    Bracketed(Indent(depth, atStart), [open], body, Spaces(4 * depth), [close]);
  }

  lemma WritesComma(more: bool, depth: nat)
    ensures Writes(Comma(more), Pen(Outside, depth, false), Continue(more), Pen(Outside, depth, more))
  {
    WritesOne(',', Pen(Outside, depth, false));
    assert "" + ([','] + "\n") == ",\n";
  }

  lemma NumberLetters(n: int)
    ensures IntText(n) != "" && forall c :: c in IntText(n) ==> IsLetter(c)
  {
    DigitsBack(if n < 0 then -n else n);
  }

  lemma AtomLetters(v: Value)
    requires v.Null? || v.Bool? || v.Number?
    ensures Compact(v) != "" && forall c :: c in Compact(v) ==> IsLetter(c)
  {
    if v.Number? {
      NumberLetters(v.n);
    }
  }

  lemma WritesAtom(v: Value, depth: nat, atStart: bool)
    requires v.Null? || v.Bool? || v.Number?
    ensures Writes(Compact(v), Pen(Outside, depth, atStart),
                   Indent(depth, atStart) + Render(v, Spaces(4 * depth)), Pen(Outside, depth, false))
  {
    AtomLetters(v);
    assert Render(v, Spaces(4 * depth)) == Compact(v);
    WritesScalar(Compact(v), depth, atStart);
  }

  lemma RenderedDeeper(elems: seq<Value>, members: seq<Member>, depth: nat)
    ensures Render(List(elems), Spaces(4 * depth))
         == ['['] + "\n" + RenderElements(elems, Spaces(4 * (depth + 1))) + "\n" + Spaces(4 * depth) + [']']
    ensures Render(Object(members), Spaces(4 * depth))
         == ['{'] + "\n" + RenderMembers(members, Spaces(4 * (depth + 1))) + "\n" + Spaces(4 * depth) + ['}']
  {
    ScanIndent(depth);
    assert ['['] + "\n" == "[\n" && ['{'] + "\n" == "{\n";
  }

  lemma WritesList(elems: seq<Value>, depth: nat, atStart: bool)
    requires Writes(CompactElements(elems), Pen(Outside, depth + 1, true),
                    RenderElements(elems, Spaces(4 * (depth + 1))), Pen(Outside, depth + 1, elems == []))
    ensures Writes(Compact(List(elems)), Pen(Outside, depth, atStart),
                   Indent(depth, atStart) + Render(List(elems), Spaces(4 * depth)), Pen(Outside, depth, false))
  {
    var body := RenderElements(elems, Spaces(4 * (depth + 1)));
    WritesContainer('[', CompactElements(elems), body, ']', depth, atStart, elems == []);
    RenderedDeeper(elems, [], depth);
  }

  lemma WritesObject(members: seq<Member>, depth: nat, atStart: bool)
    requires Writes(CompactMembers(members), Pen(Outside, depth + 1, true),
                    RenderMembers(members, Spaces(4 * (depth + 1))), Pen(Outside, depth + 1, members == []))
    ensures Writes(Compact(Object(members)), Pen(Outside, depth, atStart),
                   Indent(depth, atStart) + Render(Object(members), Spaces(4 * depth)), Pen(Outside, depth, false))
  {
    var body := RenderMembers(members, Spaces(4 * (depth + 1)));
    WritesContainer('{', CompactMembers(members), body, '}', depth, atStart, members == []);
    RenderedDeeper([], members, depth);
  }

  lemma {:induction false} WritesValue(v: Value, depth: nat, atStart: bool)
    ensures Writes(Compact(v), Pen(Outside, depth, atStart),
                   Indent(depth, atStart) + Render(v, Spaces(4 * depth)), Pen(Outside, depth, false))
    decreases v, 0
  {
    if v.Text? {
      WritesQuote(v.s, depth, atStart);
    } else if v.List? {
      WritesElements(v.elems, depth + 1);
      WritesList(v.elems, depth, atStart);
    } else if v.Object? {
      WritesMembers(v.members, depth + 1);
      WritesObject(v.members, depth, atStart);
    } else {
      WritesAtom(v, depth, atStart);
    }
  }

  lemma {:induction false} WritesElements(elems: seq<Value>, depth: nat)
    ensures Writes(CompactElements(elems), Pen(Outside, depth, true),
                   RenderElements(elems, Spaces(4 * depth)), Pen(Outside, depth, elems == []))
    decreases elems, 0
  {
    if elems != [] {
      var p, q, indent, more := Pen(Outside, depth, true), Pen(Outside, depth, false), Spaces(4 * depth), |elems| > 1;
      var first, shown := Compact(elems[0]), indent + Render(elems[0], indent);
      var r := Pen(Outside, depth, more);
      WritesValue(elems[0], depth, true);
      WritesComma(more, depth);
      WritesConcat(first, shown, Comma(more), Continue(more), p, q, r);
      if more {
        WritesElements(elems[1..], depth);
      } else {
        assert elems[1..] == [];
      }
      WritesConcat(first + Comma(more), shown + Continue(more),
                   CompactElements(elems[1..]), RenderElements(elems[1..], indent), p, r, q);
    }
  }

  lemma WritesMember(m: Member, depth: nat)
    requires Writes(Compact(m.value), Pen(Outside, depth, false),
                    "" + Render(m.value, Spaces(4 * depth)), Pen(Outside, depth, false))
    ensures Writes(Quote(m.key) + ":" + Compact(m.value), Pen(Outside, depth, true),
                   Spaces(4 * depth) + Quote(m.key) + " : " + Render(m.value, Spaces(4 * depth)),
                   Pen(Outside, depth, false))
  {
    var p, q, indent := Pen(Outside, depth, true), Pen(Outside, depth, false), Spaces(4 * depth);
    var value := Render(m.value, indent);
    assert "" + value == value;
    WritesQuote(m.key, depth, true);
    WritesOne(':', q);
    assert "" + " : " == " : ";
    WritesConcat(Quote(m.key), indent + Quote(m.key), ":", " : ", p, q, q);
    WritesConcat(Quote(m.key) + ":", indent + Quote(m.key) + " : ", Compact(m.value), value, p, q, q);
  }


  lemma {:induction false} WritesMembers(members: seq<Member>, depth: nat)
    ensures Writes(CompactMembers(members), Pen(Outside, depth, true),
                   RenderMembers(members, Spaces(4 * depth)), Pen(Outside, depth, members == []))
    decreases members, 0
  {
    if members != [] {
      var p, q, indent, more := Pen(Outside, depth, true), Pen(Outside, depth, false), Spaces(4 * depth), |members| > 1;
      var m, r := members[0], Pen(Outside, depth, more);
      WritesValue(m.value, depth, false);
      WritesMember(m, depth);
      WritesComma(more, depth);
      WritesConcat(Quote(m.key) + ":" + Compact(m.value), indent + Quote(m.key) + " : " + Render(m.value, indent),
                   Comma(more), Continue(more), p, q, r);
      if more {
        WritesMembers(members[1..], depth);
      } else {
        assert members[1..] == [];
      }
      WritesConcat(Quote(m.key) + ":" + Compact(m.value) + Comma(more),
                   indent + Quote(m.key) + " : " + Render(m.value, indent) + Continue(more),
                   CompactMembers(members[1..]), RenderMembers(members[1..], indent), p, r, q);
    }
  }
  /** The recursive printer with its shared indent writes what a formatter that knows nothing but the
      number of open brackets makes of the compact text, one character after the other, and then ends
      the line. */
  lemma PrettyIsFormatted(v: Value)
    ensures Pretty(v, "") == Format(Compact(v), Pen(Outside, 0, false)).text + "\n"
  {
    WritesValue(v, 0, false);
    assert Spaces(0) == "";
    assert "" + Render(v, "") == Render(v, "");
  }
}
