// Reading back what the printer writes gives the tree that was printed.
module JsonRoundTrip {
  import opened Basics
  import opened JsonText
  import opened JsonGrammar
  import opened PrettyPrinter

  ghost predicate Blank(s: string) {
    forall c :: c in s ==> IsWs(c)
  }

  /** Text that can follow a number without becoming part of it. */
  predicate EndsNumber(s: string) {
    s != "" ==> !IsDigit(s[0])
  }

  predicate StartsBlank(s: string) {
    s != "" && IsWs(s[0])
  }

  lemma {:induction false} SkipBlank(blank: string, s: string)
    requires Blank(blank)
    requires !StartsBlank(s)
    ensures SkipWs(blank + s) == s
  {
    if blank == "" {
      assert blank + s == s;
    } else {
      assert (blank + s)[1..] == blank[1..] + s;
      SkipBlank(blank[1..], s);
    }
  }

  // ----- strings

  lemma HexBack(d: nat)
    requires d < 16
    ensures HexValue(HexDigit(d)) == Some(d)
  {}

  lemma ControlBack(c: char, rest: string)
    requires c < ' '
    ensures ParseEscape("u00" + [HexDigit(c as int / 16), HexDigit(c as int % 16)] + rest) == Got(c, rest)
  {
    var hi, lo := c as int / 16, c as int % 16;
    HexBack(hi);
    HexBack(lo);
    var s := "u00" + [HexDigit(hi), HexDigit(lo)] + rest;
    assert s[1..][0] == '0' && s[1..][1] == '0' && s[1..][2] == HexDigit(hi) && s[1..][3] == HexDigit(lo);
    assert CodeUnit(s[1..]) == Some(hi * 16 + lo);
    assert s[5..] == rest;
  }

  lemma CharBack(c: char, rest: string)
    ensures ParseChars(EscapeChar(c) + rest) == Prepend(c, ParseChars(rest))
  {
    var s := EscapeChar(c) + rest;
    if c == '\"' || c == '\\' || c == '\U{08}' || c == '\U{0C}' || c == '\n' || c == '\r' || c == '\t' {
      assert s[0] == '\\' && s[1..][0] == EscapeChar(c)[1] && s[1..][1..] == rest;
    } else if c < ' ' {
      assert s[0] == '\\';
      assert s[1..] == "u00" + [HexDigit(c as int / 16), HexDigit(c as int % 16)] + rest;
      ControlBack(c, rest);
    } else {
      assert s[0] == c && s[1..] == rest;
    }
  }

  lemma {:induction false} CharsBack(s: string, rest: string)
    ensures ParseChars(EscapeAll(s) + "\"" + rest) == Got(s, rest)
  {
    if s == "" {
      assert EscapeAll(s) + "\"" + rest == "\"" + rest;
    } else {
      var tail := EscapeAll(s[1..]) + "\"" + rest;
      assert EscapeAll(s) + "\"" + rest == EscapeChar(s[0]) + tail;
      CharBack(s[0], tail);
      CharsBack(s[1..], rest);
      assert [s[0]] + s[1..] == s;
    }
  }

  /** A quoted string reads back as itself, whatever its characters and whatever follows. */
  lemma StringBack(s: string, rest: string)
    ensures ParseString(Quote(s) + rest) == Got(s, rest)
  {
    assert (Quote(s) + rest)[0] == '\"';
    assert (Quote(s) + rest)[1..] == EscapeAll(s) + "\"" + rest;
    CharsBack(s, rest);
  }

  // ----- integers

  lemma {:induction false} DigitsBack(n: nat)
    ensures forall c :: c in NatText(n) ==> IsDigit(c)
    ensures DigitsValue(NatText(n)) == n
    ensures NatText(n)[0] == '0' ==> n == 0
    ensures n < 10 ==> |NatText(n)| == 1
  {
    if n < 10 {
      assert NatText(n) == [Digit(n)];
      assert DigitsValue(NatText(n)[..0]) == 0;
    } else {
      DigitsBack(n / 10);
      var s := NatText(n);
      assert s[..|s| - 1] == NatText(n / 10);
      assert s[|s| - 1] == Digit(n % 10);
      assert s[0] == NatText(n / 10)[0];
    }
  }

  lemma {:induction false} RunOfDigits(digits: string, rest: string)
    requires forall c :: c in digits ==> IsDigit(c)
    requires EndsNumber(rest)
    ensures DigitRun(digits + rest) == |digits|
  {
    if digits == "" {
      assert digits + rest == rest;
    } else {
      assert (digits + rest)[0] == digits[0];
      assert (digits + rest)[1..] == digits[1..] + rest;
      RunOfDigits(digits[1..], rest);
    }
  }

  lemma NatBack(n: nat, rest: string)
    requires EndsNumber(rest)
    ensures ParseNat(NatText(n) + rest) == Got(n, rest)
  {
    DigitsBack(n);
    RunOfDigits(NatText(n), rest);
    var s := NatText(n) + rest;
    assert s[..|NatText(n)|] == NatText(n) && s[|NatText(n)|..] == rest;
    assert s[0] == NatText(n)[0];
  }

  lemma AfterMinus(digits: string, rest: string)
    ensures ("-" + digits + rest)[0] == '-' && ("-" + digits + rest)[1..] == digits + rest
  {
    assert "-" + digits + rest == "-" + (digits + rest);
  }

  lemma MinusBack(n: int, rest: string)
    requires n < 0 && EndsNumber(rest)
    ensures ParseInt("-" + NatText(-n) + rest) == Got(n, rest)
  {
    AfterMinus(NatText(-n), rest);
    NatBack(-n, rest);
  }

  lemma FirstDigit(n: nat, rest: string)
    ensures IsDigit((NatText(n) + rest)[0])
  {
    DigitsBack(n);
    assert (NatText(n) + rest)[0] == NatText(n)[0];
  }

  lemma IntBack(n: int, rest: string)
    requires EndsNumber(rest)
    ensures ParseInt(IntText(n) + rest) == Got(n, rest)
  {
    if n < 0 {
      MinusBack(n, rest);
    } else {
      NatBack(n, rest);
      FirstDigit(n, rest);
    }
  }

  // ----- values

  /** The first character tells which kind of value follows. */
  lemma FirstChar(v: Value, indent: string)
    ensures Render(v, indent) != ""
    ensures var c := Render(v, indent)[0];
      match v
      case Null => c == 'n'
      case Bool(b) => c == if b then 't' else 'f'
      case Number(n) => c == '-' || IsDigit(c)
      case Text(_) => c == '\"'
      case List(_) => c == '['
      case Object(_) => c == '{'
  {
    if v.Number? && v.n >= 0 {
      DigitsBack(v.n);
      assert IsDigit(NatText(v.n)[0]);
    }
  }

  lemma {:induction false} ValueBack(v: Value, indent: string, rest: string)
    requires Blank(indent)
    requires EndsNumber(rest)
    ensures ParseValue(Render(v, indent) + rest) == Got(v, rest)
    decreases v, 0
  {
    var s := Render(v, indent) + rest;
    FirstChar(v, indent);
    assert s[0] == Render(v, indent)[0];
    match v
    case Null =>
      assert s[..4] == "null" && s[4..] == rest;
    case Bool(b) =>
      if b {
        assert s[..4] == "true" && s[4..] == rest;
      } else {
        assert s[..5] == "false" && s[5..] == rest;
      }
    case Number(n) =>
      IntBack(n, rest);
    case Text(t) =>
      StringBack(t, rest);
    case List(elems) =>
      ListBack(elems, indent, rest);
    case Object(members) =>
      ObjectBack(members, indent, rest);
  }

  function Closing(indent: string, close: char, rest: string): (s: string)
    ensures s == ("\n" + indent) + ([close] + rest)
    ensures EndsNumber(s)
  {
    "\n" + indent + [close] + rest
  }

  /** The text of a container, taken apart after its opening bracket. */
  lemma Inside(open: char, body: string, indent: string, close: char, rest: string)
    ensures var s := [open, '\n'] + body + "\n" + indent + [close] + rest;
      s[0] == open && s[1..] == "\n" + (body + Closing(indent, close, rest))
  {}

  lemma SkipToClose(indent: string, close: char, rest: string)
    requires Blank(indent) && !IsWs(close)
    ensures SkipWs(Closing(indent, close, rest)) == [close] + rest
    ensures SkipWs("\n" + Closing(indent, close, rest)) == [close] + rest
  {
    SkipBlank("\n" + indent, [close] + rest);
    assert ("\n" + Closing(indent, close, rest))[1..] == Closing(indent, close, rest);
  }

  lemma SkipToBody(indent: string, body: string, rest: string)
    requires Blank(indent) && body != "" && !IsWs(body[0])
    ensures SkipWs("\n" + ((indent + body) + rest)) == body + rest
  {
    assert "\n" + ((indent + body) + rest) == ("\n" + indent) + (body + rest);
    SkipBlank("\n" + indent, body + rest);
  }

  /** The elements as printed, after the indent of the first. */
  function ElementsBody(elems: seq<Value>, indent: string): string
    requires elems != []
  {
    Render(elems[0], indent) + Continue(|elems| > 1) + RenderElements(elems[1..], indent)
  }

  function MemberText(m: Member, indent: string): string {
    Quote(m.key) + " : " + Render(m.value, indent)
  }

  function MembersBody(members: seq<Member>, indent: string): string
    requires members != []
  {
    MemberText(members[0], indent) + Continue(|members| > 1) + RenderMembers(members[1..], indent)
  }

  lemma ElementsSplit(elems: seq<Value>, indent: string)
    requires elems != []
    ensures RenderElements(elems, indent) == indent + ElementsBody(elems, indent)
    ensures ElementsBody(elems, indent) != "" && !IsWs(ElementsBody(elems, indent)[0])
    ensures ElementsBody(elems, indent)[0] != ']'
  {
    FirstChar(elems[0], indent);
  }

  lemma MembersSplit(members: seq<Member>, indent: string)
    requires members != []
    ensures RenderMembers(members, indent) == indent + MembersBody(members, indent)
    ensures MembersBody(members, indent) != "" && MembersBody(members, indent)[0] == '\"'
  {}

  lemma {:induction false} ListBack(elems: seq<Value>, indent: string, rest: string)
    requires Blank(indent)
    ensures ParseValue(Render(List(elems), indent) + rest) == Got(List(elems), rest)
    decreases elems, 1
  {
    Inside('[', RenderElements(elems, indent + SP4), indent, ']', rest);
    if elems == [] {
      SkipToClose(indent, ']', rest);
      assert "" + Closing(indent, ']', rest) == Closing(indent, ']', rest);
    } else {
      ElementsSplit(elems, indent + SP4);
      SkipToBody(indent + SP4, ElementsBody(elems, indent + SP4), Closing(indent, ']', rest));
      ElementsBack(elems, indent + SP4, indent, rest);
    }
  }

  lemma {:induction false} ObjectBack(members: seq<Member>, indent: string, rest: string)
    requires Blank(indent)
    ensures ParseValue(Render(Object(members), indent) + rest) == Got(Object(members), rest)
    decreases members, 1
  {
    Inside('{', RenderMembers(members, indent + SP4), indent, '}', rest);
    if members == [] {
      SkipToClose(indent, '}', rest);
      assert "" + Closing(indent, '}', rest) == Closing(indent, '}', rest);
    } else {
      MembersSplit(members, indent + SP4);
      SkipToBody(indent + SP4, MembersBody(members, indent + SP4), Closing(indent, '}', rest));
      MembersBack(members, indent + SP4, indent, rest);
    }
  }

  /** A separator, the next indent and what follows it. */
  function Following(indent: string, body: string, close: string): string {
    ",\n" + ((indent + body) + close)
  }

  lemma Separated(first: string, indent: string, body: string, close: string)
    requires Blank(indent) && body != "" && !IsWs(body[0])
    ensures var after := Following(indent, body, close);
      (first + ",\n" + (indent + body)) + close == first + after
      && SkipWs(after) == after && SkipWs(after[1..]) == body + close
  {
    var after := Following(indent, body, close);
    assert after[1..] == "\n" + ((indent + body) + close);
    SkipToBody(indent, body, close);
  }

  /** One round of the grammar's loops, on given pieces. */
  lemma ReadElement(s: string, v: Value, after: string, more: string, vs: seq<Value>, rest: string)
    requires ParseValue(s) == Got(v, after)
    requires after != "" && after[0] == ',' && SkipWs(after) == after && SkipWs(after[1..]) == more
    requires ParseElements(more) == Got(vs, rest)
    ensures ParseElements(s) == Got([v] + vs, rest)
  {}

  lemma ReadMember(s: string, m: Member, after: string, more: string, ms: seq<Member>, rest: string)
    requires ParseMember(s) == Got(m, after)
    requires after != "" && after[0] == ',' && SkipWs(after) == after && SkipWs(after[1..]) == more
    requires ParseMembers(more) == Got(ms, rest)
    ensures ParseMembers(s) == Got([m] + ms, rest)
  {}

  lemma ElementsBodyText(elems: seq<Value>, indent: string)
    requires elems != []
    ensures ElementsBody(elems, indent)
         == if |elems| == 1 then Render(elems[0], indent)
            else Render(elems[0], indent) + ",\n" + (indent + ElementsBody(elems[1..], indent))
  {
    if |elems| > 1 {
      ElementsSplit(elems[1..], indent);
    } else {
      assert Render(elems[0], indent) + "" + "" == Render(elems[0], indent);
    }
  }

  lemma MembersBodyText(members: seq<Member>, indent: string)
    requires members != []
    ensures MembersBody(members, indent)
         == if |members| == 1 then MemberText(members[0], indent)
            else MemberText(members[0], indent) + ",\n" + (indent + MembersBody(members[1..], indent))
  {
    if |members| > 1 {
      MembersSplit(members[1..], indent);
    } else {
      assert MemberText(members[0], indent) + "" + "" == MemberText(members[0], indent);
    }
  }

  lemma ElementsThenClose(elems: seq<Value>, indent: string, close: string)
    requires |elems| > 1 && Blank(indent)
    ensures var body := ElementsBody(elems[1..], indent);
      var after := Following(indent, body, close);
      && ElementsBody(elems, indent) + close == Render(elems[0], indent) + after
      && after[0] == ',' && SkipWs(after) == after && SkipWs(after[1..]) == body + close
  {
    ElementsBodyText(elems, indent);
    ElementsSplit(elems[1..], indent);
    Separated(Render(elems[0], indent), indent, ElementsBody(elems[1..], indent), close);
  }

  lemma MembersThenClose(members: seq<Member>, indent: string, close: string)
    requires |members| > 1 && Blank(indent)
    ensures var body := MembersBody(members[1..], indent);
      var after := Following(indent, body, close);
      && MembersBody(members, indent) + close == MemberText(members[0], indent) + after
      && after[0] == ',' && SkipWs(after) == after && SkipWs(after[1..]) == body + close
  {
    MembersBodyText(members, indent);
    MembersSplit(members[1..], indent);
    Separated(MemberText(members[0], indent), indent, MembersBody(members[1..], indent), close);
  }

  lemma OnlyElementBack(elems: seq<Value>, indent: string, outer: string, rest: string)
    requires |elems| == 1 && Blank(outer)
    requires var close := Closing(outer, ']', rest);
      ParseValue(Render(elems[0], indent) + close) == Got(elems[0], close)
    ensures ParseElements(ElementsBody(elems, indent) + Closing(outer, ']', rest)) == Got(elems, rest)
  {
    ElementsBodyText(elems, indent);
    SkipToClose(outer, ']', rest);
    assert elems == [elems[0]];
  }

  lemma FirstElementBack(elems: seq<Value>, indent: string, close: string, rest: string)
    requires |elems| > 1 && Blank(indent)
    requires var after := Following(indent, ElementsBody(elems[1..], indent), close);
      ParseValue(Render(elems[0], indent) + after) == Got(elems[0], after)
    requires ParseElements(ElementsBody(elems[1..], indent) + close) == Got(elems[1..], rest)
    ensures ParseElements(ElementsBody(elems, indent) + close) == Got(elems, rest)
  {
    var first, tail := Render(elems[0], indent), elems[1..];
    var body := ElementsBody(tail, indent);
    var after := Following(indent, body, close);
    ElementsThenClose(elems, indent, close);
    ReadElement(first + after, elems[0], after, body + close, tail, rest);
    assert elems == [elems[0]] + tail;
  }

  lemma OnlyMemberBack(members: seq<Member>, indent: string, outer: string, rest: string)
    requires |members| == 1 && Blank(outer)
    requires var close := Closing(outer, '}', rest);
      ParseMember(MemberText(members[0], indent) + close) == Got(members[0], close)
    ensures ParseMembers(MembersBody(members, indent) + Closing(outer, '}', rest)) == Got(members, rest)
  {
    MembersBodyText(members, indent);
    SkipToClose(outer, '}', rest);
    assert members == [members[0]];
  }

  lemma FirstMemberBack(members: seq<Member>, indent: string, close: string, rest: string)
    requires |members| > 1 && Blank(indent)
    requires var after := Following(indent, MembersBody(members[1..], indent), close);
      ParseMember(MemberText(members[0], indent) + after) == Got(members[0], after)
    requires ParseMembers(MembersBody(members[1..], indent) + close) == Got(members[1..], rest)
    ensures ParseMembers(MembersBody(members, indent) + close) == Got(members, rest)
  {
    var first, tail := MemberText(members[0], indent), members[1..];
    var body := MembersBody(tail, indent);
    var after := Following(indent, body, close);
    MembersThenClose(members, indent, close);
    ReadMember(first + after, members[0], after, body + close, tail, rest);
    assert members == [members[0]] + tail;
  }

  lemma {:induction false} ElementsBack(elems: seq<Value>, indent: string, outer: string, rest: string)
    requires elems != [] && Blank(indent) && Blank(outer)
    ensures ParseElements(ElementsBody(elems, indent) + Closing(outer, ']', rest)) == Got(elems, rest)
    decreases elems, 0
  {
    var close := Closing(outer, ']', rest);
    if |elems| == 1 {
      ValueBack(elems[0], indent, close);
      OnlyElementBack(elems, indent, outer, rest);
    } else {
      ValueBack(elems[0], indent, Following(indent, ElementsBody(elems[1..], indent), close));
      ElementsBack(elems[1..], indent, outer, rest);
      FirstElementBack(elems, indent, close, rest);
    }
  }

  lemma AroundColon(value: string)
    ensures " : " + value == " " + (": " + value) && (": " + value)[1..] == " " + value
  {}

  lemma ColonSkipped(value: string)
    requires value != "" && !IsWs(value[0])
    ensures SkipWs(" : " + value) == ": " + value
    ensures SkipWs((": " + value)[1..]) == value
  {
    AroundColon(value);
    SkipBlank(" ", ": " + value);
    SkipBlank(" ", value);
  }

  lemma MemberBack(m: Member, indent: string, rest: string)
    requires ParseValue(Render(m.value, indent) + rest) == Got(m.value, rest)
    ensures ParseMember(MemberText(m, indent) + rest) == Got(m, rest)
  {
    var value := Render(m.value, indent) + rest;
    assert MemberText(m, indent) + rest == Quote(m.key) + (" : " + value);
    StringBack(m.key, " : " + value);
    ColonSkipped(value) by { FirstChar(m.value, indent); }
  }

  lemma {:induction false} MembersBack(members: seq<Member>, indent: string, outer: string, rest: string)
    requires members != [] && Blank(indent) && Blank(outer)
    ensures ParseMembers(MembersBody(members, indent) + Closing(outer, '}', rest)) == Got(members, rest)
    decreases members, 0
  {
    var close := Closing(outer, '}', rest);
    if |members| == 1 {
      ValueBack(members[0].value, indent, close);
      MemberBack(members[0], indent, close);
      OnlyMemberBack(members, indent, outer, rest);
    } else {
      var after := Following(indent, MembersBody(members[1..], indent), close);
      ValueBack(members[0].value, indent, after);
      MemberBack(members[0], indent, after);
      MembersBack(members[1..], indent, outer, rest);
      FirstMemberBack(members, indent, close, rest);
    }
  }

  /** Round trip: for every tree, and for every blank indent a caller may pass, the grammar reads
      the printed text back as that very tree, with elements and members in the same order. */
  lemma PrettyRoundTrip(v: Value, indent: string)
    requires Blank(indent)
    ensures ParseText(Pretty(v, indent)) == Some(v)
  {
    FirstChar(v, indent);
    var s := Pretty(v, indent);
    var end := if indent == "" then "\n" else "";
    assert s == Render(v, indent) + end;
    ValueBack(v, indent, end);
    assert SkipWs("") == "";
    SkipBlank(end, "");
    assert end + "" == end;
  }

  /** Hence different trees never print alike. */
  lemma PrettyInjective(v: Value, w: Value)
    ensures Pretty(v, "") == Pretty(w, "") <==> v == w
  {
    PrettyRoundTrip(v, "");
    PrettyRoundTrip(w, "");
  }

  // ----- which indents a caller may pass

  lemma {:induction false} SkipKeepsNonBlank(s: string)
    requires !Blank(s)
    ensures SkipWs(s) != ""
    ensures SkipWs(s) == s[|s| - |SkipWs(s)|..]
  {
    if IsWs(s[0]) {
      assert s == [s[0]] + s[1..];
      SkipKeepsNonBlank(s[1..]);
    }
  }

  lemma {:induction false} SkippedOnlyBlanks(s: string)
    requires !Blank(s)
    ensures |SkipWs(s)| <= |s| && Blank(s[..|s| - |SkipWs(s)|])
  {
    if IsWs(s[0]) {
      assert s == [s[0]] + s[1..];
      SkippedOnlyBlanks(s[1..]);
      var k := |s| - |SkipWs(s)|;
      assert s[..k] == [s[0]] + s[1..][..k - 1];
    }
  }

  /** A bracket ahead of the last one leaves something unread. */
  lemma SomethingIsLeft(inside: string)
    requires |inside| > 1 && inside[|inside| - 1] == ']' && !Blank(inside[..|inside| - 1])
    ensures var t := SkipWs(inside); t != "" && (t[0] == ']' ==> SkipWs(t[1..]) != "")
  {
    var c :| c in inside[..|inside| - 1] && !IsWs(c);
    assert c in inside;
    SkipKeepsNonBlank(inside);
    var t := SkipWs(inside);
    if t[0] == ']' {
      SkippedOnlyBlanks(inside);
      assert t[|t| - 1] == ']';
      if |t| > 1 {
        assert t[1..][|t| - 2] == ']';
        SkipKeepsNonBlank(t[1..]);
      }
    }
  }

  /** With an indent that is not blank, the empty list does not read back. */
  lemma NonBlankIndentFails(indent: string)
    requires !Blank(indent)
    ensures ParseText(Pretty(List([]), indent)) != Some(List([]))
  {
    var s := Pretty(List([]), indent);
    Inside('[', "", indent, ']', "");
    var inside := s[1..];
    assert inside == ("\n\n" + indent) + "]";
    assert inside[..|inside| - 1] == "\n\n" + indent;
    var c :| c in indent && !IsWs(c);
    assert c in "\n\n" + indent;
    SomethingIsLeft(inside);
  }

  /** Exactly the blank indents are safe for every tree. */
  lemma SafeIndents(indent: string)
    ensures (forall v :: ParseText(Pretty(v, indent)) == Some(v)) <==> Blank(indent)
  {
    if Blank(indent) {
      forall v ensures ParseText(Pretty(v, indent)) == Some(v) {
        PrettyRoundTrip(v, indent);
      }
    } else {
      NonBlankIndentFails(indent);
    }
  }
}
