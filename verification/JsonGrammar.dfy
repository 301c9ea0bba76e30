// A recursive-descent reader for the grammar of sections 2 to 7 of RFC 8259.
// Numbers are read without fraction and exponent.
module JsonGrammar {
  import opened Basics
  import opened JsonText

  /** What a reader takes from the front of its input: a value and the rest, or nothing. */
  datatype Parsed<+T> = Fail | Got(value: T, rest: string)

  predicate IsWs(c: char) {
    c == ' ' || c == '\t' || c == '\n' || c == '\r'
  }

  function SkipWs(s: string): (r: string)
    ensures |r| <= |s|
    ensures r != "" ==> !IsWs(r[0])
  {
    if s != "" && IsWs(s[0]) then SkipWs(s[1..]) else s
  }

  // ----- strings (section 7)

  function HexValue(c: char): Option<nat> {
    if '0' <= c <= '9' then Some(c as int - '0' as int)
    else if 'a' <= c <= 'f' then Some(c as int - 'a' as int + 10)
    else if 'A' <= c <= 'F' then Some(c as int - 'A' as int + 10)
    else None
  }

  /** The code unit written by the first four characters, all hexadecimal digits. */
  function CodeUnit(s: string): (r: Option<nat>)
    ensures r.Some? ==> r.value < 0x1_0000 && |s| >= 4
  {
    if |s| < 4 then None else
      match (HexValue(s[0]), HexValue(s[1]), HexValue(s[2]), HexValue(s[3]))
      case (Some(a), Some(b), Some(c), Some(d)) => Some(((a * 16 + b) * 16 + c) * 16 + d)
      case _ => None
  }

  function SimpleEscape(c: char): Option<char> {
    if c == '\"' || c == '\\' || c == '/' then Some(c)
    else if c == 'b' then Some('\U{08}')
    else if c == 'f' then Some('\U{0C}')
    else if c == 'n' then Some('\n')
    else if c == 'r' then Some('\r')
    else if c == 't' then Some('\t')
    else None
  }

  /** The character an escape stands for; `s` starts after the backslash. A character
      beyond the basic plane is a surrogate pair; a lone surrogate is no character. */
  function ParseEscape(s: string): (r: Parsed<char>)
    ensures r.Got? ==> |r.rest| < |s|
  {
    if s == "" then Fail
    else if SimpleEscape(s[0]).Some? then Got(SimpleEscape(s[0]).value, s[1..])
    else if s[0] != 'u' then Fail
    else match CodeUnit(s[1..])
      case None => Fail
      case Some(high) =>
        var rest := s[5..];
        if high < 0xD800 || 0xE000 <= high then Got(high as char, rest)
        else if high < 0xDC00 && |rest| >= 2 && rest[0] == '\\' && rest[1] == 'u' then
          match CodeUnit(rest[2..])
          case Some(low) =>
            if 0xDC00 <= low < 0xE000
            then Got((0x1_0000 + (high - 0xD800) * 0x400 + (low - 0xDC00)) as char, rest[6..])
            else Fail
          case None => Fail
        else Fail
  }

  function Prepend(c: char, p: Parsed<string>): Parsed<string> {
    match p
    case Fail => Fail
    case Got(s, rest) => Got([c] + s, rest)
  }

  /** The characters up to the closing quotation mark. */
  function ParseChars(s: string): (r: Parsed<string>)
    ensures r.Got? ==> |r.rest| < |s|
    decreases |s|
  {
    if s == "" then Fail
    else if s[0] == '\"' then Got("", s[1..])
    else if s[0] == '\\' then
      match ParseEscape(s[1..])
      case Fail => Fail
      case Got(c, rest) => Prepend(c, ParseChars(rest))
    else if s[0] < ' ' then Fail
    else Prepend(s[0], ParseChars(s[1..]))
  }

  function ParseString(s: string): (r: Parsed<string>)
    ensures r.Got? ==> |r.rest| < |s|
  {
    if s != "" && s[0] == '\"' then ParseChars(s[1..]) else Fail
  }

  // ----- integers (section 6)

  predicate IsDigit(c: char) {
    '0' <= c <= '9'
  }

  function DigitRun(s: string): (k: nat)
    ensures k <= |s|
    ensures forall i :: 0 <= i < k ==> IsDigit(s[i])
    ensures k < |s| ==> !IsDigit(s[k])
  {
    if s != "" && IsDigit(s[0]) then 1 + DigitRun(s[1..]) else 0
  }

  function DigitsValue(s: string): nat
    requires forall c :: c in s ==> IsDigit(c)
  {
    if s == "" then 0
    else
      assert IsDigit(s[|s| - 1]);
      DigitsValue(s[..|s| - 1]) * 10 + (s[|s| - 1] as int - '0' as int)
  }

  function ParseNat(s: string): (r: Parsed<int>)
    ensures r.Got? ==> |r.rest| < |s|
  {
    var k := DigitRun(s);
    if k == 0 || (k > 1 && s[0] == '0') then Fail else Got(DigitsValue(s[..k]), s[k..])
  }

  function ParseInt(s: string): (r: Parsed<int>)
    ensures r.Got? ==> |r.rest| < |s|
  {
    if s != "" && s[0] == '-' then
      match ParseNat(s[1..])
      case Fail => Fail
      case Got(n, rest) => Got(-n, rest)
    else ParseNat(s)
  }

  // ----- values (sections 2 to 5)

  function ParseValue(s: string): (r: Parsed<Value>)
    ensures r.Got? ==> |r.rest| < |s|
    decreases |s|, 0
  {
    if s == "" then Fail
    else if s[0] == '{' then
      var t := SkipWs(s[1..]);
      if t != "" && t[0] == '}' then Got(Object([]), t[1..])
      else match ParseMembers(t)
        case Fail => Fail
        case Got(members, rest) => Got(Object(members), rest)
    else if s[0] == '[' then
      var t := SkipWs(s[1..]);
      if t != "" && t[0] == ']' then Got(List([]), t[1..])
      else match ParseElements(t)
        case Fail => Fail
        case Got(elems, rest) => Got(List(elems), rest)
    else if s[0] == '\"' then
      match ParseString(s)
      case Fail => Fail
      case Got(text, rest) => Got(Text(text), rest)
    else if "true" <= s then Got(Bool(true), s[4..])
    else if "false" <= s then Got(Bool(false), s[5..])
    else if "null" <= s then Got(Null, s[4..])
    else match ParseInt(s)
      case Fail => Fail
      case Got(n, rest) => Got(Number(n), rest)
  }

  /** At least one element, up to and including the closing bracket. */
  function ParseElements(s: string): (r: Parsed<seq<Value>>)
    ensures r.Got? ==> |r.rest| < |s| && r.value != []
    decreases |s|, 1
  {
    match ParseValue(s)
    case Fail => Fail
    case Got(v, after) =>
      var t := SkipWs(after);
      if t != "" && t[0] == ',' then
        match ParseElements(SkipWs(t[1..]))
        case Fail => Fail
        case Got(vs, rest) => Got([v] + vs, rest)
      else if t != "" && t[0] == ']' then Got([v], t[1..])
      else Fail
  }

  function ParseMember(s: string): (r: Parsed<Member>)
    ensures r.Got? ==> |r.rest| < |s|
    decreases |s|, 0
  {
    match ParseString(s)
    case Fail => Fail
    case Got(key, after) =>
      var t := SkipWs(after);
      if t != "" && t[0] == ':' then
        match ParseValue(SkipWs(t[1..]))
        case Fail => Fail
        case Got(v, rest) => Got(Member(key, v), rest)
      else Fail
  }

  /** At least one member, up to and including the closing brace. */
  function ParseMembers(s: string): (r: Parsed<seq<Member>>)
    ensures r.Got? ==> |r.rest| < |s| && r.value != []
    decreases |s|, 1
  {
    match ParseMember(s)
    case Fail => Fail
    case Got(m, after) =>
      var t := SkipWs(after);
      if t != "" && t[0] == ',' then
        match ParseMembers(SkipWs(t[1..]))
        case Fail => Fail
        case Got(ms, rest) => Got([m] + ms, rest)
      else if t != "" && t[0] == '}' then Got([m], t[1..])
      else Fail
  }

  /** JSON-text = ws value ws, and nothing else (section 2). */
  function ParseText(s: string): Option<Value> {
    match ParseValue(SkipWs(s))
    case Fail => None
    case Got(v, rest) => if SkipWs(rest) == "" then Some(v) else None
  }
}
