// pretty_print of json_util.hpp: a recursive printer that shares one indent string.
module PrettyPrinter {
  import opened JsonText

  const SP4: string := "    "

  function Continue(more: bool): string {
    if more then ",\n" else ""
  }

  /** What one call writes, without the closing newline, given the indent it is called with. */
  function Render(v: Value, indent: string): string
    decreases v, 0
  {
    match v
    case Null => "null"
    case Bool(b) => if b then "true" else "false"
    case Number(n) => IntText(n)
    case Text(s) => Quote(s)
    case List(elems) => "[\n" + RenderElements(elems, indent + SP4) + "\n" + indent + "]"
    case Object(members) => "{\n" + RenderMembers(members, indent + SP4) + "\n" + indent + "}"
  }

  function RenderElements(elems: seq<Value>, indent: string): string
    decreases elems, 0
  {
    if elems == [] then ""
    else indent + Render(elems[0], indent) + Continue(|elems| > 1) + RenderElements(elems[1..], indent)
  }

  function RenderMembers(members: seq<Member>, indent: string): string
    decreases members, 0
  {
    if members == [] then ""
    else indent + Quote(members[0].key) + " : " + Render(members[0].value, indent)
         + Continue(|members| > 1) + RenderMembers(members[1..], indent)
  }

  /** What one call writes: a call with an empty indent also ends its line. */
  function Pretty(v: Value, indent: string): string {
    if indent == "" then Render(v, indent) + "\n" else Render(v, indent)
  }

  lemma ElementStep(written: string, elems: seq<Value>, i: nat, indent: string)
    requires i < |elems|
    ensures var w := written + indent + Render(elems[i], indent);
      written + RenderElements(elems[i..], indent)
      == if i + 1 < |elems| then w + ",\n" + RenderElements(elems[i + 1..], indent) else w
  {
    var rest := elems[i..];
    assert rest[0] == elems[i] && rest[1..] == elems[i + 1..];
  }

  lemma MemberStep(written: string, members: seq<Member>, i: nat, indent: string)
    requires i < |members|
    ensures var w := written + (indent + Quote(members[i].key) + " : ") + Render(members[i].value, indent);
      written + RenderMembers(members[i..], indent)
      == if i + 1 < |members| then w + ",\n" + RenderMembers(members[i + 1..], indent) else w
  {
    var rest := members[i..];
    assert rest[0] == members[i] && rest[1..] == members[i + 1..];
  }

  lemma ListText(before: string, elems: seq<Value>, indent: string)
    ensures before + Render(List(elems), indent)
         == before + "[\n" + RenderElements(elems, indent + SP4) + "\n" + (indent + "]")
  {}

  lemma ObjectText(before: string, members: seq<Member>, indent: string)
    ensures before + Render(Object(members), indent)
         == before + "{\n" + RenderMembers(members, indent + SP4) + "\n" + (indent + "}")
  {}

  /** The stream that is written to. */
  class Stream {
    var text: string

    constructor ()
      ensures text == ""
    {
      text := "";
    }

    method Write(s: string)
      modifies this
      ensures text == old(text) + s
    {
      text := text + s;
    }
  }

  /** The indent that nested calls share and change in place. */
  class Indent {
    var text: string

    constructor ()
      ensures text == ""
    {
      text := "";
    }

    method Append(n: nat, c: char)
      modifies this
      ensures text == old(text) + seq(n, _ => c)
    {
      text := text + seq(n, _ => c);
    }

    method Resize(n: nat)
      requires n <= |text|
      modifies this
      ensures text == old(text)[..n]
    {
      text := text[..n];
    }
  }

  /** Writes `v` to `os`. Without an indent of the caller the call starts with an empty one
      of its own. Whatever is shared comes back as it was. */
  method PrettyPrint(os: Stream, v: Value, shared: Indent?)
    modifies os, shared
    ensures shared != null ==> shared.text == old(shared.text)
    ensures os.text == old(os.text) + Pretty(v, if shared == null then "" else old(shared.text))
    decreases v, 0
  {
    var indent: Indent;
    if shared == null {
      indent := new Indent();
    } else {
      indent := shared;
    }
    match v {
      case Object(members) =>
        PrintObject(os, members, indent);
      case List(elems) =>
        PrintList(os, elems, indent);
      case Text(s) =>
        os.Write(Quote(s));
      case Number(n) =>
        os.Write(IntText(n));
      case Bool(b) =>
        if b {
          os.Write("true");
        } else {
          os.Write("false");
        }
      case Null =>
        os.Write("null");
    }
    if indent.text == "" {
      os.Write("\n");
    }
  }

  /** The case of an object: one step deeper for the members, then back. */
  method PrintObject(os: Stream, members: seq<Member>, indent: Indent)
    modifies os, indent
    ensures indent.text == old(indent.text)
    ensures os.text == old(os.text) + Render(Object(members), indent.text)
    decreases members, 1
  {
    os.Write("{\n");
    indent.Append(4, ' ');
    assert indent.text == old(indent.text) + SP4;
    PrintMembers(os, members, indent);
    os.Write("\n");
    indent.Resize(|indent.text| - 4);
    os.Write(indent.text + "}");
    ObjectText(old(os.text), members, indent.text);
  }

  /** The case of an array. */
  method PrintList(os: Stream, elems: seq<Value>, indent: Indent)
    modifies os, indent
    ensures indent.text == old(indent.text)
    ensures os.text == old(os.text) + Render(List(elems), indent.text)
    decreases elems, 1
  {
    os.Write("[\n");
    indent.Append(4, ' ');
    assert indent.text == old(indent.text) + SP4;
    PrintElements(os, elems, indent);
    os.Write("\n");
    indent.Resize(|indent.text| - 4);
    os.Write(indent.text + "]");
    ListText(old(os.text), elems, indent.text);
  }

  /** The loop over the members of an object. */
  method PrintMembers(os: Stream, members: seq<Member>, indent: Indent)
    requires indent.text != ""
    modifies os, indent
    ensures indent.text == old(indent.text)
    ensures os.text == old(os.text) + RenderMembers(members, indent.text)
    decreases members, 0
  {
    if members != [] {
      var i := 0;
      while true
        invariant 0 <= i < |members|
        invariant indent.text == old(indent.text)
        invariant os.text + RenderMembers(members[i..], indent.text)
               == old(os.text) + RenderMembers(members, indent.text)
        decreases |members| - i
      {
        MemberStep(os.text, members, i, indent.text);
        os.Write(indent.text + Quote(members[i].key) + " : ");
        PrettyPrint(os, members[i].value, indent);
        i := i + 1;
        if i == |members| {
          break;
        }
        os.Write(",\n");
      }
    }
  }

  /** The loop over the elements of an array. */
  method PrintElements(os: Stream, elems: seq<Value>, indent: Indent)
    requires indent.text != ""
    modifies os, indent
    ensures indent.text == old(indent.text)
    ensures os.text == old(os.text) + RenderElements(elems, indent.text)
    decreases elems, 0
  {
    if elems != [] {
      var i := 0;
      while true
        invariant 0 <= i < |elems|
        invariant indent.text == old(indent.text)
        invariant os.text + RenderElements(elems[i..], indent.text)
               == old(os.text) + RenderElements(elems, indent.text)
        decreases |elems| - i
      {
        ElementStep(os.text, elems, i, indent.text);
        os.Write(indent.text);
        PrettyPrint(os, elems[i], indent);
        i := i + 1;
        if i == |elems| {
          break;
        }
        os.Write(",\n");
      }
    }
  }
}
