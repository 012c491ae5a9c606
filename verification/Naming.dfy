/** Rendering of record names, which are the node keys of the project graph. Packs are
    printed in braces inside the argument list, so that the printed name still tells
    different specializations apart. */
module Naming {
  /** A template argument: one that the compiler front end prints, or a pack of them. */
  datatype TemplateArg = Atom(text: string) | Pack(args: seq<TemplateArg>)

  function Join(names: seq<string>, separator: string): string {
    if names == [] then ""
    else if |names| == 1 then names[0]
    else names[0] + separator + Join(names[1..], separator)
  }

  function RenderArg(arg: TemplateArg): string
    decreases arg, 0
  {
    match arg
    case Atom(text) => text
    case Pack(args) => "{" + Render(args) + "}"
  }

  /** The text between the angle brackets. */
  function Render(args: seq<TemplateArg>): string
    decreases args, 1
  {
    if args == [] then ""
    else if |args| == 1 then RenderArg(args[0])
    else RenderArg(args[0]) + ", " + Render(args[1..])
  }

  // ---- bracket depth

  function Delta(c: char): int {
    if c in "([{<" then 1 else if c in ")]}>" then -1 else 0
  }

  function Depth(s: string): int {
    if s == "" then 0 else Depth(s[..|s| - 1]) + Delta(s[|s| - 1])
  }

  /** Brackets close in s, and no prefix closes more than it opens. */
  ghost predicate Closed(s: string) {
    Depth(s) == 0 && forall i | 0 <= i <= |s| :: Depth(s[..i]) >= 0
  }

  /** Every comma of s is inside brackets. */
  ghost predicate CommasInside(s: string) {
    forall i | 0 <= i < |s| && s[i] == ',' :: Depth(s[..i]) > 0
  }

  ghost predicate Item(s: string) {
    s != "" && Closed(s) && CommasInside(s)
  }

  /** What the front end's printer must guarantee: atoms are non-empty, do not start with a
      brace, and keep their commas inside balanced brackets. */
  ghost predicate Printable(arg: TemplateArg) {
    match arg
    case Atom(text) => Item(text) && text[0] != '{'
    case Pack(args) => forall a | a in args :: Printable(a)
  }

  ghost predicate AllPrintable(args: seq<TemplateArg>) {
    forall i | 0 <= i < |args| :: Printable(args[i])
  }

  lemma {:induction false} DepthConcat(a: string, b: string)
    ensures Depth(a + b) == Depth(a) + Depth(b)
  {
    if b == "" {
      assert a + b == a;
    } else {
      assert (a + b)[..|a + b| - 1] == a + b[..|b| - 1];
      DepthConcat(a, b[..|b| - 1]);
    }
  }

  /** Prefixes of a concatenation. */
  lemma PrefixDepth(a: string, b: string, i: nat)
    requires i <= |a| + |b|
    ensures Depth((a + b)[..i]) == if i <= |a| then Depth(a[..i]) else Depth(a) + Depth(b[..i - |a|])
  {
    if i <= |a| {
      assert (a + b)[..i] == a[..i];
    } else {
      assert (a + b)[..i] == a + b[..i - |a|];
      DepthConcat(a, b[..i - |a|]);
    }
  }

  lemma ClosedConcat(a: string, b: string)
    requires Closed(a) && Closed(b)
    ensures Closed(a + b)
  {
    DepthConcat(a, b);
    forall i | 0 <= i <= |a + b| ensures Depth((a + b)[..i]) >= 0 {
      PrefixDepth(a, b, i);
    }
  }

  /** Every proper prefix of a bracketed closed text is at depth one or more. */
  lemma BracketedDepth(open: string, s: string, close: string, i: nat)
    requires |open| == 1 && |close| == 1 && Delta(open[0]) == 1 && Delta(close[0]) == -1
    requires Closed(s) && i <= |s| + 2
    ensures Depth((open + s + close)[..i]) == if i == 0 || i == |s| + 2 then 0 else 1 + Depth(s[..i - 1])
    ensures 0 < i < |s| + 2 ==> Depth((open + s + close)[..i]) > 0
  {
    assert open[..0] == "" && open[..1] == open && close[..1] == close && close[..0] == "" && s[..|s|] == s;
    assert Depth(open) == 1 && Depth(close) == -1;
    PrefixDepth(open + s, close, i);
    if i <= |s| + 1 {
      PrefixDepth(open, s, i);
      if i == 1 { assert s[..0] == ""; }
    } else {
      DepthConcat(open, s);
    }
  }

  lemma BracedIsItem(s: string)
    requires Closed(s)
    ensures Item("{" + s + "}")
  {
    var t := "{" + s + "}";
    forall i | 0 <= i <= |t| ensures Depth(t[..i]) >= 0 && (0 < i < |t| ==> Depth(t[..i]) > 0) {
      BracketedDepth("{", s, "}", i);
    }
    BracketedDepth("{", s, "}", |t|);
    assert t[..|t|] == t;
  }

  lemma {:induction false} RenderArgIsItem(arg: TemplateArg)
    requires Printable(arg)
    ensures Item(RenderArg(arg))
    decreases arg, 0
  {
    match arg
    case Atom(_) =>
    case Pack(args) =>
      RenderIsClosed(args);
      BracedIsItem(Render(args));
  }

  lemma {:induction false} RenderIsClosed(args: seq<TemplateArg>)
    requires AllPrintable(args)
    ensures Closed(Render(args))
    decreases args, 1
  {
    if args != [] {
      RenderArgIsItem(args[0]);
      if |args| > 1 {
        RenderIsClosed(args[1..]);
        var head := RenderArg(args[0]);
        SeparatorIsClosed();
        ClosedConcat(head, ", ");
        ClosedConcat(head + ", ", Render(args[1..]));
      }
    }
  }

  lemma SeparatorIsClosed()
    ensures Closed(", ")
  {
    assert ", "[..1] == ",";
    assert ","[..0] == "" && ", "[..0] == "" && ", "[..2] == ", ";
  }

  // ---- the inverse

  /** The first comma of s from i on that is outside all brackets, or the end of s. */
  function TopComma(s: string, i: nat, depth: int): (k: nat)
    requires i <= |s|
    ensures i <= k <= |s|
    decreases |s| - i
  {
    if i == |s| || (s[i] == ',' && depth == 0) then i
    else TopComma(s, i + 1, depth + Delta(s[i]))
  }

  function ParseArg(s: string): TemplateArg
    decreases |s|, 0
  {
    if |s| >= 2 && s[0] == '{' then Pack(Parse(s[1..|s| - 1])) else Atom(s)
  }

  /** Reads an argument list back: commas outside all brackets separate its arguments. */
  function Parse(s: string): seq<TemplateArg>
    decreases |s|, 1
  {
    if s == "" then []
    else
      var k := TopComma(s, 0, 0);
      if k + 2 >= |s| then [ParseArg(s)] else [ParseArg(s[..k])] + Parse(s[k + 2..])
  }

  /** The scan stops exactly at the end of an item that a separator or nothing follows. */
  lemma {:induction false} TopCommaAfterItem(item: string, rest: string, i: nat)
    requires Item(item) && i <= |item| && (rest != "" ==> rest[0] == ',')
    ensures TopComma(item + rest, i, Depth(item[..i])) == |item|
    decreases |item| - i
  {
    if i == |item| {
      assert item[..i] == item;
    } else {
      assert (item + rest)[i] == item[i];
      assert item[..i + 1][..i] == item[..i];
      assert Depth(item[..i + 1]) == Depth(item[..i]) + Delta(item[i]);
      TopCommaAfterItem(item, rest, i + 1);
    }
  }

  lemma {:induction false} ParseArgRender(arg: TemplateArg)
    requires Printable(arg)
    ensures ParseArg(RenderArg(arg)) == arg
    decreases arg, 0
  {
    match arg
    case Atom(_) =>
    case Pack(args) =>
      var s := RenderArg(arg);
      assert s[1..|s| - 1] == Render(args);
      ParseRender(args);
  }

  lemma ParseSingle(head: string)
    requires Item(head)
    ensures Parse(head) == [ParseArg(head)]
  {
    TopCommaAfterItem(head, "", 0);
    assert head + "" == head && head[..0] == "";
  }

  lemma ParseCons(head: string, tail: string)
    requires Item(head) && tail != ""
    ensures Parse(head + ", " + tail) == [ParseArg(head)] + Parse(tail)
  {
    var s := head + ", " + tail;
    TopCommaAfterItem(head, ", " + tail, 0);
    assert s == head + (", " + tail) && head[..0] == "";
    assert s[..|head|] == head && s[|head| + 2..] == tail;
  }

  /** Reading back what was rendered gives the same arguments, packs included. */
  lemma {:induction false} ParseRender(args: seq<TemplateArg>)
    requires AllPrintable(args)
    ensures Parse(Render(args)) == args
    decreases args, 1
  {
    if args != [] {
      var head := RenderArg(args[0]);
      RenderArgIsItem(args[0]);
      ParseArgRender(args[0]);
      if |args| == 1 {
        ParseSingle(head);
      } else {
        RenderIsNonEmpty(args[1..]);
        ParseRender(args[1..]);
        ParseCons(head, Render(args[1..]));
      }
    }
  }

  lemma RenderIsNonEmpty(args: seq<TemplateArg>)
    requires AllPrintable(args) && args != []
    ensures Render(args) != ""
  {
    RenderArgIsItem(args[0]);
  }

  lemma RenderIsInjective(args: seq<TemplateArg>, others: seq<TemplateArg>)
    requires AllPrintable(args) && AllPrintable(others) && Render(args) == Render(others)
    ensures args == others
  {
    ParseRender(args);
    ParseRender(others);
  }

  /** Each condition on atoms is needed: without it two argument lists share one text. */
  lemma RenderCollidesWithoutConditions()
    ensures Render([Atom("")]) == Render([])
    ensures Render([Atom("{}")]) == Render([Pack([])])
    ensures Render([Atom("a, b")]) == Render([Atom("a"), Atom("b")])
    ensures Render([Atom("<, >")]) == Render([Atom("<"), Atom(">")])
  {
    assert Render([Atom("a"), Atom("b")][1..]) == "b";
    assert Render([Atom("<"), Atom(">")][1..]) == ">";
  }

  /** In the last collision only balance is missing: the one atom is printable, and the two
      others are non-empty, start with no brace and have no comma outside brackets. */
  lemma OnlyBalanceIsMissing()
    ensures Printable(Atom("<, >")) && !Closed("<") && !Closed(">")
    ensures CommasInside("<") && CommasInside(">")
  {
    SeparatorIsClosed();
    assert "<" + ", " + ">" == "<, >";
    forall i | 0 <= i <= 4 ensures Depth("<, >"[..i]) >= 0 && (0 < i < 4 ==> Depth("<, >"[..i]) > 0) {
      BracketedDepth("<", ", ", ">", i);
    }
    BracketedDepth("<", ", ", ">", 4);
    assert "<, >"[..4] == "<, >";
    assert "<"[..0] == "" && ">"[..0] == "";
  }

  // ---- record names

  /** A record declaration: an ordinary one, or a specialization of a class template. */
  datatype Record = Plain(name: string) | Specialization(name: string, args: seq<TemplateArg>)

  function SpecializationName(name: string, args: seq<TemplateArg>): string {
    name + "<" + Render(args) + ">"
  }

  function RecordName(record: Record): string {
    match record
    case Plain(name) => name
    case Specialization(name, args) => SpecializationName(name, args)
  }

  /** Qualified names have closed brackets, and only a specialization ends in `>`. */
  ghost predicate Nameable(record: Record) {
    match record
    case Plain(name) => name == "" || name[|name| - 1] != '>'
    case Specialization(name, args) => Closed(name) && AllPrintable(args)
  }

  /** The opening bracket of a specialization is the last place at depth zero. */
  lemma InsideSpecialization(name: string, args: seq<TemplateArg>, i: nat)
    requires Closed(name) && AllPrintable(args) && |name| < i < |SpecializationName(name, args)|
    ensures Depth(SpecializationName(name, args)[..i]) > 0
  {
    var inside := "<" + Render(args) + ">";
    RenderIsClosed(args);
    assert SpecializationName(name, args) == name + inside;
    PrefixDepth(name, inside, i);
    BracketedDepth("<", Render(args), ">", i - |name|);
  }

  lemma TemplateNamesAgree(name: string, args: seq<TemplateArg>, other: string, others: seq<TemplateArg>)
    requires Closed(name) && Closed(other) && AllPrintable(args) && AllPrintable(others)
    requires SpecializationName(name, args) == SpecializationName(other, others) && |name| <= |other|
    ensures name == other && args == others
  {
    var s := SpecializationName(name, args);
    assert s[..|other|] == other && s[..|name|] == name;
    if |name| < |other| {
      InsideSpecialization(name, args, |other|);
    }
    assert Render(args) == s[|name| + 1..|s| - 1] == Render(others);
    RenderIsInjective(args, others);
  }

  /** Different records have different node keys. */
  lemma RecordNameIsInjective(record: Record, other: Record)
    requires Nameable(record) && Nameable(other) && RecordName(record) == RecordName(other)
    ensures record == other
  {
    if record.Specialization? && other.Specialization? {
      if |record.name| <= |other.name| {
        TemplateNamesAgree(record.name, record.args, other.name, other.args);
      } else {
        TemplateNamesAgree(other.name, other.args, record.name, record.args);
      }
    }
  }

  // ---- how the texts look

  /** The text is that of the argument: an atom as it is, a pack in braces. */
  ghost predicate Shows(arg: TemplateArg, text: string)
    decreases arg, 0
  {
    match arg
    case Atom(atom) => text == atom
    case Pack(args) =>
      |text| >= 2 && text[0] == '{' && text[|text| - 1] == '}' && ShowsAll(args, text[1..|text| - 1])
  }

  /** The text is that of the arguments one after the other, with a comma and a blank between
      any two of them and nothing else. */
  ghost predicate ShowsAll(args: seq<TemplateArg>, text: string)
    decreases args, 2
  {
    if args == [] then text == ""
    else if |args| == 1 then Shows(args[0], text)
    else exists n: nat :: SplitsAt(args, text, n)
  }

  /** The first argument takes n characters, then come a comma, a blank and the others. */
  ghost predicate SplitsAt(args: seq<TemplateArg>, text: string, n: nat)
    requires args != []
    decreases args, 1
  {
    && n + 2 <= |text| && Shows(args[0], text[..n])
    && text[n] == ',' && text[n + 1] == ' ' && ShowsAll(args[1..], text[n + 2..])
  }

  lemma {:induction false} RenderArgShows(arg: TemplateArg)
    ensures Shows(arg, RenderArg(arg))
    decreases arg, 0
  {
    match arg
    case Atom(_) =>
    case Pack(args) =>
      RenderShowsAll(args);
      assert RenderArg(arg)[1..|RenderArg(arg)| - 1] == Render(args);
  }

  lemma {:induction false} RenderShowsAll(args: seq<TemplateArg>)
    ensures ShowsAll(args, Render(args))
    decreases args, 1
  {
    if args != [] {
      RenderArgShows(args[0]);
      if |args| > 1 {
        RenderShowsAll(args[1..]);
        JoinedSplits(args, RenderArg(args[0]), Render(args[1..]));
      }
    }
  }

  lemma JoinedSplits(args: seq<TemplateArg>, head: string, tail: string)
    requires |args| > 1 && Shows(args[0], head) && ShowsAll(args[1..], tail)
    ensures SplitsAt(args, head + ", " + tail, |head|)
  {
    var text := head + ", " + tail;
    assert text[..|head|] == head && text[|head| + 2..] == tail;
  }

  lemma {:induction false} ShownIsRenderArg(arg: TemplateArg, text: string)
    requires Shows(arg, text)
    ensures text == RenderArg(arg)
    decreases arg, 0
  {
    match arg
    case Atom(_) =>
    case Pack(args) =>
      ShownIsRender(args, text[1..|text| - 1]);
      assert text == [text[0]] + text[1..|text| - 1] + [text[|text| - 1]];
  }

  lemma {:induction false} ShownIsRender(args: seq<TemplateArg>, text: string)
    requires ShowsAll(args, text)
    ensures text == Render(args)
    decreases args, 1
  {
    if |args| == 1 {
      ShownIsRenderArg(args[0], text);
    } else if |args| > 1 {
      var n: nat :| SplitsAt(args, text, n);
      ShownIsRenderArg(args[0], text[..n]);
      ShownIsRender(args[1..], text[n + 2..]);
      assert text == text[..n] + ", " + text[n + 2..];
    }
  }

  /** A text looks like this exactly if it is the printed argument list. */
  lemma ShowsAllIff(args: seq<TemplateArg>, text: string)
    ensures ShowsAll(args, text) <==> text == Render(args)
  {
    RenderShowsAll(args);
    if ShowsAll(args, text) {
      ShownIsRender(args, text);
    }
  }

  /** An ordinary record has its qualified name; a specialization has it in front of the
      argument list in angle brackets. */
  ghost predicate Names(record: Record, text: string) {
    match record
    case Plain(name) => text == name
    case Specialization(name, args) =>
      && |text| >= |name| + 2 && text[..|name|] == name && text[|name|] == '<' && text[|text| - 1] == '>'
      && ShowsAll(args, text[|name| + 1..|text| - 1])
  }

  /** A text names the record exactly if it is its node key. */
  lemma NamesIff(record: Record, text: string)
    ensures Names(record, text) <==> text == RecordName(record)
  {
    match record
    case Plain(_) =>
    case Specialization(name, args) =>
      if |text| >= |name| + 2 {
        var inside := text[|name| + 1..|text| - 1];
        ShowsAllIff(args, inside);
        assert text == text[..|name|] + [text[|name|]] + inside + [text[|text| - 1]];
      }
      var key := SpecializationName(name, args);
      assert key[..|name|] == name && key[|name| + 1..|key| - 1] == Render(args);
  }

  // ---- the loop

  lemma {:induction false} JoinRendersArgs(args: seq<TemplateArg>, names: seq<string>)
    requires |names| == |args| && forall i | 0 <= i < |args| :: names[i] == RenderArg(args[i])
    ensures Join(names, ", ") == Render(args)
  {
    if |args| > 1 {
      JoinRendersArgs(args[1..], names[1..]);
    }
  }

  /** get_template_name: collects the printed arguments, recursing into packs, and joins them. */
  method GetTemplateName(args: seq<TemplateArg>) returns (name: string)
    ensures name == Render(args) && ShowsAll(args, name)
    decreases args
  {
    ShowsAllIff(args, Render(args));
    var paramNames: seq<string> := [];
    for i := 0 to |args|
      invariant |paramNames| == i
      invariant forall j | 0 <= j < i :: paramNames[j] == RenderArg(args[j])
    {
      match args[i]
      case Pack(inner) =>
        var text := GetTemplateName(inner);
        paramNames := paramNames + ["{" + text + "}"];
      case Atom(text) =>
        paramNames := paramNames + [text];
    }
    JoinRendersArgs(args, paramNames);
    name := Join(paramNames, ", ");
  }

  method GetRecordName(record: Record) returns (name: string)
    ensures name == RecordName(record) && Names(record, name)
  {
    NamesIff(record, RecordName(record));
    match record
    case Plain(qualified) => name := qualified;
    case Specialization(qualified, args) =>
      var text := GetTemplateName(args);
      name := qualified + "<" + text + ">";
  }
}
