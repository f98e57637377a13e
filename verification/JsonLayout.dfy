/** What a printout looks like: with indentation a list of lines, without it one line. */
module JsonLayout {
  import opened Json

  /** A line, and how deep it stands. */
  datatype Line = Line(depth: nat, text: string)

  /** The lines of a node: brackets, elements and members on lines of their own, one
      deeper inside; a comma after all but the last; a key in front of its value. */
  function Lines(j: Node, d: nat): (r: seq<Line>)
    ensures r != [] && r[0].depth == d
    decreases j, 0
  {
    match j
    case Object(ms) => if ms == [] then [Line(d, "{}")] else [Line(d, "{")] + MemberLines(ms, d + 1) + [Line(d, "}")]
    case Array(es) => if es == [] then [Line(d, "[]")] else [Line(d, "[")] + ElementLines(es, d + 1) + [Line(d, "]")]
    case String(s) => [Line(d, "\"" + s + "\"")]
    case Number(n) => [Line(d, PrintNumber(n))]
    case Bool(b) => [Line(d, if b then "true" else "false")]
    case Null => [Line(d, "null")]
  }

  function ElementLines(es: seq<Node>, d: nat): seq<Line>
    decreases es, 0
  {
    if es == [] then []
    else Ended(Lines(es[0], d), if |es| == 1 then "" else ",") + ElementLines(es[1..], d)
  }

  function MemberLines(ms: seq<Member>, d: nat): seq<Line>
    decreases ms, 0
  {
    if ms == [] then []
    else
      var m := ms[0];
      Ended(Headed("\"" + m.key + "\": ", Lines(m.value, d)), if |ms| == 1 then "" else ",") + MemberLines(ms[1..], d)
  }

  /** The last line with something behind it. */
  function Ended(ls: seq<Line>, end: string): (r: seq<Line>)
    requires ls != []
    ensures r != []
  {
    var n := |ls| - 1;
    ls[..n] + [Line(ls[n].depth, ls[n].text + end)]
  }

  /** The first line with something in front of it. */
  function Headed(head: string, ls: seq<Line>): (r: seq<Line>)
    requires ls != []
    ensures r != []
  {
    [Line(ls[0].depth, head + ls[0].text)] + ls[1..]
  }

  function Indent(width: nat, d: nat): nat {
    if d == 0 then 0 else Indent(width, d - 1) + width
  }

  function Blanks(n: nat): string {
    seq(n, _ => ' ')
  }

  /** Every line on a new line, indented by its depth. */
  function Text(ls: seq<Line>, width: nat): string {
    if ls == [] then "" else "\n" + Blanks(Indent(width, ls[0].depth)) + ls[0].text + Text(ls[1..], width)
  }

  lemma {:induction false} TextJoins(a: seq<Line>, b: seq<Line>, width: nat)
    ensures Text(a + b, width) == Text(a, width) + Text(b, width)
    decreases |a|
  {
    if a == [] {
      assert a + b == b;
    } else {
      TextJoins(a[1..], b, width);
      assert (a + b)[0] == a[0] && (a + b)[1..] == a[1..] + b;
      var first := "\n" + Blanks(Indent(width, a[0].depth)) + a[0].text;
      assert first + (Text(a[1..], width) + Text(b, width)) == (first + Text(a[1..], width)) + Text(b, width);
    }
  }

  lemma TextOne(x: Line, width: nat)
    ensures Text([x], width) == "\n" + Blanks(Indent(width, x.depth)) + x.text
  {
    assert [x][1..] == [];
  }

  lemma TextEnded(ls: seq<Line>, end: string, width: nat)
    requires ls != []
    ensures Text(Ended(ls, end), width) == Text(ls, width) + end
  {
    var n := |ls| - 1;
    var x := Line(ls[n].depth, ls[n].text + end);
    TextJoins(ls[..n], [x], width);
    TextJoins(ls[..n], [ls[n]], width);
    TextOne(x, width);
    TextOne(ls[n], width);
    assert ls == ls[..n] + [ls[n]];
  }

  lemma TextHeaded(head: string, ls: seq<Line>, rest: string, width: nat)
    requires ls != [] && Text(ls, width) == "\n" + Blanks(Indent(width, ls[0].depth)) + rest
    ensures Text(Headed(head, ls), width) == "\n" + Blanks(Indent(width, ls[0].depth)) + (head + rest)
  {
    var start := "\n" + Blanks(Indent(width, ls[0].depth));
    assert Text(ls, width) == start + (ls[0].text + Text(ls[1..], width));
    assert rest == (start + rest)[|start|..] == ls[0].text + Text(ls[1..], width);
    assert Headed(head, ls)[1..] == ls[1..];
  }

  lemma {:induction false} SpacesAre(n: nat)
    ensures Spaces(n) == Blanks(n)
  {
  }

  /** An indented printout is its lines. */
  lemma {:induction false} PrintIsLines(j: Node, width: nat, d: nat)
    ensures Text(Lines(j, d), width) ==
            "\n" + Blanks(Indent(width, d)) + Print(j, Layout(true, width), Indent(width, d))
    decreases j, 0
  {
    var l, level := Layout(true, width), Indent(width, d);
    SpacesAre(level);
    match j
    case Object(ms) =>
      if ms == [] {
        TextOne(Line(d, "{}"), width);
      } else {
        MembersAreLines(ms, width, d);
        Bracketed(Line(d, "{"), MemberLines(ms, d + 1), Line(d, "}"), width);
      }
    case Array(es) =>
      if es == [] {
        TextOne(Line(d, "[]"), width);
      } else {
        ElementsAreLines(es, width, d);
        Bracketed(Line(d, "["), ElementLines(es, d + 1), Line(d, "]"), width);
      }
    case _ => TextOne(Lines(j, d)[0], width);
  }

  lemma Bracketed(open: Line, ls: seq<Line>, close: Line, width: nat)
    ensures Text([open] + ls + [close], width) ==
            "\n" + Blanks(Indent(width, open.depth)) +
            (open.text + Text(ls, width) + ("\n" + Blanks(Indent(width, close.depth))) + close.text)
  {
    TextJoins([open] + ls, [close], width);
    TextJoins([open], ls, width);
    TextOne(open, width);
    TextOne(close, width);
  }

  /** One line's worth joins the lines behind it. */
  lemma Joined(before: string, gap: string, text: string, end: string, rest: string)
    ensures before + gap + text + (end + rest) == before + (((gap + text) + end) + rest)
  {
  }

  lemma {:induction false} ElementsAreLines(es: seq<Node>, width: nat, d: nat)
    ensures var l, level := Layout(true, width), Indent(width, d);
            && PrintElements(es, l, level, true) == Text(ElementLines(es, d + 1), width)
            && PrintElements(es, l, level, false) ==
               (if es == [] then "" else ",") + Text(ElementLines(es, d + 1), width)
    decreases es, 0
  {
    hide Print, Lines, Text, Blanks, Spaces, Ended;
    var l, level := Layout(true, width), Indent(width, d);
    if es == [] {
      NoText(width);
    } else {
      var e, rest, end := es[0], es[1..], if |es| == 1 then "" else ",";
      PrintIsLines(e, width, d + 1);
      ElementsAreLines(rest, width, d);
      SpacesAre(level + width);
      TextEnded(Lines(e, d + 1), end, width);
      TextJoins(Ended(Lines(e, d + 1), end), ElementLines(rest, d + 1), width);
      var gap, text := "\n" + Blanks(level + width), Print(e, l, level + width);
      var tail := Text(ElementLines(rest, d + 1), width);
      Joined("", gap, text, end, tail);
      Joined(",", gap, text, end, tail);
    }
  }

  lemma NoText(width: nat)
    ensures Text([], width) == ""
  {
  }

  lemma {:induction false} MembersAreLines(ms: seq<Member>, width: nat, d: nat)
    ensures var l, level := Layout(true, width), Indent(width, d);
            && PrintMembers(ms, l, level, true) == Text(MemberLines(ms, d + 1), width)
            && PrintMembers(ms, l, level, false) ==
               (if ms == [] then "" else ",") + Text(MemberLines(ms, d + 1), width)
    decreases ms, 0
  {
    hide Print, Lines, Text, Blanks, Spaces, Ended, Headed;
    var l, level := Layout(true, width), Indent(width, d);
    if ms == [] {
      NoText(width);
    } else {
      var m, rest, end := ms[0], ms[1..], if |ms| == 1 then "" else ",";
      var head := "\"" + m.key + "\": ";
      var ls := Headed(head, Lines(m.value, d + 1));
      PrintIsLines(m.value, width, d + 1);
      MembersAreLines(rest, width, d);
      SpacesAre(level + width);
      TextHeaded(head, Lines(m.value, d + 1), Print(m.value, l, level + width), width);
      TextEnded(ls, end, width);
      TextJoins(Ended(ls, end), MemberLines(rest, d + 1), width);
      var gap, text := "\n" + Blanks(level + width), head + Print(m.value, l, level + width);
      var tail := Text(MemberLines(rest, d + 1), width);
      Joined("", gap, text, end, tail);
      Joined(",", gap, text, end, tail);
      MemberIs("", gap, Quote(m.key), Print(m.value, l, level + width), head);
      MemberIs(",", gap, Quote(m.key), Print(m.value, l, level + width), head);
    }
  }

  lemma MemberIs(before: string, gap: string, key: string, value: string, head: string)
    requires head == key + ": "
    ensures before + gap + key + ": " + value == before + gap + (head + value)
  {
  }

  /** Without indentation everything is on one line: a space in front of every member, and
      of every element but the first. */
  function OneLine(j: Node): string
    decreases j, 0
  {
    match j
    case Object(ms) => "{" + MembersInLine(ms, " ") + "}"
    case Array(es) => "[" + ElementsInLine(es, "") + "]"
    case String(s) => "\"" + s + "\""
    case Number(n) => PrintNumber(n)
    case Bool(b) => if b then "true" else "false"
    case Null => "null"
  }

  function MembersInLine(ms: seq<Member>, before: string): string
    decreases ms, 0
  {
    if ms == [] then "" else before + "\"" + ms[0].key + "\": " + OneLine(ms[0].value) + MembersInLine(ms[1..], ", ")
  }

  function ElementsInLine(es: seq<Node>, before: string): string
    decreases es, 0
  {
    if es == [] then "" else before + OneLine(es[0]) + ElementsInLine(es[1..], ", ")
  }

  lemma {:induction false} PrintIsOneLine(j: Node, width: nat, level: nat)
    ensures Print(j, Layout(false, width), level) == OneLine(j)
    decreases j, 0
  {
    match j
    case Object(ms) => MembersAreInLine(ms, width, level);
    case Array(es) => ElementsAreInLine(es, width, level);
    case _ =>
  }

  lemma {:induction false} MembersAreInLine(ms: seq<Member>, width: nat, level: nat)
    ensures PrintMembers(ms, Layout(false, width), level, true) == MembersInLine(ms, " ")
    ensures PrintMembers(ms, Layout(false, width), level, false) == MembersInLine(ms, ", ")
    decreases ms, 0
  {
    if ms != [] {
      PrintIsOneLine(ms[0].value, width, level + width);
      MembersAreInLine(ms[1..], width, level);
      assert "," + " " == ", ";
    }
  }

  lemma {:induction false} ElementsAreInLine(es: seq<Node>, width: nat, level: nat)
    ensures PrintElements(es, Layout(false, width), level, true) == ElementsInLine(es, "")
    ensures PrintElements(es, Layout(false, width), level, false) == ElementsInLine(es, ", ")
    decreases es, 0
  {
    if es != [] {
      PrintIsOneLine(es[0], width, level + width);
      ElementsAreInLine(es[1..], width, level);
      assert "," + " " == ", ";
    }
  }
}
