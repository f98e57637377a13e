/** The parser as it runs: a cursor over the text, with the current token and the
    token read ahead kept in fields; and the printer, appending to a buffer. */
module JsonParsers {
  import opened Words
  import opened Json

  class JsonParser {
    var input: string
    var token: string
    var lookAhead: bool
    var laTokenType: Kind

    constructor () {
      input, token, lookAhead, laTokenType := "", "", false, NoToken;
    }

    ghost function St(): State
      reads this
    {
      State(input, token, if lookAhead then Some(laTokenType) else None)
    }

    /** Reuse is harmless: nothing of an earlier parse shows in the result. */
    method Parse(stream: string) returns (r: Option<Node>)
      modifies this
      ensures r == Json.Parse(stream)
    {
      hide Json.ParseMembers, Json.ParseElements, ReadToken;
      input := stream;
      lookAhead := false;
      assert Json.ParseNode(St()) == Json.ParseNode(State(stream, "", None));
      r := ParseNode();
    }

    method ParseNode() returns (r: Option<Node>)
      modifies this
      ensures match Json.ParseNode(old(St()))
              case Ok(j, s) => r == Some(j) && St() == s
              case SyntaxError => r == None
      decreases Fuel(St()), 0
    {
      hide Json.ParseMembers, Json.ParseElements, ReadToken;
      var kind := NextToken();
      match kind
      case ObjectBegin => r := ParseObject();
      case ArrayBegin => r := ParseArray();
      case StringToken => r := Some(String(token));
      case NumberToken => r := Some(Number(ToInt(Value(token))));
      case TrueToken => r := Some(Bool(true));
      case FalseToken => r := Some(Bool(false));
      case NullToken => r := Some(Null);
      case _ => r := None;
    }

    method ParseObject() returns (r: Option<Node>)
      requires !lookAhead
      modifies this
      ensures var (k, s) := Json.NextToken(old(St()));
              match Json.ParseMembers(k, s, [])
              case Ok(j, s') => r == Some(j) && St() == s'
              case SyntaxError => r == None
      decreases Fuel(St()), 3
    {
      hide ReadToken, Json.ParseNode, Set;
      ghost var start := Json.NextToken(St());
      ghost var fuel := Fuel(St());
      var members := [];
      var kind := NextToken();
      while kind != ObjectEnd
        invariant St().ahead.None? && Fuel(St()) <= fuel && (kind != NoToken ==> Fuel(St()) < fuel)
        invariant Json.ParseMembers(kind, St(), members) == Json.ParseMembers(start.0, start.1, [])
        decreases Fuel(St()), if kind == NoToken then 0 else 1
      {
        if kind != StringToken { return None; }
        var member := token;
        var colon := NextToken();
        if colon != Colon { return None; }
        var value := ParseNode();
        if value.None? { return None; }
        members := Set(members, member, value.value);
        kind := NextToken();
        if kind != Comma && kind != ObjectEnd { return None; }
        if kind == Comma { kind := NextToken(); }
      }
      r := Some(Object(members));
    }

    method ParseArray() returns (r: Option<Node>)
      requires !lookAhead
      modifies this
      ensures match ArrayFrom(old(St()))
              case Ok(j, s) => r == Some(j) && St() == s
              case SyntaxError => r == None
      decreases Fuel(St()), 3
    {
      hide ReadToken, Json.ParseNode;
      ghost var start := St();
      var elements := [];
      var kind := LookAhead();
      if kind == ArrayEnd { var _ := NextToken(); }
      while kind != ArrayEnd
        invariant Fuel(St()) <= Fuel(start)
        invariant ArrayFrom(start) ==
                  if kind == ArrayEnd then Ok(Array(elements), St()) else Json.ParseElements(St(), elements)
        decreases Fuel(St()), if kind == ArrayEnd then 0 else 1
      {
        var value := ParseNode();
        if value.None? { return None; }
        elements := elements + [value.value];
        kind := NextToken();
        if kind != Comma && kind != ArrayEnd { return None; }
      }
      r := Some(Array(elements));
    }

    /** What is parsed behind an opening bracket. */
    ghost function ArrayFrom(st: State): Parsed
      requires st.ahead.None?
    {
      var (k, s) := Json.LookAhead(st);
      if k == ArrayEnd then Ok(Array([]), Json.NextToken(s).1) else Json.ParseElements(s, [])
    }

    method NextToken() returns (kind: Kind)
      modifies this
      ensures (kind, St()) == Json.NextToken(old(St()))
    {
      if lookAhead {
        lookAhead := false;
        return laTokenType;
      }
      token := "";
      SkipWhitespace();
      if input == "" { return NoToken; }
      match input[0]
      case '{' => input := input[1..]; kind := ObjectBegin;
      case '}' => input := input[1..]; kind := ObjectEnd;
      case '[' => input := input[1..]; kind := ArrayBegin;
      case ']' => input := input[1..]; kind := ArrayEnd;
      case ',' => input := input[1..]; kind := Comma;
      case ':' => input := input[1..]; kind := Colon;
      case '"' => kind := ReadString();
      case 'f' => kind := ReadKeyword("false", FalseToken);
      case 't' => kind := ReadKeyword("true", TrueToken);
      case 'n' => kind := ReadKeyword("null", NullToken);
      case c =>
        if IsDigit(c) {
          kind := ReadNumber();
        } else {
          kind := NoToken;
        }
    }

    method LookAhead() returns (kind: Kind)
      requires !lookAhead
      modifies this
      ensures (kind, St()) == Json.LookAhead(old(St()))
    {
      laTokenType := NextToken();
      lookAhead := true;
      return laTokenType;
    }

    method SkipWhitespace()
      modifies `input
      ensures input == SkipSpace(old(input))
    {
      while input != "" && IsSpace(input[0])
        invariant SkipSpace(input) == SkipSpace(old(input))
        decreases |input|
      {
        input := input[1..];
      }
    }

    method ReadString() returns (kind: Kind)
      requires input != "" && token == ""
      modifies `input, `token
      ensures Token(kind, token, input) == Json.ReadString(old(input)[1..], "")
    {
      input := input[1..];
      while input != ""
        invariant Json.ReadString(input, token) == Json.ReadString(old(input)[1..], "")
        decreases |input|
      {
        if input[0] == '"' {
          input := input[1..];
          return StringToken;
        }
        token := token + [input[0]];
        input := input[1..];
      }
      kind := NoToken;
    }

    method ReadKeyword(keyword: string, tokenType: Kind) returns (kind: Kind)
      requires token == ""
      modifies `input
      ensures Token(kind, token, input) == Json.ReadKeyword(old(input), keyword, tokenType)
    {
      for i := 0 to |keyword|
        invariant Json.ReadKeyword(input, keyword[i..], tokenType) == Json.ReadKeyword(old(input), keyword, tokenType)
      {
        if input == "" || input[0] != keyword[i] { return NoToken; }
        assert keyword[i..][1..] == keyword[i + 1..];
        input := input[1..];
      }
      kind := tokenType;
    }

    method ReadNumber() returns (kind: Kind)
      requires token == ""
      modifies `input, `token
      ensures Token(kind, token, input) == Json.ReadNumber(old(input), "")
    {
      while input != "" && IsDigit(input[0])
        invariant Json.ReadNumber(input, token) == Json.ReadNumber(old(input), "")
        decreases |input|
      {
        token := token + [input[0]];
        input := input[1..];
      }
      kind := NumberToken;
    }
  }

  /** The text being written, handed from node to node. */
  class Output {
    var text: string

    constructor ()
      ensures text == ""
    {
      text := "";
    }

    method Serialize(j: Node, l: Layout, level: nat)
      modifies this
      ensures text == old(text) + Print(j, l, level)
      decreases j, 1
    {
      match j
      case Object(ms) => SerializeObject(ms, l, level);
      case Array(es) => SerializeArray(es, l, level);
      case String(s) => text := text + ("\"" + s + "\"");
      case Number(n) => text := text + PrintNumber(n);
      case Bool(b) => text := text + (if b then "true" else "false");
      case Null => text := text + "null";
    }

    method SerializeObject(ms: seq<Member>, l: Layout, level: nat)
      modifies this
      ensures text == old(text) + Print(Object(ms), l, level)
      decreases Object(ms), 0
    {
      hide MemberPrint, Break;
      text := text + "{";
      var first := true;
      ghost var all := text + PrintMembers(ms, l, level, true);
      for i := 0 to |ms|
        invariant first == (i == 0)
        invariant text + PrintMembers(ms[i..], l, level, first) == all
      {
        ghost var was, rest := text, PrintMembers(ms[i + 1..], l, level, false);
        assert ms[i..][1..] == ms[i + 1..];
        WriteMember(ms[i], l, level, first);
        first := false;
        JoinIs(was, MemberPrint(ms[i], l, level, i == 0), rest);
      }
      assert ms[|ms|..] == [];
      BracketIs(old(text), "{", PrintMembers(ms, l, level, true), if ms == [] then "" else Break(l, level), "}");
      if ms != [] { WriteBreak(l, level); }
      text := text + "}";
    }

    /** One turn of the loop: comma, gap, key and value. */
    method WriteMember(m: Member, l: Layout, level: nat, first: bool)
      modifies this
      ensures text == old(text) + MemberPrint(m, l, level, first)
      decreases m, 2
    {
      hide Gap, Print;
      if !first { text := text + ","; }
      WriteGap(l, level, " ");
      text := text + ("\"" + m.key);
      text := text + "\": ";
      Serialize(m.value, l, level + l.width);
      MemberIs(old(text), if first then "" else ",", Gap(l, level, " "), m.key, Print(m.value, l, level + l.width));
    }

    method SerializeArray(es: seq<Node>, l: Layout, level: nat)
      modifies this
      ensures text == old(text) + Print(Array(es), l, level)
      decreases Array(es), 0
    {
      hide ElementPrint, Break;
      text := text + "[";
      var first := true;
      ghost var all := text + PrintElements(es, l, level, true);
      for i := 0 to |es|
        invariant first == (i == 0)
        invariant text + PrintElements(es[i..], l, level, first) == all
      {
        ghost var was, rest := text, PrintElements(es[i + 1..], l, level, false);
        assert es[i..][1..] == es[i + 1..];
        WriteElement(es[i], l, level, first);
        first := false;
        JoinIs(was, ElementPrint(es[i], l, level, i == 0), rest);
      }
      assert es[|es|..] == [];
      BracketIs(old(text), "[", PrintElements(es, l, level, true), if es == [] then "" else Break(l, level), "]");
      if es != [] { WriteBreak(l, level); }
      text := text + "]";
    }

    /** One turn of the loop: comma, gap and element. */
    method WriteElement(e: Node, l: Layout, level: nat, first: bool)
      modifies this
      ensures text == old(text) + ElementPrint(e, l, level, first)
      decreases e, 2
    {
      hide Gap, Print;
      if !first { text := text + ","; }
      WriteGap(l, level, if first then "" else " ");
      Serialize(e, l, level + l.width);
      ElementIs(old(text), if first then "" else ",", Gap(l, level, if first then "" else " "),
                Print(e, l, level + l.width));
    }

    method WriteGap(l: Layout, level: nat, flat: string)
      modifies this
      ensures text == old(text) + Gap(l, level, flat)
    {
      if l.indented {
        text := text + "\n";
        text := text + Spaces(level + l.width);
      } else {
        text := text + flat;
      }
    }

    method WriteBreak(l: Layout, level: nat)
      modifies this
      ensures text == old(text) + Break(l, level)
    {
      if l.indented {
        text := text + "\n";
        text := text + Spaces(level);
      }
    }
  }

  lemma MemberIs(t: string, comma: string, gap: string, key: string, value: string)
    ensures t + comma + gap + ("\"" + key) + "\": " + value == t + (comma + gap + Quote(key) + ": " + value)
    ensures comma == "" ==> t + gap + ("\"" + key) + "\": " + value == t + (comma + gap + Quote(key) + ": " + value)
  {
    assert "\": " == "\"" + ": ";
  }

  lemma ElementIs(t: string, comma: string, gap: string, value: string)
    ensures t + comma + gap + value == t + (comma + gap + value)
    ensures comma == "" ==> t + gap + value == t + (comma + gap + value)
  {
  }

  lemma JoinIs(t: string, one: string, rest: string)
    ensures t + one + rest == t + (one + rest)
  {
  }

  lemma BracketIs(t: string, left: string, body: string, gap: string, right: string)
    ensures t + left + body + gap + right == t + (left + body + gap + right)
    ensures gap == "" ==> t + left + body + right == t + (left + body + gap + right)
  {
  }
}
