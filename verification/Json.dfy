/** JSON trees: printing with or without indentation, and the recursive parser. */
module Json {
  import opened Words

  datatype Member = Member(key: string, value: Node)

  /** An object is its members in key order, as the map that holds them keeps
      them. */
  datatype Node =
    | Object(members: seq<Member>)
    | Array(elements: seq<Node>)
    | String(text: string)
    | Number(number: int)
    | Bool(truth: bool)
    | Null

  // ---------------------------------------------------------------- printing

  function Spaces(n: nat): (s: string)
    ensures |s| == n && forall i :: 0 <= i < n ==> s[i] == ' '
  {
    seq(n, _ => ' ')
  }

  function Digit(d: nat): char
    requires d < 10
  {
    '0' + d as char
  }

  function Digits(n: nat): string {
    if n < 10 then [Digit(n)] else Digits(n / 10) + [Digit(n % 10)]
  }

  function PrintNumber(n: int): string {
    if n < 0 then "-" + Digits(-n) else Digits(n)
  }

  function Quote(s: string): string {
    "\"" + s + "\""
  }

  /** How a printout is laid out; `indented` off ignores the width. */
  datatype Layout = Layout(indented: bool, width: nat)

  function Break(l: Layout, level: nat): string {
    if l.indented then "\n" + Spaces(level) else ""
  }

  function Gap(l: Layout, level: nat, flat: string): string {
    if l.indented then "\n" + Spaces(level + l.width) else flat
  }

  function Print(j: Node, l: Layout, level: nat): string
    decreases j, 0
  {
    match j
    case Object(ms) => "{" + PrintMembers(ms, l, level, true) + (if ms == [] then "" else Break(l, level)) + "}"
    case Array(es) => "[" + PrintElements(es, l, level, true) + (if es == [] then "" else Break(l, level)) + "]"
    case String(s) => Quote(s)
    case Number(n) => PrintNumber(n)
    case Bool(b) => if b then "true" else "false"
    case Null => "null"
  }

  function PrintMembers(ms: seq<Member>, l: Layout, level: nat, first: bool): string
    decreases ms, 0
  {
    if ms == [] then "" else MemberPrint(ms[0], l, level, first) + PrintMembers(ms[1..], l, level, false)
  }

  function MemberPrint(m: Member, l: Layout, level: nat, first: bool): string
    decreases m, 1
  {
    (if first then "" else ",") + Gap(l, level, " ") + Quote(m.key) + ": " + Print(m.value, l, level + l.width)
  }

  function PrintElements(es: seq<Node>, l: Layout, level: nat, first: bool): string
    decreases es, 0
  {
    if es == [] then "" else ElementPrint(es[0], l, level, first) + PrintElements(es[1..], l, level, false)
  }

  function ElementPrint(e: Node, l: Layout, level: nat, first: bool): string
    decreases e, 1
  {
    (if first then "" else ",") + Gap(l, level, if first then "" else " ") + Print(e, l, level + l.width)
  }

  // ---------------------------------------------------------------- tokens

  datatype Kind =
    | NoToken | ObjectBegin | ObjectEnd | ArrayBegin | ArrayEnd | Comma | Colon
    | StringToken | NumberToken | TrueToken | FalseToken | NullToken

  /** A token, its text, and what follows it. */
  datatype Token = Token(kind: Kind, text: string, rest: string)

  predicate IsSpace(c: char) {
    c == ' ' || '\t' <= c <= '\r'
  }

  predicate IsDigit(c: char) {
    '0' <= c <= '9'
  }

  /** The six blanks of the C library. */
  lemma SpaceIs(c: char)
    ensures IsSpace(c) <==> c in {' ', '\t', '\n', '\r', '\U{000B}', '\U{000C}'}
  {
  }

  function SkipSpace(s: string): (r: string)
    ensures |r| <= |s| && (r != [] ==> !IsSpace(r[0]))
  {
    if s != [] && IsSpace(s[0]) then SkipSpace(s[1..]) else s
  }

  /** Reads up to the closing quote; there are no escapes. */
  function ReadString(s: string, text: string): (t: Token)
    ensures |t.rest| <= |s| && (t.kind == NoToken || t.kind == StringToken)
  {
    if s == [] then Token(NoToken, text, s)
    else if s[0] == '"' then Token(StringToken, text, s[1..])
    else ReadString(s[1..], text + [s[0]])
  }

  function ReadNumber(s: string, text: string): (t: Token)
    ensures t.kind == NumberToken && |t.rest| <= |s|
    ensures s != [] && IsDigit(s[0]) ==> |t.rest| < |s|
  {
    if s != [] && IsDigit(s[0]) then ReadNumber(s[1..], text + [s[0]]) else Token(NumberToken, text, s)
  }

  function ReadKeyword(s: string, keyword: string, kind: Kind): (t: Token)
    ensures |t.rest| <= |s| && (t.kind == NoToken || t.kind == kind)
    ensures keyword != "" && t.kind != NoToken ==> |t.rest| < |s|
  {
    if keyword == "" then Token(kind, "", s)
    else if s == [] || s[0] != keyword[0] then Token(NoToken, "", s)
    else ReadKeyword(s[1..], keyword[1..], kind)
  }

  function ReadToken(s: string): (t: Token)
    ensures |t.rest| <= |s| && (t.kind != NoToken ==> |t.rest| < |s|)
  {
    var u := SkipSpace(s);
    if u == [] then Token(NoToken, "", u)
    else
      match u[0]
      case '{' => Token(ObjectBegin, "", u[1..])
      case '}' => Token(ObjectEnd, "", u[1..])
      case '[' => Token(ArrayBegin, "", u[1..])
      case ']' => Token(ArrayEnd, "", u[1..])
      case ',' => Token(Comma, "", u[1..])
      case ':' => Token(Colon, "", u[1..])
      case '"' => ReadString(u[1..], "")
      case 'f' => ReadKeyword(u, "false", FalseToken)
      case 't' => ReadKeyword(u, "true", TrueToken)
      case 'n' => ReadKeyword(u, "null", NullToken)
      case c => if IsDigit(c) then ReadNumber(u, "") else Token(NoToken, "", u)
  }

  // ---------------------------------------------------------------- parsing

  /** What is left to read, the current token's text, and a token read ahead. */
  datatype State = State(input: string, token: string, ahead: Option<Kind>)

  /** Shrinks with every token taken; a token read ahead counts half. */
  function Fuel(st: State): nat {
    2 * |st.input| + (if st.ahead.Some? && st.ahead.value != NoToken then 1 else 0)
  }

  function NextToken(st: State): (r: (Kind, State))
    ensures r.1.ahead.None? && Fuel(r.1) <= Fuel(st)
    ensures r.0 != NoToken ==> Fuel(r.1) < Fuel(st)
  {
    if st.ahead.Some? then (st.ahead.value, st.(ahead := None))
    else
      var t := ReadToken(st.input);
      (t.kind, State(t.rest, t.text, None))
  }

  function LookAhead(st: State): (r: (Kind, State))
    requires st.ahead.None?
    ensures Fuel(r.1) <= Fuel(st)
  {
    var (kind, s) := NextToken(st);
    (kind, s.(ahead := Some(kind)))
  }

  /** Value of a run of decimal digits. */
  function Value(s: string): nat {
    if s == "" || !IsDigit(s[|s| - 1]) then 0
    else 10 * Value(s[..|s| - 1]) + (s[|s| - 1] - '0') as nat
  }

  const LONG_MAX := 0x7FFF_FFFF_FFFF_FFFF

  /** A saturating long, cut down to a signed 32-bit number. */
  function ToInt(v: nat): int {
    var low := Min(v, LONG_MAX) % WORD_SIZE;
    if low < WORD_SIZE / 2 then low else low - WORD_SIZE
  }

  /** Order of the keys in an object. */
  predicate Less(a: string, b: string) {
    b != "" && (a == "" || a[0] < b[0] || (a[0] == b[0] && Less(a[1..], b[1..])))
  }

  /** Sets a member, replacing one of the same name. */
  function Set(ms: seq<Member>, key: string, value: Node): seq<Member> {
    if ms == [] then [Member(key, value)]
    else if ms[0].key == key then [Member(key, value)] + ms[1..]
    else if Less(key, ms[0].key) then [Member(key, value)] + ms
    else [ms[0]] + Set(ms[1..], key, value)
  }

  datatype Parsed = Ok(node: Node, state: State) | SyntaxError

  function ParseNode(st: State): (r: Parsed)
    ensures r.Ok? ==> r.state.ahead.None? && Fuel(r.state) < Fuel(st)
    decreases Fuel(st), 0
  {
    var (kind, s) := NextToken(st);
    match kind
    case ObjectBegin =>
      var (k, s') := NextToken(s);
      ParseMembers(k, s', [])
    case ArrayBegin =>
      var (k, s') := LookAhead(s);
      if k == ArrayEnd then Ok(Array([]), NextToken(s').1) else ParseElements(s', [])
    case StringToken => Ok(String(s.token), s)
    case NumberToken => Ok(Number(ToInt(Value(s.token))), s)
    case TrueToken => Ok(Bool(true), s)
    case FalseToken => Ok(Bool(false), s)
    case NullToken => Ok(Null, s)
    case _ => SyntaxError
  }

  /** The loop over members, with the token that starts the next one taken. */
  function ParseMembers(kind: Kind, st: State, ms: seq<Member>): (r: Parsed)
    requires st.ahead.None?
    ensures r.Ok? ==> r.state.ahead.None? && Fuel(r.state) <= Fuel(st)
    decreases Fuel(st), 2
  {
    if kind == ObjectEnd then Ok(Object(ms), st)
    else if kind != StringToken then SyntaxError
    else
      var (colon, s1) := NextToken(st);
      if colon != Colon then SyntaxError
      else
        match ParseNode(s1)
        case SyntaxError => SyntaxError
        case Ok(value, s2) =>
          var ms' := Set(ms, st.token, value);
          var (k, s3) := NextToken(s2);
          if k == ObjectEnd then Ok(Object(ms'), s3)
          else if k != Comma then SyntaxError
          else
            var (k', s4) := NextToken(s3);
            ParseMembers(k', s4, ms')
  }

  function ParseElements(st: State, es: seq<Node>): (r: Parsed)
    ensures r.Ok? ==> r.state.ahead.None? && Fuel(r.state) < Fuel(st)
    decreases Fuel(st), 1
  {
    match ParseNode(st)
    case SyntaxError => SyntaxError
    case Ok(value, s1) =>
      var (k, s2) := NextToken(s1);
      if k == ArrayEnd then Ok(Array(es + [value]), s2)
      else if k != Comma then SyntaxError
      else ParseElements(s2, es + [value])
  }

  /** Parses a text from its start; what follows the first value is not read. */
  function Parse(text: string): Option<Node> {
    match ParseNode(State(text, "", None))
    case Ok(j, _) => Some(j)
    case SyntaxError => None
  }
}
