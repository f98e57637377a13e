/** Which trees survive printing and parsing: exactly those whose strings hold no
    double quote and whose numbers are not negative. */
module JsonRoundTrip {
  import opened Words
  import opened Json

  predicate NoQuote(s: string) {
    forall i :: 0 <= i < |s| ==> s[i] != '"'
  }

  predicate KeysAscend(ms: seq<Member>) {
    forall i, k :: 0 <= i < k < |ms| ==> Less(ms[i].key, ms[k].key)
  }

  /** Members in key order, numbers in 32 bits: what the program can hold. */
  predicate WellFormed(j: Node)
    decreases j
  {
    match j
    case Object(ms) => KeysAscend(ms) && forall m :: m in ms ==> WellFormed(m.value)
    case Array(es) => forall e :: e in es ==> WellFormed(e)
    case Number(n) => -0x8000_0000 <= n < 0x8000_0000
    case _ => true
  }

  predicate Unquoted(j: Node)
    decreases j
  {
    match j
    case Object(ms) => forall m :: m in ms ==> NoQuote(m.key) && Unquoted(m.value)
    case Array(es) => forall e :: e in es ==> Unquoted(e)
    case String(s) => NoQuote(s)
    case _ => true
  }

  predicate NonNegative(j: Node)
    decreases j
  {
    match j
    case Object(ms) => forall m :: m in ms ==> NonNegative(m.value)
    case Array(es) => forall e :: e in es ==> NonNegative(e)
    case Number(n) => n >= 0
    case _ => true
  }

  // ---------------------------------------------------------------- tokens

  predicate AllSpace(s: string) {
    forall i :: 0 <= i < |s| ==> IsSpace(s[i])
  }

  lemma {:induction false} SpaceSkipped(ws: string, t: string)
    requires AllSpace(ws)
    ensures SkipSpace(ws + t) == SkipSpace(t) && ReadToken(ws + t) == ReadToken(t)
  {
    if ws == "" {
      assert ws + t == t;
    } else {
      assert (ws + t)[1..] == ws[1..] + t;
      SpaceSkipped(ws[1..], t);
    }
  }

  lemma {:induction false} StringRead(s: string, r: string, text: string)
    requires NoQuote(s)
    ensures ReadString(s + "\"" + r, text) == Token(StringToken, text + s, r)
  {
    if s == "" {
      assert s + "\"" + r == "\"" + r && text + s == text;
      assert ("\"" + r)[1..] == r;
    } else {
      assert (s + "\"" + r)[1..] == s[1..] + "\"" + r;
      StringRead(s[1..], r, text + [s[0]]);
      assert text + [s[0]] + s[1..] == text + s;
    }
  }

  predicate AllDigits(s: string) {
    forall i :: 0 <= i < |s| ==> IsDigit(s[i])
  }

  predicate Ends(r: string) {
    r == "" || !IsDigit(r[0])
  }

  lemma {:induction false} NumberRead(s: string, r: string, text: string)
    requires AllDigits(s) && Ends(r)
    ensures ReadNumber(s + r, text) == Token(NumberToken, text + s, r)
  {
    if s == "" {
      assert s + r == r && text + s == text;
    } else {
      assert (s + r)[1..] == s[1..] + r;
      NumberRead(s[1..], r, text + [s[0]]);
      assert text + [s[0]] + s[1..] == text + s;
    }
  }

  lemma {:induction false} DigitsRead(n: nat)
    ensures Digits(n) != "" && AllDigits(Digits(n)) && Value(Digits(n)) == n
  {
    var s := Digits(n);
    if n >= 10 {
      DigitsRead(n / 10);
      assert s[..|s| - 1] == Digits(n / 10);
    } else {
      assert s[..0] == "";
    }
  }

  lemma QuoteToken(s: string, r: string)
    requires NoQuote(s)
    ensures ReadToken(Quote(s) + r) == Token(StringToken, s, r)
  {
    var u := Quote(s) + r;
    assert u[0] == '"' && u[1..] == s + "\"" + r;
    StringRead(s, r, "");
    assert "" + s == s;
  }

  lemma DigitStarts(u: string)
    requires u != "" && IsDigit(u[0])
    ensures ReadToken(u) == ReadNumber(u, "")
  {
    hide ReadNumber;
    assert SkipSpace(u) == u;
  }

  lemma DigitsToken(n: nat, r: string)
    requires Ends(r)
    ensures ReadToken(Digits(n) + r) == Token(NumberToken, Digits(n), r)
  {
    hide ReadToken, ReadNumber, Digits;
    DigitsRead(n);
    NumberRead(Digits(n), r, "");
    assert (Digits(n) + r)[0] == Digits(n)[0];
    DigitStarts(Digits(n) + r);
    assert "" + Digits(n) == Digits(n);
  }

  lemma KeywordToken(keyword: string, kind: Kind, r: string)
    ensures ReadKeyword(keyword + r, keyword, kind) == Token(kind, "", r)
  {
    if keyword == "" {
      assert keyword + r == r;
    } else {
      assert (keyword + r)[1..] == keyword[1..] + r;
      KeywordToken(keyword[1..], kind, r);
    }
  }

  lemma WordTokens(r: string)
    ensures ReadToken("true" + r) == Token(TrueToken, "", r)
    ensures ReadToken("false" + r) == Token(FalseToken, "", r)
    ensures ReadToken("null" + r) == Token(NullToken, "", r)
  {
    KeywordToken("true", TrueToken, r);
    KeywordToken("false", FalseToken, r);
    KeywordToken("null", NullToken, r);
  }

  /** A punctuation character read as a token. */
  lemma SignTokens(r: string)
    ensures ReadToken("{" + r) == Token(ObjectBegin, "", r)
    ensures ReadToken("}" + r) == Token(ObjectEnd, "", r)
    ensures ReadToken("[" + r) == Token(ArrayBegin, "", r)
    ensures ReadToken("]" + r) == Token(ArrayEnd, "", r)
    ensures ReadToken("," + r) == Token(Comma, "", r)
    ensures ReadToken(":" + r) == Token(Colon, "", r)
    ensures ReadToken("-" + r).kind == NoToken
  {
    assert ("{" + r)[1..] == r && ("}" + r)[1..] == r && ("[" + r)[1..] == r;
    assert ("]" + r)[1..] == r && ("," + r)[1..] == r && (":" + r)[1..] == r;
  }

  // ---------------------------------------------------------------- states

  /** The next token of `st` is the first token of `s`. */
  predicate At(st: State, s: string) {
    var t := ReadToken(s);
    NextToken(st) == (t.kind, State(t.rest, t.text, None))
  }

  lemma AtInput(s: string, token: string, ws: string, t: string)
    requires s == ws + t && AllSpace(ws)
    ensures At(State(s, token, None), t)
  {
    SpaceSkipped(ws, t);
  }

  // ---------------------------------------------------------------- layout

  /** What follows an element, or a member, of a list still to be printed. */
  function ElementsTail(es: seq<Node>, l: Layout, level: nat, r: string): string
    decreases es
  {
    if es == [] then Break(l, level) + ("]" + r)
    else "," + (Gap(l, level, " ") + (Print(es[0], l, level + l.width) + ElementsTail(es[1..], l, level, r)))
  }

  function MemberText(m: Member, l: Layout, level: nat, r: string): string {
    Quote(m.key) + (":" + (" " + (Print(m.value, l, level + l.width) + r)))
  }

  function MembersTail(ms: seq<Member>, l: Layout, level: nat, r: string): string
    decreases ms
  {
    if ms == [] then Break(l, level) + ("}" + r)
    else "," + (Gap(l, level, " ") + MemberText(ms[0], l, level, MembersTail(ms[1..], l, level, r)))
  }

  lemma {:induction false} ElementsTailIs(es: seq<Node>, l: Layout, level: nat, r: string)
    ensures PrintElements(es, l, level, false) + Break(l, level) + "]" + r == ElementsTail(es, l, level, r)
    decreases es
  {
    hide Print, Gap, Break;
    if es == [] {
      assert "" + Break(l, level) + "]" + r == Break(l, level) + ("]" + r);
    } else {
      ElementsTailIs(es[1..], l, level, r);
      Regroup4(",", Gap(l, level, " "), Print(es[0], l, level + l.width), PrintElements(es[1..], l, level, false),
               Break(l, level), "]", r);
    }
  }

  lemma Regroup4(a: string, b: string, c: string, d: string, e: string, f: string, r: string)
    ensures a + b + c + d + e + f + r == a + (b + (c + (d + e + f + r)))
  {
  }

  lemma {:induction false} MembersTailIs(ms: seq<Member>, l: Layout, level: nat, r: string)
    ensures PrintMembers(ms, l, level, false) + Break(l, level) + "}" + r == MembersTail(ms, l, level, r)
    decreases ms
  {
    hide Print, Gap, Break, Quote;
    if ms == [] {
      assert "" + Break(l, level) + "}" + r == Break(l, level) + ("}" + r);
    } else {
      MembersTailIs(ms[1..], l, level, r);
      Regroup6(",", Gap(l, level, " "), Quote(ms[0].key), Print(ms[0].value, l, level + l.width),
               PrintMembers(ms[1..], l, level, false), Break(l, level), r);
    }
  }

  lemma Regroup6(a: string, b: string, c: string, v: string, d: string, e: string, r: string)
    ensures a + b + c + ": " + v + d + e + "}" + r == a + (b + (c + (":" + (" " + (v + (d + e + "}" + r))))))
  {
  }

  lemma GapIsSpace(l: Layout, level: nat, flat: string)
    requires AllSpace(flat)
    ensures AllSpace(Gap(l, level, flat)) && AllSpace(Break(l, level))
  {
  }

  lemma ArrayText(es: seq<Node>, l: Layout, level: nat, r: string)
    requires es != []
    ensures Print(Array(es), l, level) + r ==
            "[" + (Gap(l, level, "") + (Print(es[0], l, level + l.width) + ElementsTail(es[1..], l, level, r)))
  {
    ElementsTailIs(es[1..], l, level, r);
    hide Print, Gap, Break;
    PrintArrayIs(es, l, level);
    Regroup5("[", Gap(l, level, ""), Print(es[0], l, level + l.width), PrintElements(es[1..], l, level, false),
             Break(l, level), r);
  }

  lemma Regroup5(a: string, b: string, c: string, d: string, e: string, r: string)
    ensures a + ("" + b + c + d) + e + "]" + r == a + (b + (c + (d + e + "]" + r)))
  {
  }

  lemma PrintArrayIs(es: seq<Node>, l: Layout, level: nat)
    requires es != []
    ensures Print(Array(es), l, level) ==
            "[" +
            ("" + Gap(l, level, "") + Print(es[0], l, level + l.width) + PrintElements(es[1..], l, level, false)) +
            Break(l, level) + "]"
  {
    assert PrintElements(es, l, level, true) ==
           "" + Gap(l, level, "") + Print(es[0], l, level + l.width) + PrintElements(es[1..], l, level, false) by {
      hide Print, Gap;
      assert ElementPrint(es[0], l, level, true) == "" + Gap(l, level, "") + Print(es[0], l, level + l.width);
    }
    hide PrintElements, ElementPrint, Gap, Break;
  }

  lemma ObjectText(ms: seq<Member>, l: Layout, level: nat, r: string)
    requires ms != []
    ensures Print(Object(ms), l, level) + r ==
            "{" + (Gap(l, level, " ") + MemberText(ms[0], l, level, MembersTail(ms[1..], l, level, r)))
  {
    MembersTailIs(ms[1..], l, level, r);
    hide Print, Gap, Break, Quote;
    PrintObjectIs(ms, l, level);
    Regroup7(Gap(l, level, " "), Quote(ms[0].key), Print(ms[0].value, l, level + l.width),
             PrintMembers(ms[1..], l, level, false), Break(l, level), r);
  }

  lemma Regroup7(b: string, c: string, v: string, d: string, e: string, r: string)
    ensures "{" + ("" + b + c + ": " + v + d) + e + "}" + r == "{" + (b + (c + (":" + (" " + (v + (d + e + "}" + r))))))
  {
  }

  lemma PrintObjectIs(ms: seq<Member>, l: Layout, level: nat)
    requires ms != []
    ensures Print(Object(ms), l, level) ==
            "{" + ("" + Gap(l, level, " ") + Quote(ms[0].key) + ": " + Print(ms[0].value, l, level + l.width) +
                   PrintMembers(ms[1..], l, level, false)) + Break(l, level) + "}"
  {
    assert PrintMembers(ms, l, level, true) ==
           "" + Gap(l, level, " ") + Quote(ms[0].key) + ": " + Print(ms[0].value, l, level + l.width) +
           PrintMembers(ms[1..], l, level, false) by {
      hide Print, Gap, Quote;
      assert MemberPrint(ms[0], l, level, true) ==
             "" + Gap(l, level, " ") + Quote(ms[0].key) + ": " + Print(ms[0].value, l, level + l.width);
    }
    hide PrintMembers, MemberPrint, Gap, Break, Quote;
  }

  // ---------------------------------------------------------------- keys

  lemma {:induction false} LessAsymmetric(a: string, b: string)
    requires Less(a, b)
    ensures !Less(b, a) && a != b
  {
    if a != "" && a[0] == b[0] {
      LessAsymmetric(a[1..], b[1..]);
    }
  }

  /** A key above all others goes to the end. */
  lemma {:induction false} SetAppends(ms: seq<Member>, key: string, value: Node)
    requires forall i :: 0 <= i < |ms| ==> Less(ms[i].key, key)
    ensures Set(ms, key, value) == ms + [Member(key, value)]
  {
    if ms != [] {
      LessAsymmetric(ms[0].key, key);
      SetAppends(ms[1..], key, value);
      assert ms == [ms[0]] + ms[1..];
    }
  }

  // ---------------------------------------------------------------- the induction

  /** The parser took `j` off the text in front of `r`, or refused it because of a
      negative number in it. */
  ghost predicate Takes(p: Parsed, j: Node, good: bool, r: string) {
    if good then p.Ok? && p.node == j && p.state.input == r else p.SyntaxError?
  }

  lemma ScalarParses(j: Node, l: Layout, level: nat, r: string, st: State)
    requires !j.Object? && !j.Array? && Unquoted(j) && WellFormed(j) && Ends(r)
    requires At(st, Print(j, l, level) + r)
    ensures Takes(ParseNode(st), j, NonNegative(j), r)
  {
    hide ReadToken, ReadString, Digits;
    match j
    case String(s) => QuoteToken(s, r);
    case Number(n) => NumberParses(n, l, level, r, st);
    case Bool(b) => WordTokens(r);
    case Null => WordTokens(r);
  }

  lemma NumberParses(n: int, l: Layout, level: nat, r: string, st: State)
    requires WellFormed(Number(n)) && Ends(r) && At(st, Print(Number(n), l, level) + r)
    ensures Takes(ParseNode(st), Number(n), n >= 0, r)
  {
    hide ReadToken, Digits, Value;
    if n >= 0 {
      DigitsToken(n, r);
      DigitsRead(n);
    } else {
      assert "-" + Digits(-n) + r == "-" + (Digits(-n) + r);
      SignTokens(Digits(-n) + r);
    }
  }

  /** No printed tree starts with a closing bracket. */
  lemma NodeStarts(j: Node, l: Layout, level: nat, r: string)
    ensures ReadToken(Print(j, l, level) + r).kind != ArrayEnd
  {
    hide ReadString, ReadNumber, ReadKeyword;
    var p := Print(j, l, level);
    assert p != "" && !IsSpace(p[0]) && p[0] != ']' by {
      if j.Number? { DigitsRead(if j.number < 0 then -j.number else j.number); }
    }
    assert (p + r)[0] == p[0];
    assert SkipSpace(p + r) == p + r;
  }

  lemma BreakEnds(l: Layout, level: nat, r: string)
    requires r != "" && Ends(r)
    ensures AllSpace(Break(l, level)) && Ends(Break(l, level) + r)
  {
    hide Spaces;
    GapIsSpace(l, level, "");
    assert !l.indented ==> Break(l, level) + r == r;
  }

  lemma ElementsTailToken(es: seq<Node>, l: Layout, level: nat, r: string)
    ensures Ends(ElementsTail(es, l, level, r))
    ensures es == [] ==> ReadToken(ElementsTail(es, l, level, r)) == Token(ArrayEnd, "", r)
    ensures es != [] ==>
              ReadToken(ElementsTail(es, l, level, r)) ==
              Token(Comma, "", Gap(l, level, " ") +
                               (Print(es[0], l, level + l.width) + ElementsTail(es[1..], l, level, r)))
  {
    hide ReadToken, Print, Gap;
    if es == [] {
      BreakEnds(l, level, "]" + r);
      hide Break;
      SpaceSkipped(Break(l, level), "]" + r);
      SignTokens(r);
    } else {
      hide Break;
      SignTokens(Gap(l, level, " ") + (Print(es[0], l, level + l.width) + ElementsTail(es[1..], l, level, r)));
    }
  }

  lemma MembersTailToken(ms: seq<Member>, l: Layout, level: nat, r: string)
    ensures Ends(MembersTail(ms, l, level, r))
    ensures ms == [] ==> ReadToken(MembersTail(ms, l, level, r)) == Token(ObjectEnd, "", r)
    ensures ms != [] ==>
              ReadToken(MembersTail(ms, l, level, r)) ==
              Token(Comma, "", Gap(l, level, " ") + MemberText(ms[0], l, level, MembersTail(ms[1..], l, level, r)))
  {
    hide ReadToken, Print, MemberText, Gap;
    if ms == [] {
      BreakEnds(l, level, "}" + r);
      hide Break;
      SpaceSkipped(Break(l, level), "}" + r);
      SignTokens(r);
    } else {
      hide Break;
      SignTokens(Gap(l, level, " ") + MemberText(ms[0], l, level, MembersTail(ms[1..], l, level, r)));
    }
  }

  lemma {:induction false} NodeParses(j: Node, l: Layout, level: nat, r: string, st: State)
    requires Unquoted(j) && WellFormed(j) && Ends(r)
    requires At(st, Print(j, l, level) + r)
    ensures Takes(ParseNode(st), j, NonNegative(j), r)
    decreases j, 1
  {
    hide *;
    match j
    case Array(es) => ArrayParses(es, l, level, r, st);
    case Object(ms) => ObjectParses(ms, l, level, r, st);
    case _ => ScalarParses(j, l, level, r, st);
  }

  lemma EmptyTexts(l: Layout, level: nat, r: string)
    ensures Print(Array([]), l, level) + r == "[" + ("]" + r)
    ensures Print(Object([]), l, level) + r == "{" + ("}" + r)
  {
    assert Print(Array([]), l, level) == "[]" && Print(Object([]), l, level) == "{}";
    hide *;
  }

  lemma EmptyArrayParses(l: Layout, level: nat, r: string, st: State)
    requires At(st, Print(Array([]), l, level) + r)
    ensures Takes(ParseNode(st), Array([]), true, r)
  {
    EmptyTexts(l, level, r);
    hide ReadToken, ParseElements, ParseMembers, Print;
    SignTokens("]" + r);
    SignTokens(r);
  }

  /** A non-empty array is parsed by its loop, with its first token read ahead. */
  lemma ArrayEnters(ws: string, text: string, st: State)
    requires AllSpace(ws) && At(st, "[" + (ws + text)) && ReadToken(text).kind != ArrayEnd
    ensures exists s :: At(s, text) && ParseNode(st) == ParseElements(s, []) && Fuel(s) < Fuel(st)
  {
    hide ReadToken, ParseElements;
    SignTokens(ws + text);
    var (kind, s) := NextToken(st);
    AtInput(s.input, s.token, ws, text);
    var (k, s') := LookAhead(s);
    assert At(s', text) && ParseNode(st) == ParseElements(s', []);
  }

  lemma {:induction false} ArrayParses(es: seq<Node>, l: Layout, level: nat, r: string, st: State)
    requires Unquoted(Array(es)) && WellFormed(Array(es)) && Ends(r)
    requires At(st, Print(Array(es), l, level) + r)
    ensures Takes(ParseNode(st), Array(es), NonNegative(Array(es)), r)
    decreases Array(es), 0
  {
    hide ReadToken, Print, ParseNode, ParseElements, At, Takes;
    if es == [] {
      EmptyArrayParses(l, level, r, st);
    } else {
      ArrayText(es, l, level, r);
      var text := Print(es[0], l, level + l.width) + ElementsTail(es[1..], l, level, r);
      GapIsSpace(l, level, "");
      NodeStarts(es[0], l, level + l.width, ElementsTail(es[1..], l, level, r));
      ArrayEnters(Gap(l, level, ""), text, st);
      var s :| At(s, text) && ParseNode(st) == ParseElements(s, []) && Fuel(s) < Fuel(st);
      ElementsParse(es, l, level, r, s, []);
      assert [] + es == es;
    }
  }

  lemma {:induction false} ElementsParse(es: seq<Node>, l: Layout, level: nat, r: string, st: State, done: seq<Node>)
    requires es != [] && Unquoted(Array(es)) && WellFormed(Array(es)) && Ends(r)
    requires At(st, Print(es[0], l, level + l.width) + ElementsTail(es[1..], l, level, r))
    ensures Takes(ParseElements(st, done), Array(done + es), NonNegative(Array(es)), r)
    decreases es
  {
    hide ReadToken, Print, ParseNode, ElementsTail, Gap;
    var tail := ElementsTail(es[1..], l, level, r);
    ElementsTailToken(es[1..], l, level, r);
    NodeParses(es[0], l, level + l.width, tail, st);
    if NonNegative(es[0]) {
      var s1 := ParseNode(st).state;
      var (k, s2) := NextToken(s1);
      if |es| > 1 {
        var next := Print(es[1], l, level + l.width) + ElementsTail(es[1..][1..], l, level, r);
        GapIsSpace(l, level, " ");
        AtInput(s2.input, s2.token, Gap(l, level, " "), next);
        ElementsParse(es[1..], l, level, r, s2, done + [es[0]]);
        assert done + [es[0]] + es[1..] == done + es;
      }
    }
  }

  lemma {:induction false} ObjectParses(ms: seq<Member>, l: Layout, level: nat, r: string, st: State)
    requires Unquoted(Object(ms)) && WellFormed(Object(ms)) && Ends(r)
    requires At(st, Print(Object(ms), l, level) + r)
    ensures Takes(ParseNode(st), Object(ms), NonNegative(Object(ms)), r)
    decreases Object(ms), 0
  {
    if ms == [] {
      EmptyObjectParses(l, level, r, st);
    } else {
      hide ReadToken, Print, ParseMembers, Takes;
      ObjectText(ms, l, level, r);
      var s := MembersEnter(ms[0], l, level, MembersTail(ms[1..], l, level, r), st);
      assert [] + ms == ms;
      MembersParse(ms, l, level, r, s, []);
    }
  }

  lemma EmptyObjectParses(l: Layout, level: nat, r: string, st: State)
    requires At(st, Print(Object([]), l, level) + r)
    ensures Takes(ParseNode(st), Object([]), true, r)
  {
    EmptyTexts(l, level, r);
    hide ReadToken, ParseElements, Print;
    SignTokens("}" + r);
    SignTokens(r);
  }

  /** What is left of a member once its key is taken. */
  function AfterKey(m: Member, l: Layout, level: nat, r: string): string {
    ":" + (" " + (Print(m.value, l, level + l.width) + r))
  }

  lemma KeyTaken(m: Member, l: Layout, level: nat, r: string, ws: string)
    requires NoQuote(m.key) && AllSpace(ws)
    ensures ReadToken(ws + MemberText(m, l, level, r)) == Token(StringToken, m.key, AfterKey(m, l, level, r))
  {
    hide ReadToken, Print;
    SpaceSkipped(ws, MemberText(m, l, level, r));
    QuoteToken(m.key, AfterKey(m, l, level, r));
  }

  lemma MembersEnter(m: Member, l: Layout, level: nat, r: string, st: State) returns (s: State)
    requires NoQuote(m.key)
    requires At(st, "{" + (Gap(l, level, " ") + MemberText(m, l, level, r)))
    ensures s == State(AfterKey(m, l, level, r), m.key, None)
    ensures ParseNode(st) == ParseMembers(StringToken, s, [])
  {
    hide ReadToken, ParseMembers, Gap, MemberText, AfterKey;
    SignTokens(Gap(l, level, " ") + MemberText(m, l, level, r));
    GapIsSpace(l, level, " ");
    KeyTaken(m, l, level, r, Gap(l, level, " "));
    s := State(AfterKey(m, l, level, r), m.key, None);
  }

  /** The value of a member is parsed from behind its colon. */
  lemma ValueEnters(m: Member, l: Layout, level: nat, r: string)
    ensures ReadToken(AfterKey(m, l, level, r)) == Token(Colon, "", " " + (Print(m.value, l, level + l.width) + r))
    ensures At(State(" " + (Print(m.value, l, level + l.width) + r), "", None), Print(m.value, l, level + l.width) + r)
  {
    hide ReadToken, Print;
    var text := Print(m.value, l, level + l.width) + r;
    SignTokens(" " + text);
    AtInput(" " + text, "", " ", text);
  }

  /** The members of a printable object, one and the others. */
  lemma MembersSplit(ms: seq<Member>, done: seq<Member>)
    requires ms != [] && Unquoted(Object(ms)) && WellFormed(Object(ms)) && KeysAscend(done + ms)
    ensures Unquoted(ms[0].value) && WellFormed(ms[0].value) && Unquoted(Object(ms[1..])) && WellFormed(Object(ms[1..]))
    ensures |ms| > 1 ==> NoQuote(ms[1].key)
    ensures NonNegative(Object(ms)) <==> NonNegative(ms[0].value) && (|ms| > 1 ==> NonNegative(Object(ms[1..])))
    ensures forall i :: 0 <= i < |done| ==> Less(done[i].key, ms[0].key)
    ensures KeysAscend(done + [ms[0]] + ms[1..])
  {
    hide Less, NoQuote;
    assert ms == [ms[0]] + ms[1..];
    assert forall i :: 0 <= i < |done| ==> (done + ms)[i] == done[i] && (done + ms)[|done|] == ms[0];
    assert done + [ms[0]] + ms[1..] == done + ms;
    assert forall m :: m in ms <==> m == ms[0] || m in ms[1..];
  }

  /** What the loop over members goes on to behind a value. */
  ghost function BehindValue(st: State, done: seq<Member>): Parsed
    requires st.ahead.None?
  {
    var (k, s) := NextToken(st);
    if k == ObjectEnd then Ok(Object(done), s)
    else if k != Comma then SyntaxError
    else
      var (k', s') := NextToken(s);
      ParseMembers(k', s', done)
  }

  /** One turn of that loop, its value parsed. */
  lemma MemberTurn(m: Member, l: Layout, level: nat, tail: string, st: State, done: seq<Member>) returns (s: State)
    requires st == State(AfterKey(m, l, level, tail), m.key, None)
    requires forall s1 :: At(s1, Print(m.value, l, level + l.width) + tail) ==>
               Takes(ParseNode(s1), m.value, NonNegative(m.value), tail)
    ensures s.ahead.None?
    ensures if NonNegative(m.value) then
              s.input == tail && ParseMembers(StringToken, st, done) == BehindValue(s, Set(done, m.key, m.value))
            else ParseMembers(StringToken, st, done).SyntaxError?
  {
    ValueEnters(m, l, level, tail);
    hide ReadToken, Print, ParseNode, AfterKey, Set, NonNegative;
    var (colon, s1) := NextToken(st);
    assert At(s1, Print(m.value, l, level + l.width) + tail);
    assert Takes(ParseNode(s1), m.value, NonNegative(m.value), tail);
    s := if NonNegative(m.value) then ParseNode(s1).state else st;
  }

  lemma {:induction false} MembersParse(ms: seq<Member>, l: Layout, level: nat, r: string, st: State, done: seq<Member>)
    requires ms != [] && Unquoted(Object(ms)) && WellFormed(Object(ms)) && KeysAscend(done + ms) && Ends(r)
    requires st == State(AfterKey(ms[0], l, level, MembersTail(ms[1..], l, level, r)), ms[0].key, None)
    ensures Takes(ParseMembers(StringToken, st, done), Object(done + ms), NonNegative(Object(ms)), r)
    decreases ms
  {
    hide ReadToken, Print, ParseNode, ParseMembers, MembersTail, Gap, AfterKey, MemberText, Set, Less, KeysAscend,
         NoQuote, Unquoted, WellFormed, NonNegative, At;
    MembersSplit(ms, done);
    var m, tail := ms[0], MembersTail(ms[1..], l, level, r);
    MembersTailToken(ms[1..], l, level, r);
    forall s1 | At(s1, Print(m.value, l, level + l.width) + tail)
      ensures Takes(ParseNode(s1), m.value, NonNegative(m.value), tail)
    {
      NodeParses(m.value, l, level + l.width, tail, s1);
    }
    var s := MemberTurn(m, l, level, tail, st, done);
    if NonNegative(m.value) {
      SetAppends(done, m.key, m.value);
      if |ms| == 1 {
        assert done + [Member(m.key, m.value)] == done + ms;
      } else {
        var next := State(AfterKey(ms[1], l, level, MembersTail(ms[1..][1..], l, level, r)), ms[1].key, None);
        GapIsSpace(l, level, " ");
        KeyTaken(ms[1], l, level, MembersTail(ms[1..][1..], l, level, r), Gap(l, level, " "));
        assert BehindValue(s, done + [m]) == ParseMembers(StringToken, next, done + [m]);
        MembersParse(ms[1..], l, level, r, next, done + [m]);
        assert done + [m] + ms[1..] == done + ms;
      }
    }
  }

  // ---------------------------------------------------------------- what a parse can yield

  lemma {:induction false} LessTransitive(a: string, b: string, c: string)
    requires Less(a, b) && Less(b, c)
    ensures Less(a, c)
  {
    if a != "" && a[0] == b[0] == c[0] {
      LessTransitive(a[1..], b[1..], c[1..]);
    }
  }

  lemma {:induction false} LessTotal(a: string, b: string)
    requires a != b
    ensures Less(a, b) || Less(b, a)
  {
    if a != "" && b != "" && a[0] == b[0] {
      assert a == [a[0]] + a[1..] && b == [b[0]] + b[1..];
      LessTotal(a[1..], b[1..]);
    }
  }

  /** Setting a member keeps the keys ascending and adds no key but its own. */
  lemma {:induction false} SetKeepsOrder(ms: seq<Member>, key: string, value: Node)
    requires KeysAscend(ms)
    ensures KeysAscend(Set(ms, key, value))
    ensures forall m :: m in Set(ms, key, value) ==> m == Member(key, value) || m in ms
  {
    hide Less;
    if ms != [] {
      var rest := ms[1..];
      var r := Set(ms, key, value);
      if ms[0].key == key {
      } else if Less(key, ms[0].key) {
        forall k | 0 <= k < |ms| ensures Less(key, ms[k].key) {
          if k > 0 { LessTransitive(key, ms[0].key, ms[k].key); }
        }
      } else {
        LessTotal(key, ms[0].key);
        SetKeepsOrder(rest, key, value);
        assert forall k :: 0 < k < |r| ==> r[k] in Set(rest, key, value);
        assert forall m :: m in rest ==> m in ms && Less(ms[0].key, m.key);
      }
    }
  }

  lemma {:induction false} StringIsUnquoted(s: string, text: string)
    requires NoQuote(text)
    ensures NoQuote(ReadString(s, text).text)
  {
    if s != "" && s[0] != '"' { StringIsUnquoted(s[1..], text + [s[0]]); }
  }

  lemma {:induction false} NumberIsUnquoted(s: string, text: string)
    requires NoQuote(text)
    ensures NoQuote(ReadNumber(s, text).text)
  {
    if s != "" && IsDigit(s[0]) { NumberIsUnquoted(s[1..], text + [s[0]]); }
  }

  lemma {:induction false} KeywordIsUnquoted(s: string, keyword: string, kind: Kind)
    ensures NoQuote(ReadKeyword(s, keyword, kind).text)
  {
    if keyword != "" && s != "" { KeywordIsUnquoted(s[1..], keyword[1..], kind); }
  }

  lemma TokenIsUnquoted(st: State)
    requires NoQuote(st.token)
    ensures NoQuote(NextToken(st).1.token)
  {
    hide ReadString, ReadNumber, ReadKeyword, SkipSpace;
    if st.ahead.None? {
      var u := SkipSpace(st.input);
      if u != "" {
        StringIsUnquoted(u[1..], "");
        NumberIsUnquoted(u, "");
        KeywordIsUnquoted(u, "true", TrueToken);
        KeywordIsUnquoted(u, "false", FalseToken);
        KeywordIsUnquoted(u, "null", NullToken);
      }
    }
  }

  /** A parse that succeeds yields a tree the program can hold, free of quotes. */
  ghost predicate Sound(p: Parsed) {
    p.Ok? ==> WellFormed(p.node) && Unquoted(p.node) && NoQuote(p.state.token)
  }

  lemma {:induction false} NodeIsSound(st: State)
    requires NoQuote(st.token)
    ensures Sound(ParseNode(st))
    decreases Fuel(st), 0
  {
    hide ReadToken, ParseMembers, ParseElements, Value;
    TokenIsUnquoted(st);
    var (kind, s) := NextToken(st);
    TokenIsUnquoted(s);
    match kind
    case ObjectBegin =>
      var (k, s') := NextToken(s);
      MembersAreSound(k, s', []);
    case ArrayBegin =>
      var (k, s') := LookAhead(s);
      ElementsAreSound(s', []);
    case _ =>
  }

  lemma {:induction false} MembersAreSound(kind: Kind, st: State, ms: seq<Member>)
    requires st.ahead.None? && NoQuote(st.token) && WellFormed(Object(ms)) && Unquoted(Object(ms))
    ensures Sound(ParseMembers(kind, st, ms))
    decreases Fuel(st), 2
  {
    hide ReadToken, ParseNode, Set, KeysAscend, NoQuote, Less;
    if kind == StringToken {
      TokenIsUnquoted(st);
      var (colon, s1) := NextToken(st);
      if colon == Colon {
        NodeIsSound(s1);
        if ParseNode(s1).Ok? {
          var Ok(value, s2) := ParseNode(s1);
          SetKeepsOrder(ms, st.token, value);
          TokenIsUnquoted(s2);
          var (k, s3) := NextToken(s2);
          if k == Comma {
            TokenIsUnquoted(s3);
            MembersAreSound(NextToken(s3).0, NextToken(s3).1, Set(ms, st.token, value));
          }
        }
      }
    }
  }

  lemma {:induction false} ElementsAreSound(st: State, es: seq<Node>)
    requires NoQuote(st.token) && WellFormed(Array(es)) && Unquoted(Array(es))
    ensures Sound(ParseElements(st, es))
    decreases Fuel(st), 1
  {
    hide ReadToken, ParseNode, NoQuote;
    NodeIsSound(st);
    if ParseNode(st).Ok? {
      var Ok(value, s1) := ParseNode(st);
      TokenIsUnquoted(s1);
      var (k, s2) := NextToken(s1);
      if k == Comma { ElementsAreSound(s2, es + [value]); }
    }
  }

  // ---------------------------------------------------------------- the theorems

  /** In every layout, a tree comes back from its own printout exactly when its
      strings hold no quote and its numbers are not negative. */
  lemma RoundTripIff(j: Node, l: Layout)
    requires WellFormed(j)
    ensures Parse(Print(j, l, 0)) == Some(j) <==> Unquoted(j) && NonNegative(j)
  {
    hide ReadToken, Print, ParseNode, WellFormed, Unquoted, NonNegative;
    var text := Print(j, l, 0);
    var st := State(text, "", None);
    NodeIsSound(st);
    if Unquoted(j) {
      assert text + "" == text;
      NodeParses(j, l, 0, "", st);
    }
  }

  /** Whatever text a tree was parsed from, printing it in any layout and parsing
      again yields it unless a number wrapped to a negative one. */
  lemma ReparseIff(text: string, l: Layout)
    requires Parse(text).Some?
    ensures var j := Parse(text).value;
            WellFormed(j) && (Parse(Print(j, l, 0)) == Some(j) <==> NonNegative(j))
  {
    hide ReadToken, Print, ParseNode, WellFormed, Unquoted, NonNegative;
    NodeIsSound(State(text, "", None));
    RoundTripIff(Parse(text).value, l);
  }

  /** A run of digits is read as its value exactly below 2^31; above, it can come
      out negative. */
  lemma NumberIsExactIff(n: nat)
    ensures Parse(Digits(n)) == Some(Number(n)) <==> n < 0x8000_0000
    ensures Parse(Digits(0xFFFF_FFFF)) == Some(Number(-1))
  {
    hide Parse, Digits, ToInt;
    DigitsParse(n);
    DigitsParse(0xFFFF_FFFF);
    ToIntIs(n);
  }

  lemma ToIntIs(n: nat)
    ensures ToInt(n) == n <==> n < 0x8000_0000
    ensures ToInt(0xFFFF_FFFF) == -1
  {
  }

  lemma DigitsParse(n: nat)
    ensures Parse(Digits(n)) == Some(Number(ToInt(n)))
  {
    hide ReadToken, ReadNumber, Digits, Value, ToInt;
    assert Digits(n) + "" == Digits(n);
    DigitsRead(n);
    DigitsToken(n, "");
  }
}
