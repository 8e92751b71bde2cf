/**
 * What the parser promises, proved about the functional machine of parser_spec.dfy:
 * the classifier's precedence and its round trip with Token.asText, escapes in text, the
 * shape of the tree it builds, and the state an end tag closed by a space never leaves.
 */
module ParserProps {
  import opened Base
  import opened JavaText
  import opened JavaNumbers
  import opened Values
  import opened Tokens
  import opened Nodes
  import opened ParserSpec

  // ---------------------------------------------------------------- classifier

  /** A valid name is a variable, even when it also reads as a number ("NaN", "Infinity"). */
  lemma ClassifyName(fp: FloatOps, s: string)
    requires IsName(s)
    ensures MakeNewToken(fp, s) == Ok(Variable(s))
  {
    assert !IsOperator(s) && !StartsWith(s, "@") by {
      assert IsLetter(s[0]);
    }
  }

  /** Text Integer.parseInt accepts is an integer token, never an operator, function or variable. */
  lemma ClassifyInteger(fp: FloatOps, s: string)
    requires ParseInt(s).Some?
    ensures MakeNewToken(fp, s) == Ok(ConstantInteger(ParseInt(s).value))
  {
    assert !IsOperator(s) by {
      if |s| == 1 {
        assert IsDigit(s[0]);
      }
    }
    assert !StartsWith(s, "@") && !IsName(s) by {
      assert IsDigit(s[0]) || s[0] == '-' || s[0] == '+';
    }
  }

  /** "@" and a name: a function when the name is valid, the function-name error otherwise. */
  lemma ClassifyFunction(fp: FloatOps, name: string)
    ensures MakeNewToken(fp, "@" + name) ==
      if name == [] then Err(IndexOutOfBoundsException)
      else if IsName(name) then Ok(Function(name))
      else Err(SmartScriptParserException(MSG_FUNCTION_NAME))
  {
    var s := "@" + name;
    assert StartsWith(s, "@") && s[1..] == name;
    assert !IsOperator(s) by {
      assert s[0] == '@';
    }
  }

  /** A quoted lexeme is a string token with the quotes stripped, whatever lies between them. */
  lemma ClassifyQuoted(fp: FloatOps, v: string)
    ensures MakeNewToken(fp, "\"" + v + "\"") == Ok(ConstantString(v))
  {
    var s := "\"" + v + "\"";
    assert s[0] == '"' && s[|s| - 1] == '"';
    assert !IsOperator(s);
    assert !StartsWith(s, "@");
    assert ValidName(s) == Ok(false);
    assert ParseInt(s).None?;
    QuotedNotDouble(s);
    assert StartsWith(s, "\"") && EndsWith(s, "\"");
    assert s[1..|s| - 1] == v;
  }

  /** Double.parseDouble rejects text in quotes. */
  lemma QuotedNotDouble(s: string)
    requires |s| >= 2 && s[0] == '"' && s[|s| - 1] == '"'
    ensures !IsDoubleText(s)
  {
    assert TrimStart(s) == s;
    assert Trim(s) == s;
    DoubleTextStart(s);
  }

  /** The tokens the classifier can give back from their own text (doubles excepted). */
  predicate Canonical(t: Token) {
    match t
    case Operator(symbol) => IsOperator(symbol)
    case Function(name) => IsName(name)
    case Variable(name) => IsName(name)
    case ConstantInteger(v) => IsInt32(v)
    case ConstantDouble(_) => false
    case ConstantString(_) => true
  }

  /** Classifying a token's asText gives the token back. */
  lemma {:induction false} ClassifyAsText(fp: FloatOps, t: Token)
    requires Canonical(t)
    ensures MakeNewToken(fp, Tokens.AsText(fp, t)) == Ok(t)
  {
    match t
    case Operator(symbol) =>
    case Function(name) => ClassifyFunction(fp, name);
    case Variable(name) => ClassifyName(fp, name);
    case ConstantInteger(v) =>
      ParseIntToString(v);
      ClassifyInteger(fp, IntToString(v));
    case ConstantString(text) => ClassifyQuoted(fp, text);
  }

  // ---------------------------------------------------------------- escapes in text

  /** The text a run of characters without '{' contributes: escapes resolved, a final lone backslash dropped. */
  function Unescape(t: string): (r: string)
    ensures |r| <= |t|
  {
    if t == [] then []
    else if t[0] == '\\' then (if |t| == 1 then [] else Escaped(t[1]) + Unescape(t[2..]))
    else [t[0]] + Unescape(t[1..])
  }

  /** The text ends in a backslash that escapes nothing. */
  predicate DanglingBackslash(t: string) {
    if t == [] then false
    else if t[0] == '\\' then |t| == 1 || DanglingBackslash(t[2..])
    else DanglingBackslash(t[1..])
  }

  lemma StepInText(fp: FloatOps, st: PState, c: char)
    requires st.status == InText && c != '{'
    ensures Step(fp, st, c) == Ok(if c == '\\' then st.(status := Escaping) else st.(sb := st.sb + [c]))
  {
    assert Step(fp, st, c) == StepText(st, c);
  }

  lemma StepEscaping(fp: FloatOps, st: PState, c: char)
    requires st.status == Escaping
    ensures Step(fp, st, c) == Ok(st.(sb := st.sb + Escaped(c), status := InText))
  {
    assert Step(fp, st, c) == StepText(st, c);
  }

  /** The state a run of text without '{' leaves behind, from the text state. */
  function TextAfter(st: PState, t: string): PState {
    st.(sb := st.sb + Unescape(t), status := if DanglingBackslash(t) then Escaping else InText)
  }

  lemma TextAfterEmpty(st: PState)
    requires st.status == InText
    ensures TextAfter(st, []) == st
  {
    assert st.sb + [] == st.sb;
  }

  lemma TextAfterPlain(st: PState, t: string)
    requires t != [] && t[0] != '\\'
    ensures TextAfter(st, t) == TextAfter(st.(sb := st.sb + [t[0]]), t[1..])
  {
    assert st.sb + [t[0]] + Unescape(t[1..]) == st.sb + Unescape(t);
  }

  lemma TextAfterEscape(st: PState, t: string)
    requires |t| > 1 && t[0] == '\\'
    ensures TextAfter(st, t) == TextAfter(st.(sb := st.sb + Escaped(t[1])), t[2..])
  {
    assert st.sb + Escaped(t[1]) + Unescape(t[2..]) == st.sb + Unescape(t);
  }

  lemma TextAfterDangling(st: PState)
    ensures TextAfter(st, "\\") == st.(status := Escaping)
  {
    assert st.sb + Unescape("\\") == st.sb;
  }

  /** From the text state, a run without '{' appends its unescaped text to the builder. */
  lemma {:induction false} RunText(fp: FloatOps, st: PState, t: string)
    requires st.status == InText && '{' !in t
    ensures Run(fp, st, t) == Ok(TextAfter(st, t))
    decreases |t|
  {
    if t == [] {
      TextAfterEmpty(st);
    } else if t[0] == '\\' {
      RunTextEscape(fp, st, t);
    } else {
      var s1 := st.(sb := st.sb + [t[0]]);
      StepInText(fp, st, t[0]);
      RunCons(fp, st, t, s1);
      RunText(fp, s1, t[1..]);
      TextAfterPlain(st, t);
    }
  }

  /** The backslash case of RunText. */
  lemma {:induction false} RunTextEscape(fp: FloatOps, st: PState, t: string)
    requires st.status == InText && '{' !in t && t != [] && t[0] == '\\'
    ensures Run(fp, st, t) == Ok(TextAfter(st, t))
    decreases |t|, 0
  {
    var s1 := st.(status := Escaping);
    StepInText(fp, st, t[0]);
    RunCons(fp, st, t, s1);
    if |t| > 1 {
      var s2 := st.(sb := st.sb + Escaped(t[1]));
      StepEscaping(fp, s1, t[1]);
      assert t[1..][1..] == t[2..];
      RunCons(fp, s1, t[1..], s2);
      RunText(fp, s2, t[2..]);
      TextAfterEscape(st, t);
    } else {
      assert t == "\\";
      RunNil(fp, s1, t[1..]);
      TextAfterDangling(st);
    }
  }

  lemma RunNil(fp: FloatOps, st: PState, t: string)
    requires t == []
    ensures Run(fp, st, t) == Ok(st)
  {
  }

  /** At the end of a text-only document, the pending text becomes the only child, from the text state. */
  lemma FinishText(st: PState)
    requires st.stack == [Node(DocumentKind, [])]
    ensures Finish(st) == Ok(Node(DocumentKind, if st.status == InText then [Node(TextKind(st.sb), [])] else []))
  {
    if st.status == InText {
      var text := Node(TextKind(st.sb), []);
      assert AddChildNode(st.stack[0], text) == Node(DocumentKind, [text]) by {
        assert [] + [text] == [text];
      }
      assert AddTextNode(st).value.stack == [Node(DocumentKind, [text])];
    }
  }

  /** A backslash opening the document is kept itself; elsewhere it only escapes. */
  function LeadingBackslash(body: string): string {
    if body != [] && body[0] == '\\' then "\\" else ""
  }

  /**
   * A document without '{' is one text node with its escapes resolved, unless it is empty
   * or ends in a dangling backslash: then the text is lost and the document has no child.
   */
  lemma ParsePlainText(fp: FloatOps, body: string)
    requires '{' !in body
    ensures Parse(fp, body) == Ok(Node(DocumentKind,
      if body == [] || DanglingBackslash(body) then []
      else [Node(TextKind(LeadingBackslash(body) + Unescape(body)), [])]))
  {
    if body == [] {
      RunNil(fp, INITIAL, body);
      ParseFrom(fp, body, INITIAL);
    } else if body[0] == '\\' {
      ParseLeadingBackslash(fp, body);
    } else {
      var s0 := INITIAL.(status := InText);
      var s1 := s0.(sb := s0.sb + [body[0]]);
      assert s1 == INITIAL.(sb := [body[0]], status := InText);
      StepStarting(fp, body[0]);
      RunCons(fp, INITIAL, body, s1);
      RunText(fp, s1, body[1..]);
      TextAfterPlain(s0, body);
      ParseFrom(fp, body, TextAfter(s0, body));
      FinishText(TextAfter(s0, body));
      assert TextAfter(s0, body).sb == LeadingBackslash(body) + Unescape(body);
    }
  }

  /** ParsePlainText for a document that opens with a backslash. */
  lemma ParseLeadingBackslash(fp: FloatOps, body: string)
    requires '{' !in body && body != [] && body[0] == '\\'
    ensures Parse(fp, body) == Ok(Node(DocumentKind,
      if DanglingBackslash(body) then [] else [Node(TextKind("\\" + Unescape(body)), [])]))
  {
    var s1 := INITIAL.(sb := "\\", status := Escaping);
    StepStarting(fp, body[0]);
    RunCons(fp, INITIAL, body, s1);
    if |body| > 1 {
      var s0 := INITIAL.(sb := "\\", status := InText);
      var s2 := s0.(sb := s0.sb + Escaped(body[1]));
      StepEscaping(fp, s1, body[1]);
      RunCons(fp, s1, body[1..], s2);
      assert body[1..][1..] == body[2..];
      RunText(fp, s2, body[2..]);
      TextAfterEscape(s0, body);
      ParseFrom(fp, body, TextAfter(s0, body));
      FinishText(TextAfter(s0, body));
    } else {
      RunNil(fp, s1, body[1..]);
      ParseFrom(fp, body, s1);
      FinishText(s1);
    }
  }

  lemma ParseFrom(fp: FloatOps, body: string, st: PState)
    requires Run(fp, INITIAL, body) == Ok(st)
    ensures Parse(fp, body) == Finish(st)
  {
  }

  lemma StepStarting(fp: FloatOps, c: char)
    requires c != '{'
    ensures Step(fp, INITIAL, c) == Ok(INITIAL.(sb := [c], status := if c == '\\' then Escaping else InText))
  {
    assert INITIAL.sb + [c] == [c];
    assert Step(fp, INITIAL, c) == StepText(INITIAL, c);
  }

  lemma RunCons(fp: FloatOps, st: PState, t: string, next: PState)
    requires t != [] && Step(fp, st, t[0]) == Ok(next)
    ensures Run(fp, st, t) == Run(fp, next, t[1..])
  {
  }

  // ---------------------------------------------------------------- the end-tag state

  /** Once an end tag has been closed by a space, no later character changes anything. */
  lemma {:induction false} RunEndTag(fp: FloatOps, st: PState, rest: string)
    requires st.status == EndTag
    ensures Run(fp, st, rest) == Ok(st)
    decreases |rest|
  {
    if rest != [] {
      RunEndTag(fp, st, rest[1..]);
    }
  }

  /** Running over two pieces is running over the first, then over the second. */
  lemma {:induction false} RunAppend(fp: FloatOps, st: PState, a: string, b: string)
    ensures Run(fp, st, a + b) == match Run(fp, st, a) case Err(e) => Err(e) case Ok(s) => Run(fp, s, b)
    decreases |a|
  {
    if a == [] {
      assert a + b == b;
    } else {
      assert (a + b)[0] == a[0] && (a + b)[1..] == a[1..] + b;
      var r := Step(fp, st, a[0]);
      assert Run(fp, st, a + b) == if r.Err? then Err(r.error) else Run(fp, r.value, a[1..] + b);
      assert Run(fp, st, a) == if r.Err? then Err(r.error) else Run(fp, r.value, a[1..]);
      if r.Ok? {
        RunAppend(fp, r.value, a[1..], b);
      }
    }
  }

  /** Whatever follows the end-tag state is ignored: the result is fixed by the prefix. */
  lemma ParseIgnoresAfterEndTag(fp: FloatOps, prefix: string, st: PState, rest: string)
    requires Run(fp, INITIAL, prefix) == Ok(st) && st.status == EndTag
    ensures Parse(fp, prefix + rest) == Finish(st)
  {
    RunAppend(fp, INITIAL, prefix, rest);
    RunEndTag(fp, st, rest);
  }

  // ---------------------------------------------------------------- tag delimiters

  /** Between '{' and '$' only whitespace is skipped; any other character is an error. */
  lemma StepOpenTag(fp: FloatOps, st: PState, c: char)
    requires st.status == OpenTagD
    ensures Step(fp, st, c).Err? <==> c != '$' && !IsWhitespace(c)
    ensures Step(fp, st, c).Err? ==> Step(fp, st, c).error == SmartScriptParserException(MSG_OPEN)
    ensures Step(fp, st, c).Ok? ==> Step(fp, st, c).value == if c == '$' then st.(status := OpenTag) else st
  {
    assert Step(fp, st, c) == StepTag(st, c);
  }

  /** Between the closing '$' and '}' only whitespace is skipped; any other character is an error. */
  lemma StepCloseTag(fp: FloatOps, st: PState, c: char)
    requires st.status == ClosedTagD
    ensures Step(fp, st, c).Err? <==> c != '}' && !IsWhitespace(c)
    ensures Step(fp, st, c).Err? ==> Step(fp, st, c).error == SmartScriptParserException(MSG_CLOSE)
    ensures Step(fp, st, c).Ok? ==> Step(fp, st, c).value == if c == '}' then st.(status := InText) else st
  {
    assert Step(fp, st, c) == StepTag(st, c);
  }

  predicate AllWhitespace(w: string) {
    forall i :: 0 <= i < |w| ==> IsWhitespace(w[i])
  }

  /** `{`, any whitespace, then `$` opens the tag; whitespace alone leaves the state as it was. */
  lemma {:induction false} RunOpenTag(fp: FloatOps, st: PState, w: string)
    requires st.status == OpenTagD && AllWhitespace(w)
    ensures Run(fp, st, w) == Ok(st)
    ensures Run(fp, st, w + "$") == Ok(st.(status := OpenTag))
    decreases |w|
  {
    if w == [] {
      assert w + "$" == "$";
      StepOpenTag(fp, st, '$');
    } else {
      StepOpenTag(fp, st, w[0]);
      assert (w + "$")[0] == w[0] && (w + "$")[1..] == w[1..] + "$";
      RunOpenTag(fp, st, w[1..]);
    }
  }

  /** `$`, any whitespace, then `}` closes the tag and returns to text. */
  lemma {:induction false} RunCloseTag(fp: FloatOps, st: PState, w: string)
    requires st.status == ClosedTagD && AllWhitespace(w)
    ensures Run(fp, st, w) == Ok(st)
    ensures Run(fp, st, w + "}") == Ok(st.(status := InText))
    decreases |w|
  {
    if w == [] {
      assert w + "}" == "}";
      StepCloseTag(fp, st, '}');
    } else {
      StepCloseTag(fp, st, w[0]);
      assert (w + "}")[0] == w[0] && (w + "}")[1..] == w[1..] + "}";
      RunCloseTag(fp, st, w[1..]);
    }
  }

  // ---------------------------------------------------------------- end of input

  /**
   * After the last character the stack must hold the document alone; text pending in the
   * text state becomes its last child, and text pending in any other state is dropped.
   */
  lemma FinishOutcome(st: PState)
    requires st.stack != []
    ensures Finish(st).Ok? <==> |st.stack| == 1
    ensures Finish(st).Err? ==> Finish(st).error == SmartScriptParserException(MSG_MISSING_ENDS)
    ensures Finish(st).Ok? ==>
      Finish(st).value == (if st.status == InText then AddChildNode(st.stack[0], Node(TextKind(st.sb), [])) else st.stack[0])
  {
  }

  // ---------------------------------------------------------------- for tags

  /** Each token of the for tag's array is the classification of the element at its place. */
  lemma {:induction false} ForTokensAt(fp: FloatOps, elements: seq<string>, i: nat)
    requires i <= |elements| && i <= 4
    requires ForTokens(fp, elements, i).Ok?
    ensures forall k :: i <= k < |elements| ==>
      MakeNewToken(fp, elements[k]) == Ok(ForTokens(fp, elements, i).value[k - i])
    decreases |elements| - i
  {
    if i < |elements| {
      ForTokensAt(fp, elements, i + 1);
    }
  }

  /**
   * A for tag's text split on ' ' gives the variable, start, end and step slots in order;
   * the step is present exactly when there were four parts.
   */
  lemma ForLoopNodeSlots(fp: FloatOps, st: PState)
    requires AddForLoopNode(fp, st).Ok?
    ensures var elements := Split(st.sb, ' ');
      var kind := AddForLoopNode(fp, st).value.stack[|st.stack|].kind;
      && (kind.variable.Some? <==> |elements| >= 1)
      && (kind.start.Some? <==> |elements| >= 2)
      && (kind.end.Some? <==> |elements| >= 3)
      && (kind.step.Some? <==> |elements| == 4)
      && (kind.variable.Some? ==> MakeNewToken(fp, elements[0]) == Ok(Variable(kind.variable.value)))
      && (kind.start.Some? ==> MakeNewToken(fp, elements[1]) == Ok(kind.start.value))
      && (kind.end.Some? ==> MakeNewToken(fp, elements[2]) == Ok(kind.end.value))
      && (kind.step.Some? ==> MakeNewToken(fp, elements[3]) == Ok(kind.step.value))
  {
    var elements := Split(st.sb, ' ');
    ForTokensAt(fp, elements, 0);
    var tokens := ForTokens(fp, elements, 0).value;
    assert |tokens| == |elements|;
    if tokens != [] {
      assert ForTokens(fp, elements, 0) == Ok([MakeNewToken(fp, elements[0]).value] + ForTokens(fp, elements, 1).value);
    }
  }
}

module ParserShape {
  import opened Base
  import opened Values
  import opened Nodes
  import opened ParserSpec
  import opened JavaText

  /** A node below the root: text and echo nodes are leaves, for-loop nodes hold such nodes. */
  predicate Content(n: Node)
    decreases n
  {
    match n.kind
    case DocumentKind => false
    case TextKind(_) => n.children == []
    case EchoKind(_) => n.children == []
    case ForLoopKind(_, _, _, _) => forall i :: 0 <= i < |n.children| ==> Content(n.children[i])
  }

  predicate AllContent(children: seq<Node>) {
    forall i :: 0 <= i < |children| ==> Content(children[i])
  }

  /** The node stack the parser keeps: the document at the bottom, open for-loop nodes above it. */
  predicate Inv(st: PState) {
    && |st.stack| >= 1
    && st.stack[0].kind == DocumentKind
    && (forall i :: 1 <= i < |st.stack| ==> st.stack[i].kind.ForLoopKind?)
    && (forall i :: 0 <= i < |st.stack| ==> AllContent(st.stack[i].children))
  }

  lemma AddToTopInv(st: PState, child: Node)
    requires Inv(st) && Content(child)
    ensures AddToTop(st.stack, child).Ok? && Inv(st.(stack := AddToTop(st.stack, child).value))
  {
    var n := |st.stack|;
    var stack := AddToTop(st.stack, child).value;
    assert stack[n - 1].children == st.stack[n - 1].children + [child];
    forall i | 0 <= i < n
      ensures AllContent(stack[i].children)
    {
      if i < n - 1 {
        assert stack[i] == stack[..n - 1][i] == st.stack[..n - 1][i];
      }
    }
  }

  lemma ResolveEndTagInv(st: PState)
    requires Inv(st) && ResolveEndTag(st).Ok?
    ensures Inv(ResolveEndTag(st).value)
  {
    var n := |st.stack|;
    var top := st.stack[n - 1];
    assert Content(top);
    var stack := ResolveEndTag(st).value.stack;
    assert stack[n - 2] == AddChildNode(st.stack[n - 2], top);
    assert stack[n - 2].children == st.stack[n - 2].children + [top];
    forall i | 0 <= i < n - 1
      ensures AllContent(stack[i].children)
    {
      if i < n - 2 {
        assert stack[i] == stack[..n - 2][i] == st.stack[..n - 2][i];
      }
    }
  }

  lemma AddForLoopNodeInv(fp: FloatOps, st: PState)
    requires Inv(st) && AddForLoopNode(fp, st).Ok?
    ensures Inv(AddForLoopNode(fp, st).value)
  {
    var n := |st.stack|;
    var stack := AddForLoopNode(fp, st).value.stack;
    forall i | 0 <= i < n
      ensures stack[i] == st.stack[i]
    {
      assert stack[i] == stack[..n][i];
    }
  }

  lemma AddEchoNodeInv(st: PState)
    requires Inv(st) && AddEchoNode(st).Ok?
    ensures Inv(AddEchoNode(st).value)
  {
    AddToTopInv(st, Node(EchoKind(st.echoTokens.value), []));
  }

  lemma StepTextInv(st: PState, c: char)
    requires Inv(st) && st.status in {Starting, InText, Escaping} && StepText(st, c).Ok?
    ensures Inv(StepText(st, c).value)
  {
    if st.status == InText && c == '{' {
      AddToTopInv(st, Node(TextKind(st.sb), []));
    }
  }

  lemma StepTagInv(st: PState, c: char)
    requires Inv(st) && st.status in {OpenTagD, OpenTag, NameOfNode, ClosedTagD, EndTag} && StepTag(st, c).Ok?
    ensures Inv(StepTag(st, c).value)
  {
    var r := StepTag(st, c).value;
    if st.status == NameOfNode && !IsLetter(c) && (c == ' ' || c == '$') && ToLower(st.sb) == "end" {
      ResolveEndTagInv(st.(sb := ""));
      assert r.stack == ResolveEndTag(st.(sb := "")).value.stack;
    } else {
      assert r.stack == st.stack;
    }
  }

  lemma StepForInv(fp: FloatOps, st: PState, c: char)
    requires Inv(st) && st.status in {ForNode, ForStart, ForEnd, ForStep} && StepFor(fp, st, c).Ok?
    ensures Inv(StepFor(fp, st, c).value)
  {
    if st.status == ForStep && AddForLoopNode(fp, st).Ok? {
      AddForLoopNodeInv(fp, st);
    }
  }

  lemma StepEchoInv(fp: FloatOps, st: PState, c: char)
    requires Inv(st) && st.status in {InEcho, EchoFunction, EchoVariable, EchoOperNum, EchoString, EchoEscString}
    requires StepEcho(fp, st, c).Ok?
    ensures Inv(StepEcho(fp, st, c).value)
  {
    if st.status == InEcho && c == '$' {
      AddEchoNodeInv(st);
    } else if st.status in {EchoFunction, EchoVariable, EchoOperNum, EchoString} && c == '$' {
      CloseEchoInv(fp, st);
    }
  }

  lemma CloseEchoInv(fp: FloatOps, st: PState)
    requires Inv(st) && CloseEcho(fp, st).Ok?
    ensures Inv(CloseEcho(fp, st).value)
  {
    var s := AddEchoToken(fp, st).value;
    AddEchoNodeInv(s);
  }

  lemma StepInv(fp: FloatOps, st: PState, c: char)
    requires Inv(st) && Step(fp, st, c).Ok?
    ensures Inv(Step(fp, st, c).value)
  {
    match st.status
    case Starting | InText | Escaping => StepTextInv(st, c);
    case OpenTagD | OpenTag | NameOfNode | ClosedTagD | EndTag => StepTagInv(st, c);
    case ForNode | ForStart | ForEnd | ForStep => StepForInv(fp, st, c);
    case InEcho | EchoFunction | EchoVariable | EchoOperNum | EchoString | EchoEscString => StepEchoInv(fp, st, c);
  }

  lemma {:induction false} RunInv(fp: FloatOps, st: PState, input: string)
    requires Inv(st) && Run(fp, st, input).Ok?
    ensures Inv(Run(fp, st, input).value)
    decreases |input|
  {
    if input != [] {
      StepInv(fp, st, input[0]);
      RunInv(fp, Step(fp, st, input[0]).value, input[1..]);
    }
  }

  /**
   * A parsed document is a document node whose descendants are text, echo and for-loop
   * nodes, with children only under for-loops: the for/end nesting of the input.
   */
  lemma ParseShape(fp: FloatOps, body: string)
    requires Parse(fp, body).Ok?
    ensures Parse(fp, body).value.kind == DocumentKind
    ensures AllContent(Parse(fp, body).value.children)
  {
    assert Inv(INITIAL);
    RunInv(fp, INITIAL, body);
    var st := Run(fp, INITIAL, body).value;
    if st.status == InText {
      AddToTopInv(st, Node(TextKind(st.sb), []));
    }
  }
}
