/**
 * The smart-script parser (src/hr/fer/zemris/custom/scripting/parser/SmartScriptParser.java)
 * as a function of its input: the token classifier, the per-character transition of the
 * state machine over (status, builder, node stack, echo tokens), and the end-of-input check.
 * The class in parser.dfy runs the same machine in place and is proved equal to it.
 */
module ParserSpec {
  import opened Base
  import opened JavaText
  import opened JavaNumbers
  import opened Values
  import opened Tokens
  import opened Nodes

  /** The states of the machine, one per status constant of the parser. */
  datatype Status =
    | Starting | InText | Escaping | OpenTagD | OpenTag | NameOfNode | ClosedTagD
    | ForNode | ForStart | ForEnd | ForStep
    | InEcho | EchoFunction | EchoVariable | EchoOperNum | EchoString | EchoEscString
    | EndTag

  /**
   * Everything the loop changes: the status, the builder's text, the node stack (bottom
   * first) and the echo-token list, None until the first echo token creates it.
   * A node on the stack holds the children added so far; a for-loop node joins its
   * parent's children when its end tag pops it.
   */
  datatype PState = PState(status: Status, sb: string, stack: seq<Node>, echoTokens: Option<seq<Token>>)

  const INITIAL: PState := PState(Starting, "", [Node(DocumentKind, [])], None)

  const MSG_OPEN := "After { must come a $ sign."
  const MSG_TAG_NAME := "Opened tag must have a name (for,end) or has to be empty (=)."
  const MSG_UNKNOWN_COMMAND := "Unknown command."
  const MSG_CLOSE := "Missing $} combination."
  const MSG_TOO_MANY_ENDS := "Too much end tags."
  const MSG_MISSING_ENDS := "Missing a few END tags."
  const MSG_FUNCTION_NAME := "Function name is not valid."
  const MSG_UNKNOWN_DATA := "Unknown data."

  // ---------------------------------------------------------------- classifier

  /** A variable or function name: a letter, then letters, digits or underscores. */
  predicate IsName(name: string) {
    && name != []
    && IsLetter(name[0])
    && forall i :: 1 <= i < |name| ==> name[i] == '_' || IsLetterOrDigit(name[i])
  }

  /** isValidName: reading the first character of an empty name throws. */
  function ValidName(name: string): (r: Result<bool>)
    ensures r.Err? <==> name == []
    ensures r.Ok? ==> (r.value <==> IsName(name))
  {
    if name == [] then Err(IndexOutOfBoundsException) else Ok(IsName(name))
  }

  predicate IsOperator(s: string) {
    s == "+" || s == "-" || s == "*" || s == "/"
  }

  /**
   * makeNewToken: the first of operator, function, variable, int, double and quoted string
   * that the lexeme fits; "Unknown data." if none does.
   */
  function MakeNewToken(fp: FloatOps, s: string): (r: Result<Token>)
    ensures r.Ok? && (r.value.Operator? || r.value.Function? || r.value.Variable? || r.value.ConstantString?)
      ==> Tokens.AsText(fp, r.value) == s
    ensures r.Ok? && r.value.ConstantInteger? ==> ParseInt(s) == Some(r.value.intValue)
  {
    if IsOperator(s) then Ok(Operator(s))
    else if StartsWith(s, "@") then
      var ok :- ValidName(s[1..]);
      if ok then (assert s == "@" + s[1..]; Ok(Function(s[1..])))
      else Err(SmartScriptParserException(MSG_FUNCTION_NAME))
    else
      var ok :- ValidName(s);
      if ok then Ok(Variable(s))
      else if ParseInt(s).Some? then Ok(ConstantInteger(ParseInt(s).value))
      else if IsDoubleText(s) then Ok(ConstantDouble(fp.parse(s)))
      else if StartsWith(s, "\"") && EndsWith(s, "\"") then
        if |s| < 2 then Err(IndexOutOfBoundsException)
        else (assert s == "\"" + s[1..|s| - 1] + "\""; Ok(ConstantString(s[1..|s| - 1])))
      else Err(SmartScriptParserException(MSG_UNKNOWN_DATA))
  }

  // ---------------------------------------------------------------- stack helpers

  /** stack.peek(): the top, or the get(-1) failure on an empty stack. */
  function Top(stack: seq<Node>): (r: Result<Node>)
    ensures r.Ok? <==> stack != []
    ensures r.Ok? ==> r.value == stack[|stack| - 1]
  {
    if stack == [] then Err(IndexOutOfBoundsException) else Ok(stack[|stack| - 1])
  }

  /** ((Node) stack.peek()).addChildNode(child). */
  function AddToTop(stack: seq<Node>, child: Node): (r: Result<seq<Node>>)
    ensures r.Ok? <==> stack != []
    ensures r.Ok? ==> |r.value| == |stack| && r.value[..|stack| - 1] == stack[..|stack| - 1]
    ensures r.Ok? ==> r.value[|stack| - 1] == AddChildNode(stack[|stack| - 1], child)
  {
    var top :- Top(stack);
    Ok(stack[..|stack| - 1] + [AddChildNode(top, child)])
  }

  /** addTextNode: the builder's text becomes a text child of the top; the builder empties. */
  function AddTextNode(st: PState): (r: Result<PState>)
    ensures r.Ok? <==> st.stack != []
    ensures r.Ok? ==> r.value == st.(sb := "", stack := AddToTop(st.stack, Node(TextKind(st.sb), [])).value)
  {
    var stack :- AddToTop(st.stack, Node(TextKind(st.sb), []));
    Ok(st.(sb := "", stack := stack))
  }

  /**
   * resolveEndTag: with only the document left it fails; otherwise the top (a for-loop
   * node) is popped, and joins the children of the node below it.
   */
  function ResolveEndTag(st: PState): (r: Result<PState>)
    ensures |st.stack| == 1 ==> r == Err(SmartScriptParserException(MSG_TOO_MANY_ENDS))
    ensures st.stack == [] ==> r == Err(EmptyStackException)
    ensures |st.stack| >= 2 ==> r.Ok? && |r.value.stack| == |st.stack| - 1
    ensures |st.stack| >= 2 ==> r.value.stack[..|st.stack| - 2] == st.stack[..|st.stack| - 2]
  {
    var n := |st.stack|;
    if n == 1 then Err(SmartScriptParserException(MSG_TOO_MANY_ENDS))
    else if n == 0 then Err(EmptyStackException)
    else Ok(st.(stack := st.stack[..n - 2] + [AddChildNode(st.stack[n - 2], st.stack[n - 1])]))
  }

  /**
   * The token array of addForLoopNode, from element `i` on: each element classified in
   * order; the fifth element, once classified, does not fit the four-slot array.
   */
  function ForTokens(fp: FloatOps, elements: seq<string>, i: nat): (r: Result<seq<Token>>)
    requires i <= |elements| && i <= 4
    ensures r.Ok? ==> |elements| <= 4 && |r.value| == |elements| - i
    decreases |elements| - i
  {
    if i == |elements| then Ok([])
    else
      var t :- MakeNewToken(fp, elements[i]);
      if i == 4 then Err(IndexOutOfBoundsException)
      else
        var rest :- ForTokens(fp, elements, i + 1);
        Ok([t] + rest)
  }

  function Slot(tokens: seq<Token>, i: nat): Option<Token> {
    if i < |tokens| then Some(tokens[i]) else None
  }

  /**
   * addForLoopNode: the builder split on ' ' gives variable, start, end and optional step;
   * a first token that is not a variable fails the cast. The new node is pushed.
   */
  function AddForLoopNode(fp: FloatOps, st: PState): (r: Result<PState>)
    ensures r.Ok? ==> |Split(st.sb, ' ')| <= 4 && st.stack != []
    ensures r.Ok? ==> r.value.sb == "" && r.value.status == st.status && r.value.echoTokens == st.echoTokens
    ensures r.Ok? ==> |r.value.stack| == |st.stack| + 1 && r.value.stack[..|st.stack|] == st.stack
    ensures r.Ok? ==> r.value.stack[|st.stack|].children == []
    ensures r.Ok? ==> r.value.stack[|st.stack|].kind.ForLoopKind?
  {
    var elements := Split(st.sb, ' ');
    var tokens :- ForTokens(fp, elements, 0);
    if tokens != [] && !tokens[0].Variable? then Err(ClassCastException)
    else
      var variable := if tokens == [] then None else Some(tokens[0].name);
      var node := Node(ForLoopKind(variable, Slot(tokens, 1), Slot(tokens, 2), Slot(tokens, 3)), []);
      var _ :- Top(st.stack);
      Ok(st.(sb := "", stack := st.stack + [node]))
  }

  /** addEchoNode: the collected tokens become an echo child of the top; the list empties. */
  function AddEchoNode(st: PState): (r: Result<PState>)
    ensures r.Err? <==> st.echoTokens.None? || st.stack == []
    ensures st.echoTokens.None? ==> r == Err(NullPointerException)
    ensures r.Ok? ==> r.value == st.(echoTokens := Some([]),
      stack := AddToTop(st.stack, Node(EchoKind(st.echoTokens.value), [])).value)
  {
    if st.echoTokens.None? then Err(NullPointerException)
    else
      var stack :- AddToTop(st.stack, Node(EchoKind(st.echoTokens.value), []));
      Ok(st.(echoTokens := Some([]), stack := stack))
  }

  /** addEchoToken: the builder's lexeme, classified, joins the echo-token list. */
  function AddEchoToken(fp: FloatOps, st: PState): (r: Result<PState>)
    ensures r.Err? <==> MakeNewToken(fp, st.sb).Err?
    ensures r.Ok? ==> r.value == st.(sb := "",
      echoTokens := Some(st.echoTokens.GetOr([]) + [MakeNewToken(fp, st.sb).value]))
  {
    var t :- MakeNewToken(fp, st.sb);
    var list := if st.echoTokens.None? then [] else st.echoTokens.value;
    Ok(st.(sb := "", echoTokens := Some(list + [t])))
  }

  predicate WhitespaceOrEmptyBuilder(sb: string) {
    sb == [] || IsWhitespace(sb[|sb| - 1])
  }

  /** What an escaped character adds: CR, LF or TAB for r, n, t, and nothing otherwise. */
  function Escaped(c: char): string {
    if c == 'r' then "\r" else if c == 'n' then "\n" else if c == 't' then "\t" else ""
  }

  // ---------------------------------------------------------------- the machine

  /** One of the three for-tag token states: whitespace ends a token, other characters extend it. */
  function ForPart(st: PState, c: char, next: Status): PState {
    if IsWhitespace(c) then
      if WhitespaceOrEmptyBuilder(st.sb) then st else st.(sb := st.sb + [c], status := next)
    else st.(sb := st.sb + [c])
  }

  /** The state an echo tag moves to on the first character of a lexeme. */
  function EchoStart(c: char): Status {
    if c == '@' then EchoFunction
    else if IsLetter(c) then EchoVariable
    else if c == '+' || c == '-' || c == '*' || c == '/' || IsDigit(c) then EchoOperNum
    else if c == '"' then EchoString
    else InEcho
  }

  /** The lexeme ends the echo tag: the token is added, then the node. */
  function CloseEcho(fp: FloatOps, st: PState): Result<PState> {
    var s :- AddEchoToken(fp, st);
    var s2 :- AddEchoNode(s);
    Ok(s2.(status := ClosedTagD))
  }

  /** The body of the switch in parse for one character. */
  function Step(fp: FloatOps, st: PState, c: char): Result<PState> {
    match st.status
    case Starting | InText | Escaping => StepText(st, c)
    case OpenTagD | OpenTag | NameOfNode | ClosedTagD | EndTag => StepTag(st, c)
    case ForNode | ForStart | ForEnd | ForStep => StepFor(fp, st, c)
    case InEcho | EchoFunction | EchoVariable | EchoOperNum | EchoString | EchoEscString => StepEcho(fp, st, c)
  }

  /** Text outside tags, with escapes. */
  function StepText(st: PState, c: char): Result<PState>
    requires st.status in {Starting, InText, Escaping}
  {
    match st.status
    case Starting =>
      if c == '{' then Ok(st.(status := OpenTagD))
      else if c == '\\' then Ok(st.(sb := st.sb + [c], status := Escaping))
      else Ok(st.(sb := st.sb + [c], status := InText))
    case InText =>
      if c == '{' then
        var s :- AddTextNode(st);
        Ok(s.(status := OpenTagD))
      else if c == '\\' then Ok(st.(status := Escaping))
      else Ok(st.(sb := st.sb + [c]))
    case Escaping =>
      Ok(st.(sb := st.sb + Escaped(c), status := InText))
  }

  /** Opening a tag, reading its name, closing it; the end-tag state has no arm. */
  function StepTag(st: PState, c: char): Result<PState>
    requires st.status in {OpenTagD, OpenTag, NameOfNode, ClosedTagD, EndTag}
  {
    match st.status
    case OpenTagD =>
      if c == '$' then Ok(st.(status := OpenTag))
      else if IsWhitespace(c) then Ok(st)
      else Err(SmartScriptParserException(MSG_OPEN))
    case OpenTag =>
      if IsWhitespace(c) then Ok(st)
      else if c == '=' then Ok(st.(status := InEcho))
      else if IsLetter(c) then Ok(st.(sb := st.sb + [c], status := NameOfNode))
      else Err(SmartScriptParserException(MSG_TAG_NAME))
    case NameOfNode =>
      if IsLetter(c) then Ok(st.(sb := st.sb + [c]))
      else if c == ' ' then
        var name := ToLower(st.sb);
        if name == "for" then Ok(st.(sb := "", status := ForNode))
        else if name == "end" then
          var s :- ResolveEndTag(st.(sb := ""));
          Ok(s.(status := EndTag))
        else Err(SmartScriptParserException(MSG_UNKNOWN_COMMAND))
      else if c == '$' && ToLower(st.sb) == "end" then
        var s :- ResolveEndTag(st.(sb := ""));
        Ok(s.(status := ClosedTagD))
      else Ok(st)
    case ClosedTagD =>
      if IsWhitespace(c) then Ok(st)
      else if c == '}' then Ok(st.(status := InText))
      else Err(SmartScriptParserException(MSG_CLOSE))
    case EndTag =>
      Ok(st)
  }

  /** The variable, start, end and step of a for tag. */
  function StepFor(fp: FloatOps, st: PState, c: char): Result<PState>
    requires st.status in {ForNode, ForStart, ForEnd, ForStep}
  {
    match st.status
    case ForNode => Ok(ForPart(st, c, ForStart))
    case ForStart => Ok(ForPart(st, c, ForEnd))
    case ForEnd => Ok(ForPart(st, c, ForStep))
    case ForStep =>
      if IsWhitespace(c) then
        if WhitespaceOrEmptyBuilder(st.sb) then Ok(st) else AddForLoopNode(fp, st)
      else if c == '$' then
        if st.sb != [] then
          var s :- AddForLoopNode(fp, st);
          Ok(s.(status := ClosedTagD))
        else Ok(st.(status := ClosedTagD))
      else Ok(st.(sb := st.sb + [c]))
  }

  /** The lexemes of an echo tag. */
  function StepEcho(fp: FloatOps, st: PState, c: char): Result<PState>
    requires st.status in {InEcho, EchoFunction, EchoVariable, EchoOperNum, EchoString, EchoEscString}
  {
    match st.status
    case InEcho =>
      if IsWhitespace(c) then Ok(st)
      else if c == '$' then
        var s :- AddEchoNode(st);
        Ok(s.(status := ClosedTagD))
      else Ok(st.(sb := st.sb + [c], status := EchoStart(c)))
    case EchoFunction | EchoVariable | EchoOperNum =>
      if IsWhitespace(c) then
        var s :- AddEchoToken(fp, st);
        Ok(s.(status := InEcho))
      else if c == '$' then CloseEcho(fp, st)
      else Ok(st.(sb := st.sb + [c]))
    case EchoString =>
      if c == '"' then
        var s :- AddEchoToken(fp, st.(sb := st.sb + [c]));
        Ok(s.(status := InEcho))
      else if c == '$' then CloseEcho(fp, st)
      else if c == '\\' then Ok(st.(status := EchoEscString))
      else Ok(st.(sb := st.sb + [c]))
    case EchoEscString =>
      Ok(st.(sb := st.sb + Escaped(c), status := EchoString))
  }

  /** The loop of parse over the remaining characters; the first exception ends it. */
  function Run(fp: FloatOps, st: PState, input: string): Result<PState>
    decreases |input|
  {
    if input == [] then Ok(st)
    else
      var s :- Step(fp, st, input[0]);
      Run(fp, s, input[1..])
  }

  /** At the end of the input, pending text becomes a node only from the text state. */
  function Flush(st: PState): Result<PState> {
    if st.status == InText then AddTextNode(st) else Ok(st)
  }

  /** After the loop: pending text is flushed, then the document must be alone on the stack. */
  function Finish(st: PState): Result<Node> {
    var s :- Flush(st);
    if |s.stack| != 1 then Err(SmartScriptParserException(MSG_MISSING_ENDS))
    else Ok(s.stack[0])
  }

  /**
   * parse rethrows whatever it catches as a SmartScriptParserException carrying the caught
   * exception's message; rethrowing a SmartScriptParserException keeps its message.
   */
  function Rethrown(e: Exception): (r: Exception)
    ensures r.SmartScriptParserException? || r.ParserExceptionFrom?
    ensures e.SmartScriptParserException? ==> r == e
  {
    if e.SmartScriptParserException? || e.ParserExceptionFrom? then e else ParserExceptionFrom(e)
  }

  /** The document tree of `body`, or the exception that parsing raises. */
  function Parse(fp: FloatOps, body: string): Result<Node> {
    var st :- Run(fp, INITIAL, body);
    Finish(st)
  }
}
