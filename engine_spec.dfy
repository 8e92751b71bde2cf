/**
 * What the script interpreter does (src/hr/fer/zemris/custom/scripting/exec/SmartScriptEngine.java),
 * as functions over the document tree: text is written, echo tags evaluate their tokens on a
 * stack of Java objects and write what is left, and for-loops bind their variable on the
 * named stacks of the multistack.
 *
 * A Java for-loop can run forever (a zero step, or an int that wraps around before it passes
 * the end), so each loop is given at most `fuel` iterations; a loop that needs more ends the
 * run with OutOfFuel.
 */
module EngineSpec {
  import opened Base
  import opened JavaText
  import opened Values
  import opened NumUtil
  import opened ValueWrappers
  import opened Multistacks
  import Tokens
  import opened Nodes
  import RC = RequestContexts

  /** The interpreter's state: the named stacks of loop variables and the request context. */
  datatype Env = Env(stacks: Named, rc: RC.Response)

  /** How a visit ended: normally, by an uncaught exception, or by running out of iterations. */
  datatype Status = Normal | Threw(error: Exception) | OutOfFuel

  datatype Exec = Exec(status: Status, env: Env)

  // ---------------------------------------------------------------- the echo stack

  /** java.util.Stack of Object, top last. */
  type EchoStack = seq<JObject>

  datatype Pop = Pop(top: JObject, rest: EchoStack)

  function PopTop(stack: EchoStack): (r: Result<Pop>)
    ensures r.Err? <==> stack == []
    ensures r.Err? ==> r.error == EmptyStackException
    ensures r.Ok? ==> r.value.rest + [r.value.top] == stack
  {
    if stack == [] then Err(EmptyStackException) else Ok(Pop(stack[|stack| - 1], stack[..|stack| - 1]))
  }

  /** Pops and converts with toString, as most functions do with their arguments. */
  datatype PopText = PopText(text: string, rest: EchoStack)

  function PopString(fp: FloatOps, stack: EchoStack): (r: Result<PopText>)
    ensures r.Ok? ==> |r.value.rest| == |stack| - 1
  {
    var p :- PopTop(stack);
    var text :- RefToStr(fp, p.top);
    Ok(PopText(text, p.rest))
  }

  /** What an echo tag has while it runs: its stack and the request context. */
  datatype Echo = Echo(stack: EchoStack, rc: RC.Response)

  /** The four operators; any other symbol leaves the left operand as it is. */
  function OperatorOf(symbol: string): Option<Operation> {
    if symbol == "+" then Some(INCREMENT)
    else if symbol == "-" then Some(DECREMENT)
    else if symbol == "*" then Some(MULTIPLY)
    else if symbol == "/" then Some(DIVIDE)
    else None
  }

  /**
   * An operator: the top is the right operand and the one below it the left; both must make
   * a ValueWrapper, and the result replaces them.
   */
  function ApplyOperator(fp: FloatOps, symbol: string, stack: EchoStack): (r: Result<EchoStack>)
    ensures stack == [] ==> r == Err(EmptyStackException)
    ensures r.Ok? ==> |stack| >= 2 && |r.value| == |stack| - 1 && r.value[..|stack| - 2] == stack[..|stack| - 2]
  {
    var right :- PopTop(stack);
    var v2 :- ValueWrappers.New(fp, right.top);
    var left :- PopTop(right.rest);
    var v1 :- ValueWrappers.New(fp, left.top);
    var result :- match OperatorOf(symbol)
      case Some(oper) => ValueWrappers.Apply(fp, v1, v2.value, oper)
      case None => Ok(v1);
    Ok(left.rest + [result.value])
  }

  /** The three parameter maps of the request context. */
  datatype Scope = Request | Persistent | Temporary

  function Lookup(rc: RC.Response, scope: Scope, name: string): Option<string> {
    match scope
    case Request => RC.GetParameter(rc, name)
    case Persistent => RC.GetPersistentParameter(rc, name)
    case Temporary => RC.GetTemporaryParameter(rc, name)
  }

  /** A `get` function: the default on top, the name below it; a missing name gives the default. */
  function ParamGet(fp: FloatOps, e: Echo, scope: Scope): (r: Result<Echo>)
    ensures r.Ok? ==> r.value.rc == e.rc
  {
    var d :- PopString(fp, e.stack);
    var name :- PopString(fp, d.rest);
    Ok(e.(stack := name.rest + [Some(JStr(Lookup(e.rc, scope, name.text).GetOr(d.text)))]))
  }

  /** A `set` function, on the persistent or the temporary map: the name on top, the value below it. */
  function ParamSet(fp: FloatOps, e: Echo, persistent: bool): Result<Echo> {
    var name :- PopString(fp, e.stack);
    var value :- PopString(fp, name.rest);
    var rc := if persistent then RC.SetPersistentParameter(e.rc, name.text, value.text)
              else RC.SetTemporaryParameter(e.rc, name.text, value.text);
    Ok(Echo(value.rest, rc))
  }

  function ParamDel(fp: FloatOps, e: Echo, persistent: bool): Result<Echo> {
    var name :- PopString(fp, e.stack);
    var rc := if persistent then RC.RemovePersistentParameter(e.rc, name.text)
              else RC.RemoveTemporaryParameter(e.rc, name.text);
    Ok(Echo(name.rest, rc))
  }

  function UnknownFunction(f: string): string {
    "unknown function name: " + f
  }

  /** sin: the argument must make a ValueWrapper, and is read as a double in degrees. */
  function ApplySin(fp: FloatOps, e: Echo): (r: Result<Echo>)
    ensures r.Ok? ==> r.value.rc == e.rc
  {
    var p :- PopTop(e.stack);
    var v :- ValueWrappers.New(fp, p.top);
    var text :- RefToStr(fp, v.value);
    if !IsDouble(text) then Err(NumberFormatException)
    else Ok(e.(stack := p.rest + [Some(JDouble(fp.sinDegrees(fp.parse(text))))]))
  }

  /** decfmt: the pattern on top, the number below it; only an Integer or a Double can be formatted. */
  function ApplyDecFmt(fp: FloatOps, e: Echo): (r: Result<Echo>)
    ensures r.Ok? ==> r.value.rc == e.rc
  {
    var pattern :- PopString(fp, e.stack);
    if !fp.validPattern(pattern.text) then Err(IllegalArgumentException)
    else
      var p :- PopTop(pattern.rest);
      var v :- ValueWrappers.New(fp, p.top);
      if v.value.None? || v.value.value.JStr? then Err(IllegalArgumentException)
      else Ok(e.(stack := p.rest + [Some(JStr(fp.decimalFormat(pattern.text, v.value.value)))]))
  }

  /** dup: peek at the top and push it again. */
  function ApplyDup(e: Echo): (r: Result<Echo>)
    ensures r.Err? <==> e.stack == []
    ensures r.Err? ==> r.error == EmptyStackException
    ensures r.Ok? ==> r.value.rc == e.rc && |r.value.stack| == |e.stack| + 1
    ensures r.Ok? ==> r.value.stack[..|e.stack|] == e.stack && r.value.stack[|e.stack|] == e.stack[|e.stack| - 1]
  {
    var p :- PopTop(e.stack);
    Ok(e.(stack := e.stack + [p.top]))
  }

  function ApplySwap(e: Echo): (r: Result<Echo>)
    ensures r.Ok? ==> r.value.rc == e.rc
  {
    var a :- PopTop(e.stack);
    var b :- PopTop(a.rest);
    Ok(e.(stack := b.rest + [a.top, b.top]))
  }

  function ApplySetMimeType(fp: FloatOps, e: Echo): Result<Echo> {
    var mime :- PopString(fp, e.stack);
    var rc :- RC.SetMimeType(e.rc, mime.text);
    Ok(Echo(mime.rest, rc))
  }

  /** The built-in functions. */
  datatype Builtin = Sin | DecFmt | Dup | Swap | SetMime | Get(scope: Scope) | Set(persistent: bool)
                   | Del(persistent: bool) | Unknown

  /**
   * Which built-in a function name calls. The name is compared ignoring case, which is
   * comparing its lower-case form with the lower-case names.
   */
  function Classify(f: string): Builtin {
    var name := ToLower(f);
    if name == "sin" then Sin
    else if name == "decfmt" then DecFmt
    else if name == "dup" then Dup
    else if name == "swap" then Swap
    else if name == "setmimetype" then SetMime
    else if name == "paramget" then Get(Request)
    else if name == "pparamget" then Get(Persistent)
    else if name == "pparamset" then Set(true)
    else if name == "pparamdel" then Del(true)
    else if name == "tparamget" then Get(Temporary)
    else if name == "tparamset" then Set(false)
    else if name == "tparamdel" then Del(false)
    else Unknown
  }

  /** A function token; an unknown name pushes a message naming it. */
  function ApplyFunction(fp: FloatOps, f: string, e: Echo): Result<Echo> {
    ApplyBuiltin(fp, Classify(f), f, e)
  }

  /** The built-in `b`, called under the name `f`. */
  function ApplyBuiltin(fp: FloatOps, b: Builtin, f: string, e: Echo): Result<Echo> {
    match b
    case Sin => ApplySin(fp, e)
    case DecFmt => ApplyDecFmt(fp, e)
    case Dup => ApplyDup(e)
    case Swap => ApplySwap(e)
    case SetMime => ApplySetMimeType(fp, e)
    case Get(scope) => ParamGet(fp, e, scope)
    case Set(persistent) => ParamSet(fp, e, persistent)
    case Del(persistent) => ParamDel(fp, e, persistent)
    case Unknown => Ok(e.(stack := e.stack + [Some(JStr(UnknownFunction(f)))]))
  }

  /** One token of an echo tag; a variable reads the value on top of its named stack. */
  function EvalToken(fp: FloatOps, stacks: Named, e: Echo, t: Tokens.Token): Result<Echo> {
    match t
    case ConstantDouble(d) => Ok(e.(stack := e.stack + [Some(JDouble(d))]))
    case ConstantInteger(i) => Ok(e.(stack := e.stack + [Some(JInt(i))]))
    case ConstantString(s) => Ok(e.(stack := e.stack + [Some(JStr(s))]))
    case Variable(name) =>
      var w :- PeekAt(stacks, name);
      Ok(e.(stack := e.stack + [w.value]))
    case Operator(symbol) =>
      var stack :- ApplyOperator(fp, symbol, e.stack);
      Ok(e.(stack := stack))
    case Function(f) => ApplyFunction(fp, f, e)
  }

  /** The tokens in order; an exception stops the tag with the context as it was then. */
  datatype Evaluated = Evaluated(thrown: Option<Exception>, echo: Echo)

  function EvalTokens(fp: FloatOps, stacks: Named, e: Echo, tokens: seq<Tokens.Token>): (r: Evaluated)
    decreases |tokens|, 1
  {
    if tokens == [] then Evaluated(None, e) else EvalTokenThen(fp, stacks, e, tokens[0], tokens[1..])
  }

  /** The token `t`, then the tokens after it. */
  function EvalTokenThen(fp: FloatOps, stacks: Named, e: Echo, t: Tokens.Token, rest: seq<Tokens.Token>): (r: Evaluated)
    decreases |rest| + 1, 0
  {
    match EvalToken(fp, stacks, e, t)
    case Err(error) => Evaluated(Some(error), e)
    case Ok(e') => EvalTokens(fp, stacks, e', rest)
  }

  /** toString of every object left, bottom first; a null among them throws before anything is written. */
  function Texts(fp: FloatOps, stack: EchoStack): (r: Result<seq<string>>)
    ensures r.Ok? ==> |r.value| == |stack|
    ensures r.Ok? ==> forall i :: 0 <= i < |stack| ==> RefToStr(fp, stack[i]) == Ok(r.value[i])
    ensures r.Err? <==> exists i :: 0 <= i < |stack| && stack[i].None?
    ensures r.Err? ==> r.error == NullPointerException
  {
    if stack == [] then Ok([])
    else
      var init :- Texts(fp, stack[..|stack| - 1]);
      var last :- RefToStr(fp, stack[|stack| - 1]);
      Ok(init + [last])
  }

  /** One write per string, in order. */
  function WriteAll(rc: RC.Response, texts: seq<string>): RC.Response
    decreases |texts|
  {
    if texts == [] then rc else WriteAll(RC.WriteString(rc, texts[0]), texts[1..])
  }

  function EchoNode(fp: FloatOps, env: Env, tokens: seq<Tokens.Token>): Exec {
    var ev := EvalTokens(fp, env.stacks, Echo([], env.rc), tokens);
    if ev.thrown.Some? then Exec(Threw(ev.thrown.value), env.(rc := ev.echo.rc))
    else
      match Texts(fp, ev.echo.stack)
      case Err(error) => Exec(Threw(error), env.(rc := ev.echo.rc))
      case Ok(texts) => Exec(Normal, env.(rc := WriteAll(ev.echo.rc, texts)))
  }

  // ---------------------------------------------------------------- the visitor

  /** A loop's bounds are the tokens' texts: `new ValueWrapper(token.asText())`. */
  function TokenWrapper(fp: FloatOps, t: Option<Tokens.Token>): Result<ValueWrapper> {
    if t.None? then Err(NullPointerException)
    else ValueWrappers.New(fp, Some(JStr(Tokens.AsText(fp, t.value))))
  }

  function VisitNode(fp: FloatOps, fuel: nat, env: Env, n: Node): Exec
    decreases n, 4, 0
  {
    match n.kind
    case DocumentKind => VisitChildren(fp, fuel, env, n.children)
    case TextKind(text) => Exec(Normal, env.(rc := RC.WriteString(env.rc, text)))
    case EchoKind(tokens) => EchoNode(fp, env, tokens)
    case ForLoopKind(_, _, _, _) => ForLoop(fp, fuel, env, n)
  }

  /**
   * A for-loop: the bounds, the variable pushed with the start value, the loop, and at the
   * end the variable popped.
   */
  function ForLoop(fp: FloatOps, fuel: nat, env: Env, n: Node): Exec
    requires n.kind.ForLoopKind?
    decreases n, 3, 0
  {
    match ForLoopBounds(fp, n.kind)
    case Err(error) => Exec(Threw(error), env)
    case Ok(b) => LoopThenPop(fp, fuel, Env(PushOn(env.stacks, b.name, b.start), env.rc), n, b)
  }

  /** The loop from the start value on the stacks with the variable pushed, then the final pop. */
  function LoopThenPop(fp: FloatOps, fuel: nat, env: Env, n: Node, b: Bounds): Exec
    decreases n, 2, 0
  {
    var looped := Loop(fp, fuel, fuel, env, n, b, b.start);
    if !looped.status.Normal? then looped else PopVariable(looped.env, b.name)
  }

  /** The loop variable's last binding popped once the loop is over. */
  function PopVariable(env: Env, name: string): Exec {
    var popped := PopFrom(env.stacks, name);
    if popped.result.Err? then Exec(Threw(popped.result.error), env)
    else Exec(Normal, env.(stacks := popped.stacks))
  }

  /** The variable's name, its first value, and the end and step objects of a for-loop. */
  datatype Bounds = Bounds(name: string, start: ValueWrapper, end: JObject, step: JObject)

  /** Evaluated in the order of the Java code: start, end, step, then the variable's name. */
  function ForLoopBounds(fp: FloatOps, k: NodeKind): Result<Bounds>
    requires k.ForLoopKind?
  {
    var start :- TokenWrapper(fp, k.start);
    var end :- TokenWrapper(fp, k.end);
    var step :- TokenWrapper(fp, k.step);
    if k.variable.None? then Err(NullPointerException)
    else Ok(Bounds(k.variable.value, start, end.value, step.value))
  }

  function VisitChildren(fp: FloatOps, fuel: nat, env: Env, children: seq<Node>): Exec
    decreases children, 0, 0
  {
    if children == [] then Exec(Normal, env)
    else
      var first := VisitNode(fp, fuel, env, children[0]);
      if !first.status.Normal? then first else VisitChildren(fp, fuel, first.env, children[1..])
  }

  /**
   * The loop: while the current value compares at most equal to the end, visit the children,
   * then pop the variable, increment it by the step and push it again.
   */
  function Loop(fp: FloatOps, fuel: nat, left: nat, env: Env, n: Node, b: Bounds, current: ValueWrapper): Exec
    decreases n, 1, left
  {
    match Iteration(fp, fuel, left, env, n, b, current)
    case Stop(exec) => exec
    case Continue(env', next) => Loop(fp, fuel, left - 1, env', n, b, next)
  }

  /** Where one pass of a loop leaves it: stopped, or going on from `env` with the value `next`. */
  datatype Iterated = Stop(exec: Exec) | Continue(env: Env, next: ValueWrapper)

  /**
   * One pass: the test of the current value against the end (with no passes left the run is
   * cut off), then the rest of the pass.
   */
  function Iteration(fp: FloatOps, fuel: nat, left: nat, env: Env, n: Node, b: Bounds, current: ValueWrapper): (r: Iterated)
    ensures r.Continue? ==> left > 0
    decreases n, 0, 1
  {
    match NumCompare(fp, current, b.end)
    case Err(error) => Stop(Exec(Threw(error), env))
    case Ok(c) =>
      if c > 0 then Stop(Exec(Normal, env))
      else if left == 0 then Stop(Exec(OutOfFuel, env))
      else Advance(fp, fuel, env, n, b)
  }

  /** The children, then the variable popped, incremented by the step and pushed again. */
  function Advance(fp: FloatOps, fuel: nat, env: Env, n: Node, b: Bounds): Iterated
    decreases n, 0, 0
  {
    var body := VisitChildren(fp, fuel, env, n.children);
    if !body.status.Normal? then Stop(body) else BumpPass(fp, body.env, b)
  }

  /** The end of a pass: the loop goes on with the bumped value, or stops with its exception. */
  function BumpPass(fp: FloatOps, env: Env, b: Bounds): Iterated {
    var bumped := Bump(fp, env.stacks, b);
    var env' := env.(stacks := bumped.stacks);
    match bumped.next
    case Err(error) => Stop(Exec(Threw(error), env'))
    case Ok(next) => Continue(env', next)
  }

  /** The loop variable's next value (or the exception computing it) and the stacks it leaves. */
  datatype Bumped = Bumped(next: Result<ValueWrapper>, stacks: Named)

  /** The variable popped, incremented by the step and pushed again. */
  function Bump(fp: FloatOps, stacks: Named, b: Bounds): (r: Bumped)
    ensures r.next.Ok? ==> r.stacks == PushOn(PopFrom(stacks, b.name).stacks, b.name, r.next.value)
    ensures r.next.Err? ==> r.stacks == PopFrom(stacks, b.name).stacks
  {
    var popped := PopFrom(stacks, b.name);
    match popped.result
    case Err(error) => Bumped(Err(error), popped.stacks)
    case Ok(w) =>
      match ValueWrappers.Apply(fp, w, b.step, INCREMENT)
      case Err(error) => Bumped(Err(error), popped.stacks)
      case Ok(next) => Bumped(Ok(next), PushOn(popped.stacks, b.name, next))
  }

  /** execute: the document visited with no loop variable bound. */
  function Execute(fp: FloatOps, fuel: nat, document: Node, rc: RC.Response): Exec {
    VisitNode(fp, fuel, Env(map[], rc), document)
  }
}
