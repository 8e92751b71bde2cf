/**
 * What the interpreter promises, proved about the functions of engine_spec.dfy: a for-loop's
 * variable is scoped to the loop, the request context is only ever changed through its public
 * operations, and the echo stack computes as a postfix calculator whose result is written
 * bottom first.
 */
module EngineProps {
  import opened Base
  import opened JavaText
  import opened JavaNumbers
  import opened Values
  import opened ValueWrappers
  import opened Multistacks
  import Tokens
  import opened Nodes
  import RC = RequestContexts
  import RP = ResponseProps
  import VP = ValueWrapperProps
  import opened EngineSpec

  // ---------------------------------------------------------------- the named stacks

  /** The stack of a name; a name never pushed to has an empty one. */
  function Content(stacks: Named, name: string): seq<ValueWrapper> {
    if name in stacks then stacks[name] else []
  }

  /** Every name has the same stack in both. */
  ghost predicate SameStacks(a: Named, b: Named) {
    forall x :: Content(a, x) == Content(b, x)
  }

  /** Only the top of `name`'s stack, which is there in both, may differ. */
  ghost predicate TopChanged(a: Named, b: Named, name: string) {
    && |Content(a, name)| >= 1
    && |Content(b, name)| == |Content(a, name)|
    && Content(b, name)[..|Content(b, name)| - 1] == Content(a, name)[..|Content(a, name)| - 1]
    && forall x :: x != name ==> Content(a, x) == Content(b, x)
  }

  lemma ContentPush(stacks: Named, name: string, w: ValueWrapper)
    ensures Content(PushOn(stacks, name, w), name) == Content(stacks, name) + [w]
    ensures forall x :: x != name ==> Content(PushOn(stacks, name, w), x) == Content(stacks, x)
  {
  }

  lemma ContentPop(stacks: Named, name: string)
    requires |Content(stacks, name)| >= 1
    ensures PopFrom(stacks, name).result == Ok(Content(stacks, name)[|Content(stacks, name)| - 1])
    ensures Content(PopFrom(stacks, name).stacks, name) == Content(stacks, name)[..|Content(stacks, name)| - 1]
    ensures forall x :: x != name ==> Content(PopFrom(stacks, name).stacks, x) == Content(stacks, x)
  {
  }

  lemma TopChangedTrans(a: Named, b: Named, c: Named, name: string)
    requires TopChanged(a, b, name) && TopChanged(b, c, name)
    ensures TopChanged(a, c, name)
  {
  }

  // ---------------------------------------------------------------- the request context

  /** Every write is a public write on the context. */
  lemma {:induction false} WriteAllReaches(rc: RC.Response, texts: seq<string>)
    ensures RP.Reaches(rc, WriteAll(rc, texts))
    decreases |texts|
  {
    if texts == [] {
      RP.ReachesRefl(rc);
    } else {
      RP.ReachesRefl(rc);
      RP.ReachesStep(rc, rc, RC.WriteStr(texts[0]));
      WriteAllReaches(RC.WriteString(rc, texts[0]), texts[1..]);
      RP.ReachesTrans(rc, RC.WriteString(rc, texts[0]), WriteAll(rc, texts));
    }
  }

  lemma ParamSetReaches(fp: FloatOps, e: Echo, persistent: bool)
    requires ParamSet(fp, e, persistent).Ok?
    ensures RP.Reaches(e.rc, ParamSet(fp, e, persistent).value.rc)
  {
    var name := PopString(fp, e.stack).value;
    var value := PopString(fp, name.rest).value;
    RP.ReachesRefl(e.rc);
    if persistent {
      RP.ReachesStep(e.rc, e.rc, RC.PutPersistent(name.text, value.text));
    } else {
      RP.ReachesStep(e.rc, e.rc, RC.PutTemporary(name.text, value.text));
    }
  }

  lemma ParamDelReaches(fp: FloatOps, e: Echo, persistent: bool)
    requires ParamDel(fp, e, persistent).Ok?
    ensures RP.Reaches(e.rc, ParamDel(fp, e, persistent).value.rc)
  {
    var name := PopString(fp, e.stack).value;
    RP.ReachesRefl(e.rc);
    if persistent {
      RP.ReachesStep(e.rc, e.rc, RC.DelPersistent(name.text));
    } else {
      RP.ReachesStep(e.rc, e.rc, RC.DelTemporary(name.text));
    }
  }

  /** Function names are matched ignoring case. */
  lemma ClassifyIgnoresCase(f: string, g: string)
    requires EqualsIgnoreCase(f, g)
    ensures Classify(f) == Classify(g)
  {
  }

  /** The functions that change the context do it through its setters. */
  lemma ApplyFunctionReaches(fp: FloatOps, f: string, e: Echo)
    requires ApplyFunction(fp, f, e).Ok?
    ensures RP.Reaches(e.rc, ApplyFunction(fp, f, e).value.rc)
  {
    ApplyBuiltinReaches(fp, Classify(f), f, e);
  }

  lemma ApplyBuiltinReaches(fp: FloatOps, b: Builtin, f: string, e: Echo)
    requires ApplyBuiltin(fp, b, f, e).Ok?
    ensures RP.Reaches(e.rc, ApplyBuiltin(fp, b, f, e).value.rc)
  {
    RP.ReachesRefl(e.rc);
    var r := ApplyBuiltin(fp, b, f, e);
    match b
    case SetMime =>
      var mime := PopString(fp, e.stack).value;
      RP.ReachesStep(e.rc, e.rc, RC.SetMime(mime.text));
    case Set(persistent) => ParamSetReaches(fp, e, persistent);
    case Del(persistent) => ParamDelReaches(fp, e, persistent);
    case Sin => assert r == ApplySin(fp, e);
    case DecFmt => assert r == ApplyDecFmt(fp, e);
    case Dup => assert r == ApplyDup(e);
    case Swap => assert r == ApplySwap(e);
    case Get(scope) => assert r == ParamGet(fp, e, scope);
    case Unknown =>
  }

  lemma {:induction false} EvalTokensReaches(fp: FloatOps, stacks: Named, e: Echo, tokens: seq<Tokens.Token>)
    ensures RP.Reaches(e.rc, EvalTokens(fp, stacks, e, tokens).echo.rc)
    decreases |tokens|
  {
    if tokens == [] {
      RP.ReachesRefl(e.rc);
    } else {
      assert EvalTokens(fp, stacks, e, tokens) == EvalTokenThen(fp, stacks, e, tokens[0], tokens[1..]);
      match EvalToken(fp, stacks, e, tokens[0])
      case Err(_) => RP.ReachesRefl(e.rc);
      case Ok(e') =>
        if tokens[0].Function? {
          ApplyFunctionReaches(fp, tokens[0].name, e);
        } else {
          RP.ReachesRefl(e.rc);
        }
        EvalTokensReaches(fp, stacks, e', tokens[1..]);
        RP.ReachesTrans(e.rc, e'.rc, EvalTokens(fp, stacks, e, tokens).echo.rc);
    }
  }

  /** An echo tag leaves the named stacks alone and changes the context through its operations. */
  lemma EchoNodeProps(fp: FloatOps, env: Env, tokens: seq<Tokens.Token>)
    ensures EchoNode(fp, env, tokens).env.stacks == env.stacks
    ensures RP.Reaches(env.rc, EchoNode(fp, env, tokens).env.rc)
  {
    var ev := EvalTokens(fp, env.stacks, Echo([], env.rc), tokens);
    EvalTokensReaches(fp, env.stacks, Echo([], env.rc), tokens);
    if ev.thrown.None? {
      match Texts(fp, ev.echo.stack)
      case Err(_) =>
      case Ok(texts) =>
        WriteAllReaches(ev.echo.rc, texts);
        RP.ReachesTrans(env.rc, ev.echo.rc, WriteAll(ev.echo.rc, texts));
    }
  }

  // ---------------------------------------------------------------- the visitor

  /**
   * A node that completes normally leaves every name's stack as it found it, so a loop
   * variable is visible only inside its loop; and whatever happens, the request context is
   * changed only through its public operations.
   */
  lemma {:induction false} VisitNodeProps(fp: FloatOps, fuel: nat, env: Env, n: Node)
    ensures RP.Reaches(env.rc, VisitNode(fp, fuel, env, n).env.rc)
    ensures VisitNode(fp, fuel, env, n).status.Normal? ==> SameStacks(env.stacks, VisitNode(fp, fuel, env, n).env.stacks)
    decreases n, 4, 0
  {
    match n.kind
    case DocumentKind => VisitChildrenProps(fp, fuel, env, n.children);
    case TextKind(text) =>
      RP.ReachesRefl(env.rc);
      RP.ReachesStep(env.rc, env.rc, RC.WriteStr(text));
    case EchoKind(tokens) => EchoNodeProps(fp, env, tokens);
    case ForLoopKind(_, _, _, _) => ForLoopProps(fp, fuel, env, n);
  }

  lemma {:induction false} ForLoopProps(fp: FloatOps, fuel: nat, env: Env, n: Node)
    requires n.kind.ForLoopKind?
    ensures RP.Reaches(env.rc, ForLoop(fp, fuel, env, n).env.rc)
    ensures ForLoop(fp, fuel, env, n).status.Normal? ==> SameStacks(env.stacks, ForLoop(fp, fuel, env, n).env.stacks)
    decreases n, 3, 0
  {
    match ForLoopBounds(fp, n.kind)
    case Err(_) => RP.ReachesRefl(env.rc);
    case Ok(b) =>
      var pushed := Env(PushOn(env.stacks, b.name, b.start), env.rc);
      assert ForLoop(fp, fuel, env, n) == LoopThenPop(fp, fuel, pushed, n, b);
      ContentPush(env.stacks, b.name, b.start);
      LoopProps(fp, fuel, fuel, pushed, n, b, b.start);
      var looped := Loop(fp, fuel, fuel, pushed, n, b, b.start);
      if looped.status.Normal? {
        ContentPop(looped.env.stacks, b.name);
        var popped := PopFrom(looped.env.stacks, b.name);
        assert Content(popped.stacks, b.name) == Content(env.stacks, b.name);
      }
  }

  lemma {:induction false} VisitChildrenProps(fp: FloatOps, fuel: nat, env: Env, children: seq<Node>)
    ensures RP.Reaches(env.rc, VisitChildren(fp, fuel, env, children).env.rc)
    ensures VisitChildren(fp, fuel, env, children).status.Normal? ==>
      SameStacks(env.stacks, VisitChildren(fp, fuel, env, children).env.stacks)
    decreases children, 0, 0
  {
    if children == [] {
      RP.ReachesRefl(env.rc);
    } else {
      var first := VisitNode(fp, fuel, env, children[0]);
      VisitNodeProps(fp, fuel, env, children[0]);
      if first.status.Normal? {
        VisitChildrenProps(fp, fuel, first.env, children[1..]);
        RP.ReachesTrans(env.rc, first.env.rc, VisitChildren(fp, fuel, env, children).env.rc);
      }
    }
  }

  /** One iteration's pop and push, after a body that left the stacks as they were. */
  lemma IterationTopChanged(a: Named, body: Named, name: string, next: ValueWrapper)
    requires |Content(a, name)| >= 1 && SameStacks(a, body)
    ensures PopFrom(body, name).result.Ok?
    ensures TopChanged(a, PushOn(PopFrom(body, name).stacks, name, next), name)
  {
    assert Content(body, name) == Content(a, name);
    ContentPop(body, name);
    ContentPush(PopFrom(body, name).stacks, name, next);
  }

  /** Each iteration pops the loop's value and pushes its successor: only that top changes. */
  lemma {:induction false} LoopProps(fp: FloatOps, fuel: nat, left: nat, env: Env, n: Node, b: Bounds,
                                     current: ValueWrapper)
    ensures RP.Reaches(env.rc, Loop(fp, fuel, left, env, n, b, current).env.rc)
    ensures Loop(fp, fuel, left, env, n, b, current).status.Normal? && |Content(env.stacks, b.name)| >= 1 ==>
      TopChanged(env.stacks, Loop(fp, fuel, left, env, n, b, current).env.stacks, b.name)
    decreases n, 1, left
  {
    var it := Iteration(fp, fuel, left, env, n, b, current);
    IterationProps(fp, fuel, left, env, n, b, current);
    if it.Stop? {
      if it.exec.status.Normal? && |Content(env.stacks, b.name)| >= 1 {
        TopChangedRefl(env.stacks, b.name);
      }
    } else {
      var rest := Loop(fp, fuel, left - 1, it.env, n, b, it.next);
      LoopProps(fp, fuel, left - 1, it.env, n, b, it.next);
      RP.ReachesTrans(env.rc, it.env.rc, rest.env.rc);
      if rest.status.Normal? && |Content(env.stacks, b.name)| >= 1 {
        TopChangedTrans(env.stacks, it.env.stacks, rest.env.stacks, b.name);
      }
    }
  }

  lemma TopChangedRefl(a: Named, name: string)
    requires |Content(a, name)| >= 1
    ensures TopChanged(a, a, name)
  {
  }

  /**
   * A pass that goes on has changed only the loop variable's top; one that stops normally
   * (the test failed) has changed nothing.
   */
  lemma {:induction false} IterationProps(fp: FloatOps, fuel: nat, left: nat, env: Env, n: Node, b: Bounds,
                                          current: ValueWrapper)
    ensures var it := Iteration(fp, fuel, left, env, n, b, current);
      it.Stop? ==> RP.Reaches(env.rc, it.exec.env.rc) && (it.exec.status.Normal? ==> it.exec.env == env)
    ensures var it := Iteration(fp, fuel, left, env, n, b, current);
      it.Continue? ==>
        && RP.Reaches(env.rc, it.env.rc)
        && (|Content(env.stacks, b.name)| >= 1 ==> TopChanged(env.stacks, it.env.stacks, b.name))
    decreases n, 0, 1
  {
    RP.ReachesRefl(env.rc);
    var c := NumCompare(fp, current, b.end);
    if c.Ok? && c.value <= 0 && left > 0 {
      AdvanceProps(fp, fuel, env, n, b);
    }
  }

  lemma {:induction false} AdvanceProps(fp: FloatOps, fuel: nat, env: Env, n: Node, b: Bounds)
    ensures var it := Advance(fp, fuel, env, n, b);
      it.Stop? ==> RP.Reaches(env.rc, it.exec.env.rc) && (it.exec.status.Normal? ==> it.exec.env == env)
    ensures var it := Advance(fp, fuel, env, n, b);
      it.Continue? ==>
        && RP.Reaches(env.rc, it.env.rc)
        && (|Content(env.stacks, b.name)| >= 1 ==> TopChanged(env.stacks, it.env.stacks, b.name))
    decreases n, 0, 0
  {
    var body := VisitChildren(fp, fuel, env, n.children);
    VisitChildrenProps(fp, fuel, env, n.children);
    if body.status.Normal? {
      var popped := PopFrom(body.env.stacks, b.name);
      if popped.result.Ok? {
        var next := ValueWrappers.Apply(fp, popped.result.value, b.step, INCREMENT);
        if next.Ok? && |Content(env.stacks, b.name)| >= 1 {
          IterationTopChanged(env.stacks, body.env.stacks, b.name, next.value);
        }
      }
    }
  }

  /**
   * A whole run keeps the context sane, and once the header has been sent nothing the script
   * does changes it.
   */
  lemma ExecuteKeepsContext(fp: FloatOps, fuel: nat, document: Node, rc: RC.Response)
    requires RC.Sane(rc)
    ensures RC.Sane(Execute(fp, fuel, document, rc).env.rc)
    ensures var rc' := Execute(fp, fuel, document, rc).env.rc;
      rc.headerGenerated ==> |rc'.output| >= |rc.output| && rc'.output[..|rc.output|] == rc.output && rc'.statusCode == rc.statusCode
  {
    VisitNodeProps(fp, fuel, Env(map[], rc), document);
    RP.ReachesKeeps(rc, Execute(fp, fuel, document, rc).env.rc);
  }

  // ---------------------------------------------------------------- single steps

  /** `@swap` exchanges the two top objects, so swapping twice restores the stack. */
  lemma SwapTwice(e: Echo)
    requires ApplySwap(e).Ok?
    ensures |e.stack| >= 2
    ensures var s := ApplySwap(e).value.stack;
      s[..|s| - 2] == e.stack[..|e.stack| - 2] && s[|s| - 2] == e.stack[|e.stack| - 1] && s[|s| - 1] == e.stack[|e.stack| - 2]
    ensures ApplySwap(ApplySwap(e).value) == Ok(e)
  {
    var s := e.stack;
    var below := s[..|s| - 2];
    assert s == below + [s[|s| - 2], s[|s| - 1]];
    var once := below + [s[|s| - 1], s[|s| - 2]];
    assert ApplySwap(e).value.stack == once;
    assert once[..|once| - 1] == below + [s[|s| - 1]];
    assert once[..|once| - 1][..|once| - 2] == below;
  }

  /** An Integer on the echo stack makes an INTEGER wrapper holding that Integer. */
  lemma IntegerWraps(fp: FloatOps, n: int)
    requires IsInt32(n)
    ensures ValueWrappers.New(fp, Some(JInt(n))) == Ok(ValueWrapper(Some(JInt(n)), INTEGER))
  {
    ParseIntToString(n);
  }

  /**
   * An operator on two Integers: the top is the right operand and the one below it the left,
   * and both are replaced by `left op right` in Java int arithmetic; a symbol that is none of
   * the four leaves the left operand.
   */
  lemma IntegerOperator(fp: FloatOps, symbol: string, s: EchoStack, a: int, b: int)
    requires IsInt32(a) && IsInt32(b)
    ensures OperatorOf(symbol).Some? ==>
      ApplyOperator(fp, symbol, s + [Some(JInt(a)), Some(JInt(b))])
        == (var n :- PerformOperationInteger(a, b, OperatorOf(symbol).value); Ok(s + [Some(JInt(n))]))
    ensures OperatorOf(symbol).None? ==>
      ApplyOperator(fp, symbol, s + [Some(JInt(a)), Some(JInt(b))]) == Ok(s + [Some(JInt(a))])
  {
    var stack := s + [Some(JInt(a)), Some(JInt(b))];
    assert stack[..|stack| - 1] == s + [Some(JInt(a))];
    assert stack[..|stack| - 1][..|stack| - 2] == s;
    IntegerWraps(fp, a);
    IntegerWraps(fp, b);
    if OperatorOf(symbol).Some? {
      ParseIntToString(a);
      ParseIntToString(b);
      VP.IntegerArithmetic(fp, ValueWrapper(Some(JInt(a)), INTEGER), Some(JInt(b)), a, b, OperatorOf(symbol).value);
    }
  }

  /** The operand order shows in `-`: with a below b, the result is a - b. */
  lemma OperandOrder(fp: FloatOps, s: EchoStack, a: int, b: int)
    requires IsInt32(a) && IsInt32(b)
    ensures ApplyOperator(fp, "-", s + [Some(JInt(a)), Some(JInt(b))]) == Ok(s + [Some(JInt(Wrap32(a - b)))])
  {
    IntegerOperator(fp, "-", s, a, b);
  }

  /** An int division by zero ends the tag with ArithmeticException. */
  lemma DivisionByZeroThrows(fp: FloatOps, s: EchoStack, a: int)
    requires IsInt32(a)
    ensures ApplyOperator(fp, "/", s + [Some(JInt(a)), Some(JInt(0))]) == Err(ArithmeticException)
  {
    IntegerOperator(fp, "/", s, a, 0);
  }

  /** `@dup` pushes the top again. */
  lemma DupCopiesTop(s: EchoStack, x: JObject, rc: RC.Response)
    ensures ApplyDup(Echo(s + [x], rc)) == Ok(Echo(s + [x, x], rc))
  {
    assert (s + [x]) + [x] == s + [x, x];
  }

  /**
   * Popping an argument: EmptyStackException on an empty stack, NullPointerException for a
   * null on top, otherwise the toString of the top and the stack below it.
   */
  lemma PopStringResult(fp: FloatOps, stack: EchoStack)
    ensures stack == [] ==> PopString(fp, stack) == Err(EmptyStackException)
    ensures stack != [] && stack[|stack| - 1].None? ==> PopString(fp, stack) == Err(NullPointerException)
    ensures stack != [] && stack[|stack| - 1].Some? ==>
      PopString(fp, stack) == Ok(PopText(ToStr(fp, stack[|stack| - 1].value), stack[..|stack| - 1]))
  {
  }

  /** Both objects on top are present and not null, so both toString pops succeed. */
  predicate TwoArguments(stack: EchoStack) {
    |stack| >= 2 && stack[|stack| - 1].Some? && stack[|stack| - 2].Some?
  }

  /**
   * A `get` function pops the default, then the name, and pushes the stored value of the name,
   * or the default when it has none; the context is not changed. It fails exactly when one of
   * the two objects is missing or null.
   */
  lemma {:induction false} ParamGetResult(fp: FloatOps, e: Echo, scope: Scope)
    ensures ParamGet(fp, e, scope).Ok? <==> TwoArguments(e.stack)
    ensures TwoArguments(e.stack) ==>
      var d := ToStr(fp, e.stack[|e.stack| - 1].value);
      var name := ToStr(fp, e.stack[|e.stack| - 2].value);
      ParamGet(fp, e, scope) == Ok(Echo(e.stack[..|e.stack| - 2] + [Some(JStr(Lookup(e.rc, scope, name).GetOr(d)))], e.rc))
  {
    var st := e.stack;
    PopStringResult(fp, st);
    if st != [] {
      var rest := st[..|st| - 1];
      PopStringResult(fp, rest);
      if |st| >= 2 {
        assert rest[|rest| - 1] == st[|st| - 2];
        assert rest[..|rest| - 1] == st[..|st| - 2];
      }
    }
  }

  /** With two Strings on top: the default on top, the name below it. */
  lemma ParamGetPushes(fp: FloatOps, s: EchoStack, name: string, d: string, rc: RC.Response, scope: Scope)
    ensures ParamGet(fp, Echo(s + [Some(JStr(name)), Some(JStr(d))], rc), scope)
      == Ok(Echo(s + [Some(JStr(Lookup(rc, scope, name).GetOr(d)))], rc))
  {
    var st := s + [Some(JStr(name)), Some(JStr(d))];
    assert st[..|st| - 2] == s;
    ParamGetResult(fp, Echo(st, rc), scope);
  }

  /**
   * A `set` function pops the name, then the value, and stores the pair in the persistent or
   * the temporary map. It fails exactly when one of the two objects is missing or null.
   */
  lemma {:induction false} ParamSetResult(fp: FloatOps, e: Echo, persistent: bool)
    ensures ParamSet(fp, e, persistent).Ok? <==> TwoArguments(e.stack)
    ensures TwoArguments(e.stack) ==>
      var name := ToStr(fp, e.stack[|e.stack| - 1].value);
      var value := ToStr(fp, e.stack[|e.stack| - 2].value);
      ParamSet(fp, e, persistent) == Ok(Echo(e.stack[..|e.stack| - 2],
        if persistent then RC.SetPersistentParameter(e.rc, name, value) else RC.SetTemporaryParameter(e.rc, name, value)))
  {
    var st := e.stack;
    PopStringResult(fp, st);
    if st != [] {
      var rest := st[..|st| - 1];
      PopStringResult(fp, rest);
      if |st| >= 2 {
        assert rest[|rest| - 1] == st[|st| - 2];
        assert rest[..|rest| - 1] == st[..|st| - 2];
      }
    }
  }

  /** With two Strings on top: the name on top, the value below it. */
  lemma ParamSetStores(fp: FloatOps, s: EchoStack, name: string, value: string, rc: RC.Response)
    ensures ParamSet(fp, Echo(s + [Some(JStr(value)), Some(JStr(name))], rc), true)
      == Ok(Echo(s, RC.SetPersistentParameter(rc, name, value)))
    ensures ParamSet(fp, Echo(s + [Some(JStr(value)), Some(JStr(name))], rc), false)
      == Ok(Echo(s, RC.SetTemporaryParameter(rc, name, value)))
  {
    var st := s + [Some(JStr(value)), Some(JStr(name))];
    assert st[..|st| - 2] == s;
    ParamSetResult(fp, Echo(st, rc), true);
    ParamSetResult(fp, Echo(st, rc), false);
  }

  /** A `del` function pops the name and removes it from the persistent or the temporary map. */
  lemma ParamDelRemoves(fp: FloatOps, s: EchoStack, name: string, rc: RC.Response)
    ensures ParamDel(fp, Echo(s + [Some(JStr(name))], rc), true) == Ok(Echo(s, RC.RemovePersistentParameter(rc, name)))
    ensures ParamDel(fp, Echo(s + [Some(JStr(name))], rc), false) == Ok(Echo(s, RC.RemoveTemporaryParameter(rc, name)))
  {
    assert (s + [Some(JStr(name))])[..|s|] == s;
  }

  /**
   * Within one echo tag, a value stored with `pparamset` is what `pparamget` of the same name
   * then pushes; after `pparamdel` the default is pushed instead.
   */
  lemma PersistentSetThenGet(fp: FloatOps, s: EchoStack, name: string, value: string, d: string, rc: RC.Response)
    ensures var afterSet := ParamSet(fp, Echo(s + [Some(JStr(value)), Some(JStr(name))], rc), true).value;
      ParamGet(fp, Echo(afterSet.stack + [Some(JStr(name)), Some(JStr(d))], afterSet.rc), Persistent)
        == Ok(Echo(s + [Some(JStr(value))], afterSet.rc))
    ensures var afterDel := ParamDel(fp, Echo(s + [Some(JStr(name))], rc), true).value;
      ParamGet(fp, Echo(afterDel.stack + [Some(JStr(name)), Some(JStr(d))], afterDel.rc), Persistent)
        == Ok(Echo(s + [Some(JStr(d))], afterDel.rc))
  {
    ParamSetStores(fp, s, name, value, rc);
    ParamGetPushes(fp, s, name, d, RC.SetPersistentParameter(rc, name, value), Persistent);
    ParamDelRemoves(fp, s, name, rc);
    ParamGetPushes(fp, s, name, d, RC.RemovePersistentParameter(rc, name), Persistent);
  }

  /** A function name that is no built-in, whatever its case, pushes a message naming it and does not fail. */
  lemma UnknownFunctionPushesMessage(fp: FloatOps, f: string, e: Echo)
    requires Classify(f) == Unknown
    ensures ApplyFunction(fp, f, e) == Ok(e.(stack := e.stack + [Some(JStr("unknown function name: " + f))]))
  {
  }

  /** With a name bound by two nested loops, a variable token reads the inner binding. */
  lemma VariableReadsInnermost(fp: FloatOps, stacks: Named, e: Echo, name: string, outer: ValueWrapper, inner: ValueWrapper)
    ensures EvalToken(fp, PushOn(PushOn(stacks, name, outer), name, inner), e, Tokens.Variable(name)) ==
      Ok(e.(stack := e.stack + [inner.value]))
  {
    PopAfterPush(PushOn(stacks, name, outer), name, inner);
  }

  /**
   * A loop whose start compares above its end never runs its body: the context is untouched
   * and the variable's binding is gone again.
   */
  lemma ForLoopSkipsBody(fp: FloatOps, fuel: nat, env: Env, n: Node)
    requires n.kind.ForLoopKind? && ForLoopBounds(fp, n.kind).Ok?
    requires var b := ForLoopBounds(fp, n.kind).value; NumCompare(fp, b.start, b.end).Ok? && NumCompare(fp, b.start, b.end).value > 0
    ensures ForLoop(fp, fuel, env, n).status == Normal
    ensures ForLoop(fp, fuel, env, n).env.rc == env.rc
    ensures SameStacks(env.stacks, ForLoop(fp, fuel, env, n).env.stacks)
  {
    var b := ForLoopBounds(fp, n.kind).value;
    var pushed := Env(PushOn(env.stacks, b.name, b.start), env.rc);
    assert Iteration(fp, fuel, fuel, pushed, n, b, b.start) == Stop(Exec(Normal, pushed));
    assert Loop(fp, fuel, fuel, pushed, n, b, b.start) == Exec(Normal, pushed);
    assert ForLoop(fp, fuel, env, n) == LoopThenPop(fp, fuel, pushed, n, b);
    ContentPush(env.stacks, b.name, b.start);
    ContentPop(pushed.stacks, b.name);
  }
}
