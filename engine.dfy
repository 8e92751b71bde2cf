/**
 * The interpreter as an object (src/hr/fer/zemris/custom/scripting/exec/SmartScriptEngine.java):
 * the visitor's methods work in place on the engine's multistack and on the request context,
 * and each is proved to leave them as the matching function of EngineSpec says.
 */
module Engine {
  import opened Base
  import opened Values
  import opened ValueWrappers
  import opened Multistacks
  import Tokens
  import opened Nodes
  import opened RequestContextObjects
  import S = EngineSpec

  /** The sequence backwards: what popping a stack to its bottom pushes onto another. */
  function Reversed<T>(s: seq<T>): (r: seq<T>)
    ensures |r| == |s|
    ensures forall i :: 0 <= i < |s| ==> r[i] == s[|s| - 1 - i]
  {
    if s == [] then [] else [s[|s| - 1]] + Reversed(s[..|s| - 1])
  }

  /** The texts of a stack that still has `rest` on it, given the texts already popped. */
  function Glue(rest: Result<seq<string>>, popped: seq<string>): Result<seq<string>> {
    match rest
    case Err(e) => Err(e)
    case Ok(texts) => Ok(texts + popped)
  }

  lemma GlueNil(r: Result<seq<string>>)
    ensures Glue(r, []) == r
  {
    if r.Ok? {
      assert r.value + [] == r.value;
    }
  }

  /** Popping `text` off the stack moves it from the texts still to come to those popped. */
  lemma GlueSnoc(below: Result<seq<string>>, text: string, popped: seq<string>)
    ensures Glue(Glue(below, [text]), Reversed(popped)) == Glue(below, Reversed(popped + [text]))
  {
    assert (popped + [text])[..|popped|] == popped;
    assert Reversed(popped + [text]) == [text] + Reversed(popped);
    if below.Ok? {
      assert below.value + [text] + Reversed(popped) == below.value + ([text] + Reversed(popped));
    }
  }

  class SmartScriptEngine {
    const fp: FloatOps
    /** The most passes a for-loop may make before the run is cut off. */
    const fuel: nat
    const documentNode: Node
    const requestContext: RequestContext
    const multistack: ObjectMultistack

    ghost predicate Valid()
      reads this, requestContext, multistack, multistack.Owner.Keys
    {
      requestContext.Valid() && multistack.Valid() && requestContext !in multistack.Owner
    }

    /** The state the visitor works on: the named stacks and the context. */
    ghost function Env(): S.Env
      reads this, requestContext, multistack
    {
      S.Env(multistack.Stacks, requestContext.State())
    }

    /** A new engine has an empty multistack of its own. */
    constructor (fp: FloatOps, fuel: nat, documentNode: Node, requestContext: RequestContext)
      requires requestContext.Valid()
      ensures Valid()
      ensures this.fp == fp && this.fuel == fuel && this.documentNode == documentNode
      ensures this.requestContext == requestContext
      ensures Env() == S.Env(map[], requestContext.State())
    {
      this.fp := fp;
      this.fuel := fuel;
      this.documentNode := documentNode;
      this.requestContext := requestContext;
      multistack := new ObjectMultistack();
    }

    /** execute: the document node accepts the visitor. */
    method Execute() returns (status: S.Status)
      requires Valid()
      modifies requestContext, multistack, multistack.Owner.Keys
      ensures Valid()
      ensures S.Exec(status, Env()) == S.VisitNode(fp, fuel, old(Env()), documentNode)
      ensures old(multistack.Stacks) == map[] ==>
        S.Exec(status, Env()) == S.Execute(fp, fuel, documentNode, old(requestContext.State()))
    {
      status := VisitNode(documentNode);
    }

    /** accept: the visit the node's kind calls for. */
    method VisitNode(n: Node) returns (status: S.Status)
      requires Valid()
      modifies requestContext, multistack, multistack.Owner.Keys
      ensures Valid() && fresh(multistack.Owner.Keys - old(multistack.Owner.Keys))
      ensures S.Exec(status, Env()) == S.VisitNode(fp, fuel, old(Env()), n)
      decreases n, 3, 0
    {
      match n.kind
      case DocumentKind =>
        status := VisitChildren(n.children);
      case TextKind(text) =>
        requestContext.WriteString(text);
        status := S.Normal;
      case EchoKind(tokens) =>
        status := VisitEcho(tokens);
      case ForLoopKind(_, _, _, _) =>
        status := VisitForLoop(n);
    }

    /** The children in index order; an exception ends the visit. */
    method VisitChildren(children: seq<Node>) returns (status: S.Status)
      requires Valid()
      modifies requestContext, multistack, multistack.Owner.Keys
      ensures Valid() && fresh(multistack.Owner.Keys - old(multistack.Owner.Keys))
      ensures S.Exec(status, Env()) == S.VisitChildren(fp, fuel, old(Env()), children)
      decreases children, 1, 0
    {
      status := S.Normal;
      for i := 0 to |children|
        invariant Valid() && fresh(multistack.Owner.Keys - old(multistack.Owner.Keys))
        invariant status == S.Normal
        invariant S.VisitChildren(fp, fuel, old(Env()), children) == S.VisitChildren(fp, fuel, Env(), children[i..])
      {
        assert children[i..][0] == children[i] && children[i..][1..] == children[i + 1..];
        ghost var env := Env();
        status := VisitNode(children[i]);
        if !status.Normal? {
          assert S.VisitChildren(fp, fuel, env, children[i..]) == S.VisitNode(fp, fuel, env, children[i]);
          return;
        }
      }
      assert children[|children|..] == [];
    }

    /**
     * visitForLoopNode: the variable is pushed with the start value; while it compares at most
     * equal to the end the children run, then it is popped, incremented by the step and pushed
     * again; at the end it is popped.
     */
    method VisitForLoop(n: Node) returns (status: S.Status)
      requires Valid() && n.kind.ForLoopKind?
      modifies requestContext, multistack, multistack.Owner.Keys
      ensures Valid() && fresh(multistack.Owner.Keys - old(multistack.Owner.Keys))
      ensures S.Exec(status, Env()) == S.ForLoop(fp, fuel, old(Env()), n)
      decreases n, 2, 0
    {
      var bounds := S.ForLoopBounds(fp, n.kind);
      if bounds.Err? {
        return S.Threw(bounds.error);
      }
      var b := bounds.value;
      multistack.Push(b.name, b.start);
      status := LoopThenPop(n, b);
    }

    /** The while loop of visitForLoopNode, then the variable popped for the last time. */
    method LoopThenPop(n: Node, b: S.Bounds) returns (status: S.Status)
      requires Valid()
      modifies requestContext, multistack, multistack.Owner.Keys
      ensures Valid() && fresh(multistack.Owner.Keys - old(multistack.Owner.Keys))
      ensures S.Exec(status, Env()) == S.LoopThenPop(fp, fuel, old(Env()), n, b)
      decreases n, 1, 1
    {
      status := Loop(n, b);
      if !status.Normal? {
        return;
      }
      status := PopVariable(b.name);
    }

    /** `multistack.pop(variable)` after the while loop. */
    method PopVariable(name: string) returns (status: S.Status)
      requires Valid()
      modifies multistack, multistack.Owner.Keys
      ensures Valid() && fresh(multistack.Owner.Keys - old(multistack.Owner.Keys))
      ensures S.Exec(status, Env()) == S.PopVariable(old(Env()), name)
    {
      var popped := multistack.Pop(name);
      status := if popped.Err? then S.Threw(popped.error) else S.Normal;
    }

    /** The while loop of visitForLoopNode, from the start value, with at most `fuel` passes. */
    method Loop(n: Node, b: S.Bounds) returns (status: S.Status)
      requires Valid()
      modifies requestContext, multistack, multistack.Owner.Keys
      ensures Valid() && fresh(multistack.Owner.Keys - old(multistack.Owner.Keys))
      ensures S.Exec(status, Env()) == S.Loop(fp, fuel, fuel, old(Env()), n, b, b.start)
      decreases n, 1, 0
    {
      ghost var looped := S.Loop(fp, fuel, fuel, Env(), n, b, b.start);
      var current := b.start;
      var left := fuel;
      while true
        invariant Valid() && fresh(multistack.Owner.Keys - old(multistack.Owner.Keys))
        invariant looped == S.Loop(fp, fuel, left, Env(), n, b, current)
        decreases left
      {
        var going, next;
        status, going, next := Iterate(n, b, left, current);
        if !going {
          return;
        }
        current, left := next, left - 1;
      }
    }

    /**
     * One pass of the while loop of visitForLoopNode: the test, then the rest of the pass.
     * `going` tells whether the loop goes on with `next`.
     */
    method Iterate(n: Node, b: S.Bounds, left: nat, current: ValueWrapper)
      returns (status: S.Status, going: bool, next: ValueWrapper)
      requires Valid()
      modifies requestContext, multistack, multistack.Owner.Keys
      ensures Valid() && fresh(multistack.Owner.Keys - old(multistack.Owner.Keys))
      ensures var pass := S.Iteration(fp, fuel, left, old(Env()), n, b, current);
        && (going <==> pass.Continue?)
        && (going ==> status == S.Normal && pass.env == Env() && pass.next == next)
        && (!going ==> pass.exec == S.Exec(status, Env()))
      decreases n, 0, 1
    {
      next := current;
      var c := NumCompare(fp, current, b.end);
      if c.Err? {
        return S.Threw(c.error), false, next;
      }
      if c.value > 0 {
        return S.Normal, false, next;
      }
      if left == 0 {
        return S.OutOfFuel, false, next;
      }
      status, going, next := Advance(n, b);
    }

    /** The children, then the variable popped, incremented by the step and pushed again. */
    method Advance(n: Node, b: S.Bounds) returns (status: S.Status, going: bool, next: ValueWrapper)
      requires Valid()
      modifies requestContext, multistack, multistack.Owner.Keys
      ensures Valid() && fresh(multistack.Owner.Keys - old(multistack.Owner.Keys))
      ensures var pass := S.Advance(fp, fuel, old(Env()), n, b);
        && (going <==> pass.Continue?)
        && (going ==> status == S.Normal && pass.env == Env() && pass.next == next)
        && (!going ==> pass.exec == S.Exec(status, Env()))
      decreases n, 0, 0
    {
      next := b.start;
      going := false;
      status := VisitChildren(n.children);
      if !status.Normal? {
        return;
      }
      status, going, next := BumpPass(b);
    }

    /** The end of a pass: the variable bumped, and whether the loop goes on. */
    method BumpPass(b: S.Bounds) returns (status: S.Status, going: bool, next: ValueWrapper)
      requires Valid()
      modifies multistack, multistack.Owner.Keys
      ensures Valid() && fresh(multistack.Owner.Keys - old(multistack.Owner.Keys))
      ensures var pass := S.BumpPass(fp, old(Env()), b);
        && (going <==> pass.Continue?)
        && (going ==> status == S.Normal && pass.env == Env() && pass.next == next)
        && (!going ==> pass.exec == S.Exec(status, Env()))
    {
      next := b.start;
      var bumped := Bump(b);
      if bumped.Err? {
        return S.Threw(bumped.error), false, next;
      }
      status, going, next := S.Normal, true, bumped.value;
    }

    /** `currValue = multistack.pop(name); currValue.increment(stepValue); multistack.push(name, currValue)`. */
    method Bump(b: S.Bounds) returns (next: Result<ValueWrapper>)
      requires Valid()
      modifies multistack, multistack.Owner.Keys
      ensures Valid() && fresh(multistack.Owner.Keys - old(multistack.Owner.Keys))
      ensures S.Bumped(next, multistack.Stacks) == S.Bump(fp, old(multistack.Stacks), b)
    {
      var popped := multistack.Pop(b.name);
      if popped.Err? {
        return Err(popped.error);
      }
      next := ValueWrappers.Apply(fp, popped.value, b.step, INCREMENT);
      if next.Err? {
        return;
      }
      multistack.Push(b.name, next.value);
    }

    /**
     * visitEchoNode: the tokens run on a fresh stack; then every object left is popped and
     * converted with toString onto a second stack, which is popped and written, so the texts
     * go out bottom first.
     */
    method VisitEcho(tokens: seq<Tokens.Token>) returns (status: S.Status)
      requires Valid()
      modifies requestContext
      ensures Valid()
      ensures S.Exec(status, Env()) == S.EchoNode(fp, old(Env()), tokens)
    {
      ghost var env0 := Env();
      var stack: S.EchoStack := [];
      for i := 0 to |tokens|
        invariant Valid()
        invariant S.EvalTokens(fp, env0.stacks, S.Echo([], env0.rc), tokens)
          == S.EvalTokens(fp, env0.stacks, S.Echo(stack, requestContext.State()), tokens[i..])
      {
        assert tokens[i..][0] == tokens[i] && tokens[i..][1..] == tokens[i + 1..];
        var r := EvalToken(stack, tokens[i]);
        if r.Err? {
          return S.Threw(r.error);
        }
        stack := r.value;
      }
      assert tokens[|tokens|..] == [];
      var texts := PopTexts(stack);
      if texts.Err? {
        return S.Threw(texts.error);
      }
      WriteTexts(texts.value);
      return S.Normal;
    }

    /** The first loop after the tokens: each object popped is converted with toString and pushed. */
    method PopTexts(stack: S.EchoStack) returns (r: Result<seq<string>>)
      ensures r.Err? <==> S.Texts(fp, stack).Err?
      ensures r.Err? ==> r.error == NullPointerException
      ensures r.Ok? ==> Reversed(r.value) == S.Texts(fp, stack).value
    {
      var rest := stack;
      var newStack: seq<string> := [];
      GlueNil(S.Texts(fp, stack));
      while rest != []
        invariant S.Texts(fp, stack) == Glue(S.Texts(fp, rest), Reversed(newStack))
        decreases |rest|
      {
        var top := rest[|rest| - 1];
        var text := RefToStr(fp, top);
        if text.Err? {
          return Err(text.error);
        }
        var below := rest[..|rest| - 1];
        assert S.Texts(fp, rest) == Glue(S.Texts(fp, below), [text.value]);
        GlueSnoc(S.Texts(fp, below), text.value, newStack);
        rest := below;
        newStack := newStack + [text.value];
      }
      return Ok(newStack);
    }

    /** The second loop: the texts are popped and written, the last pushed first. */
    method WriteTexts(newStack: seq<string>)
      requires Valid()
      modifies requestContext
      ensures Valid()
      ensures requestContext.State() == S.WriteAll(old(requestContext.State()), Reversed(newStack))
    {
      ghost var rc0 := requestContext.State();
      var rest := newStack;
      while rest != []
        invariant Valid()
        invariant S.WriteAll(rc0, Reversed(newStack)) == S.WriteAll(requestContext.State(), Reversed(rest))
        decreases |rest|
      {
        var top := rest[|rest| - 1];
        assert Reversed(rest) == [top] + Reversed(rest[..|rest| - 1]);
        rest := rest[..|rest| - 1];
        requestContext.WriteString(top);
      }
    }

    /** One token on the echo stack; a failing token leaves the context as it was. */
    method EvalToken(stack: S.EchoStack, t: Tokens.Token) returns (r: Result<S.EchoStack>)
      requires Valid()
      modifies requestContext
      ensures Valid()
      ensures var spec := S.EvalToken(fp, multistack.Stacks, S.Echo(stack, old(requestContext.State())), t);
        && (r.Err? <==> spec.Err?)
        && (r.Err? ==> r.error == spec.error && requestContext.State() == old(requestContext.State()))
        && (r.Ok? ==> S.Echo(r.value, requestContext.State()) == spec.value)
    {
      match t
      case ConstantDouble(d) =>
        r := Ok(stack + [Some(JDouble(d))]);
      case ConstantInteger(i) =>
        r := Ok(stack + [Some(JInt(i))]);
      case ConstantString(text) =>
        r := Ok(stack + [Some(JStr(text))]);
      case Variable(name) =>
        var w := multistack.Peek(name);
        if w.Err? {
          return Err(w.error);
        }
        r := Ok(stack + [w.value.value]);
      case Operator(symbol) =>
        r := S.ApplyOperator(fp, symbol, stack);
      case Function(f) =>
        r := CallFunction(f, stack);
    }

    /** A function token: the built-in its name selects, ignoring case. */
    method CallFunction(f: string, stack: S.EchoStack) returns (r: Result<S.EchoStack>)
      requires Valid()
      modifies requestContext
      ensures Valid()
      ensures var spec := S.ApplyFunction(fp, f, S.Echo(stack, old(requestContext.State())));
        && (r.Err? <==> spec.Err?)
        && (r.Err? ==> r.error == spec.error && requestContext.State() == old(requestContext.State()))
        && (r.Ok? ==> S.Echo(r.value, requestContext.State()) == spec.value)
    {
      match S.Classify(f)
      case Sin =>
        var e :- S.ApplySin(fp, S.Echo(stack, requestContext.State()));
        r := Ok(e.stack);
      case DecFmt =>
        var e :- S.ApplyDecFmt(fp, S.Echo(stack, requestContext.State()));
        r := Ok(e.stack);
      case Dup =>
        var top :- S.PopTop(stack);
        r := Ok(stack + [top.top]);
      case Swap =>
        var a :- S.PopTop(stack);
        var b :- S.PopTop(a.rest);
        r := Ok(b.rest + [a.top, b.top]);
      case SetMime =>
        var mime :- S.PopString(fp, stack);
        var o := requestContext.SetMimeType(mime.text);
        if o.Fail? {
          return Err(o.error);
        }
        r := Ok(mime.rest);
      case Get(scope) =>
        var d :- S.PopString(fp, stack);
        var name :- S.PopString(fp, d.rest);
        var value: Option<string>;
        match scope {
          case Request => value := requestContext.GetParameter(name.text);
          case Persistent => value := requestContext.GetPersistentParameter(name.text);
          case Temporary => value := requestContext.GetTemporaryParameter(name.text);
        }
        r := Ok(name.rest + [Some(JStr(if value.None? then d.text else value.value))]);
      case Set(persistent) =>
        var name :- S.PopString(fp, stack);
        var value :- S.PopString(fp, name.rest);
        if persistent {
          requestContext.SetPersistentParameter(name.text, value.text);
        } else {
          requestContext.SetTemporaryParameter(name.text, value.text);
        }
        r := Ok(value.rest);
      case Del(persistent) =>
        var name :- S.PopString(fp, stack);
        if persistent {
          requestContext.RemovePersistentParameter(name.text);
        } else {
          requestContext.RemoveTemporaryParameter(name.text);
        }
        r := Ok(name.rest);
      case Unknown =>
        r := Ok(stack + [Some(JStr(S.UnknownFunction(f)))]);
    }
  }
}
