/**
 * The parser object (src/hr/fer/zemris/custom/scripting/parser/SmartScriptParser.java): the
 * builder, the node stack and the echo-token collection are fields that the character loop
 * and the add/resolve helpers change in place. Every method is proved to do to the fields
 * what the matching function of ParserSpec does to the abstract state.
 */
module Parser {
  import opened Base
  import opened JavaText
  import opened Values
  import opened Tokens
  import opened Nodes
  import opened Collections
  import ParserSpec
  import opened ParserShape

  class SmartScriptParser {
    const fp: FloatOps
    const documentBody: string
    /** The parsed tree; None (null) until parse has finished. */
    var documentNode: Option<Node>
    var sb: string
    const stack: ObjectStack<Node>
    var echoTokens: ArrayBackedIndexedCollection?<Token>
    ghost var Repr: set<object>

    ghost predicate Valid()
      reads this, Repr
    {
      && this in Repr && stack in Repr && stack.Repr <= Repr && this !in stack.Repr
      && stack.Valid()
      && (echoTokens != null ==>
            && echoTokens in Repr && echoTokens.Repr <= Repr && this !in echoTokens.Repr
            && echoTokens.Repr !! stack.Repr && echoTokens.Valid())
    }

    /** The fields, read as the state of the machine in ParserSpec. */
    ghost function Abs(status: ParserSpec.Status): ParserSpec.PState
      requires Valid()
      reads this, Repr
    {
      ParserSpec.PState(status, sb, stack.Contents,
        if echoTokens == null then None else Some(echoTokens.Contents))
    }

    /** A method's outcome and new fields are those the machine's function gives. */
    ghost predicate Agrees(o: Outcome, status: ParserSpec.Status, spec: Result<ParserSpec.PState>)
      requires Valid()
      reads this, Repr
    {
      && (o.Fail? <==> spec.Err?)
      && (o.Fail? ==> o.error == spec.error)
      && (o.Pass? ==> Abs(status) == spec.value)
    }

    /** The fields the constructor sets before it parses. */
    constructor (fp: FloatOps, documentBody: string)
      ensures Valid() && fresh(Repr)
      ensures this.fp == fp && this.documentBody == documentBody
      ensures documentNode == None && sb == "" && stack.Contents == [] && echoTokens == null
    {
      this.fp := fp;
      this.documentBody := documentBody;
      documentNode := None;
      sb := "";
      stack := new ObjectStack();
      echoTokens := null;
      new;
      Repr := {this} + stack.Repr;
    }

    /**
     * The constructor as the source has it: it parses `documentBody`, and the exception
     * parsing raises is the constructor's.
     */
    static method Create(fp: FloatOps, documentBody: string) returns (r: Result<SmartScriptParser>)
      ensures r.Err? <==> ParserSpec.Parse(fp, documentBody).Err?
      ensures r.Err? ==> r.error == ParserSpec.Rethrown(ParserSpec.Parse(fp, documentBody).error)
      ensures r.Ok? ==> r.value.documentNode == Some(ParserSpec.Parse(fp, documentBody).value)
      ensures r.Ok? ==> r.value.documentNode.value.kind == DocumentKind
      ensures r.Ok? ==> AllContent(r.value.documentNode.value.children)
    {
      var p := new SmartScriptParser(fp, documentBody);
      var o := p.Parse();
      if o.Fail? {
        return Err(o.error);
      }
      ParseShape(fp, documentBody);
      return Ok(p);
    }

    /**
     * The document node is pushed, the characters are read, then the end of input is checked;
     * any exception on the way is rethrown as a SmartScriptParserException.
     */
    method Parse() returns (o: Outcome)
      requires Valid() && sb == "" && stack.Contents == [] && echoTokens == null
      modifies Repr
      ensures Valid() && fresh(Repr - old(Repr))
      ensures o.Fail? <==> ParserSpec.Parse(fp, documentBody).Err?
      ensures o.Fail? ==> o.error == ParserSpec.Rethrown(ParserSpec.Parse(fp, documentBody).error)
      ensures o.Pass? ==> documentNode == Some(ParserSpec.Parse(fp, documentBody).value)
    {
      var doc := Node(DocumentKind, []);
      documentNode := Some(doc);
      o := stack.Push(Some(doc));
      Repr := Repr + stack.Repr;
      assert Abs(ParserSpec.Starting) == ParserSpec.INITIAL;
      var status;
      o, status := ReadAll();
      if o.Pass? {
        o := EndOfInput(status);
      }
      if o.Fail? {
        o := Fail(ParserSpec.Rethrown(o.error));
      }
    }

    /** The loop over the characters of the document; the first exception ends it. */
    method ReadAll() returns (o: Outcome, status: ParserSpec.Status)
      requires Valid()
      modifies Repr
      ensures Valid() && fresh(Repr - old(Repr))
      ensures Agrees(o, status, ParserSpec.Run(fp, old(Abs(ParserSpec.Starting)), documentBody))
    {
      status := ParserSpec.Starting;
      o := Pass;
      var i := 0;
      while i < |documentBody|
        invariant Valid() && fresh(Repr - old(Repr)) && o.Pass?
        invariant 0 <= i <= |documentBody|
        invariant ParserSpec.Run(fp, old(Abs(ParserSpec.Starting)), documentBody)
          == ParserSpec.Run(fp, Abs(status), documentBody[i..])
      {
        var c := documentBody[i];
        assert documentBody[i..][0] == c && documentBody[i..][1..] == documentBody[i + 1..];
        var next;
        o, next := Step(status, c);
        if o.Fail? {
          return;
        }
        status := next;
        i := i + 1;
      }
      assert documentBody[i..] == [];
    }

    /** After the loop: pending text is flushed, and the document must be alone on the stack. */
    method EndOfInput(status: ParserSpec.Status) returns (o: Outcome)
      requires Valid()
      modifies Repr
      ensures Valid() && fresh(Repr - old(Repr))
      ensures var spec := ParserSpec.Finish(old(Abs(status)));
        && (o.Fail? <==> spec.Err?)
        && (o.Fail? ==> o.error == spec.error)
        && (o.Pass? ==> documentNode == Some(spec.value))
    {
      o := FlushText(status);
      if o.Pass? {
        o := CloseDocument();
      }
    }

    /** Pending text is added as a text node when the input ended in the text state. */
    method FlushText(status: ParserSpec.Status) returns (o: Outcome)
      requires Valid()
      modifies Repr
      ensures Valid() && fresh(Repr - old(Repr))
      ensures Agrees(o, status, ParserSpec.Flush(old(Abs(status))))
    {
      o := Pass;
      if status == ParserSpec.InText {
        o := AddTextNode(status);
      }
    }

    /** The document must be alone on the stack; it is popped and becomes the result. */
    method CloseDocument() returns (o: Outcome)
      requires Valid()
      modifies Repr
      ensures Valid() && fresh(Repr - old(Repr))
      ensures o.Fail? <==> |old(stack.Contents)| != 1
      ensures o.Fail? ==> o.error == SmartScriptParserException(ParserSpec.MSG_MISSING_ENDS)
      ensures o.Pass? ==> documentNode == Some(old(stack.Contents)[0])
    {
      var n := stack.Size();
      if n != 1 {
        return Fail(SmartScriptParserException(ParserSpec.MSG_MISSING_ENDS));
      }
      var top := stack.Pop();
      documentNode := Some(top.value);
      return Pass;
    }

    /** One pass of the switch in the loop, for the character `c`. */
    method Step(status: ParserSpec.Status, c: char) returns (o: Outcome, next: ParserSpec.Status)
      requires Valid()
      modifies Repr
      ensures Valid() && fresh(Repr - old(Repr))
      ensures Agrees(o, next, ParserSpec.Step(fp, old(Abs(status)), c))
    {
      match status
      case Starting | InText | Escaping =>
        o, next := StepText(status, c);
      case OpenTagD | OpenTag | NameOfNode | ClosedTagD | EndTag =>
        o, next := StepTag(status, c);
      case ForNode | ForStart | ForEnd | ForStep =>
        o, next := StepFor(status, c);
      case InEcho | EchoFunction | EchoVariable | EchoOperNum | EchoString | EchoEscString =>
        o, next := StepEcho(status, c);
    }

    method StepText(status: ParserSpec.Status, c: char) returns (o: Outcome, next: ParserSpec.Status)
      requires Valid() && status in {ParserSpec.Starting, ParserSpec.InText, ParserSpec.Escaping}
      modifies Repr
      ensures Valid() && fresh(Repr - old(Repr))
      ensures Agrees(o, next, ParserSpec.StepText(old(Abs(status)), c))
    {
      o, next := Pass, status;
      if status == ParserSpec.Starting {
        if c == '{' {
          next := ParserSpec.OpenTagD;
        } else if c == '\\' {
          sb := sb + [c];
          next := ParserSpec.Escaping;
        } else {
          next := ParserSpec.InText;
          sb := sb + [c];
        }
      } else if status == ParserSpec.InText {
        if c == '{' {
          o := AddTextNode(status);
          next := ParserSpec.OpenTagD;
        } else if c == '\\' {
          next := ParserSpec.Escaping;
        } else {
          sb := sb + [c];
        }
      } else {
        if c == 'r' {
          sb := sb + ['\r'];
        } else if c == 'n' {
          sb := sb + ['\n'];
        } else if c == 't' {
          sb := sb + ['\t'];
        } else {
          assert sb + ParserSpec.Escaped(c) == sb;
        }
        next := ParserSpec.InText;
      }
    }

    method StepTag(status: ParserSpec.Status, c: char) returns (o: Outcome, next: ParserSpec.Status)
      requires Valid()
      requires status in {ParserSpec.OpenTagD, ParserSpec.OpenTag, ParserSpec.NameOfNode,
                          ParserSpec.ClosedTagD, ParserSpec.EndTag}
      modifies Repr
      ensures Valid() && fresh(Repr - old(Repr))
      ensures Agrees(o, next, ParserSpec.StepTag(old(Abs(status)), c))
    {
      o, next := Pass, status;
      if status == ParserSpec.OpenTagD {
        if c == '$' {
          next := ParserSpec.OpenTag;
        } else if !IsWhitespace(c) {
          o := Fail(SmartScriptParserException(ParserSpec.MSG_OPEN));
        }
      } else if status == ParserSpec.OpenTag {
        if IsWhitespace(c) {
        } else if c == '=' {
          next := ParserSpec.InEcho;
        } else if IsLetter(c) {
          sb := sb + [c];
          next := ParserSpec.NameOfNode;
        } else {
          o := Fail(SmartScriptParserException(ParserSpec.MSG_TAG_NAME));
        }
      } else if status == ParserSpec.NameOfNode {
        if IsLetter(c) {
          sb := sb + [c];
        } else if c == ' ' {
          var str := ToLower(sb);
          sb := "";
          if str == "for" {
            next := ParserSpec.ForNode;
          } else if str == "end" {
            o := ResolveEndTag(status);
            next := ParserSpec.EndTag;
          } else {
            o := Fail(SmartScriptParserException(ParserSpec.MSG_UNKNOWN_COMMAND));
          }
        } else if c == '$' {
          if ToLower(sb) == "end" {
            sb := "";
            o := ResolveEndTag(status);
            next := ParserSpec.ClosedTagD;
          }
        }
      } else if status == ParserSpec.ClosedTagD {
        if IsWhitespace(c) {
        } else if c == '}' {
          next := ParserSpec.InText;
        } else {
          o := Fail(SmartScriptParserException(ParserSpec.MSG_CLOSE));
        }
      }
    }

    method StepFor(status: ParserSpec.Status, c: char) returns (o: Outcome, next: ParserSpec.Status)
      requires Valid()
      requires status in {ParserSpec.ForNode, ParserSpec.ForStart, ParserSpec.ForEnd, ParserSpec.ForStep}
      modifies Repr
      ensures Valid() && fresh(Repr - old(Repr))
      ensures Agrees(o, next, ParserSpec.StepFor(fp, old(Abs(status)), c))
    {
      o, next := Pass, status;
      if status == ParserSpec.ForStep {
        if IsWhitespace(c) {
          if !ParserSpec.WhitespaceOrEmptyBuilder(sb) {
            o := AddForLoopNode(status);
          }
        } else if c == '$' {
          if |sb| != 0 {
            o := AddForLoopNode(status);
          }
          next := ParserSpec.ClosedTagD;
        } else {
          sb := sb + [c];
        }
      } else {
        var after := if status == ParserSpec.ForNode then ParserSpec.ForStart
          else if status == ParserSpec.ForStart then ParserSpec.ForEnd
          else ParserSpec.ForStep;
        if IsWhitespace(c) {
          if !ParserSpec.WhitespaceOrEmptyBuilder(sb) {
            sb := sb + [c];
            next := after;
          }
        } else {
          sb := sb + [c];
        }
      }
    }

    method StepEcho(status: ParserSpec.Status, c: char) returns (o: Outcome, next: ParserSpec.Status)
      requires Valid()
      requires status in {ParserSpec.InEcho, ParserSpec.EchoFunction, ParserSpec.EchoVariable,
                          ParserSpec.EchoOperNum, ParserSpec.EchoString, ParserSpec.EchoEscString}
      modifies Repr
      ensures Valid() && fresh(Repr - old(Repr))
      ensures Agrees(o, next, ParserSpec.StepEcho(fp, old(Abs(status)), c))
    {
      o, next := Pass, status;
      if status == ParserSpec.InEcho {
        if IsWhitespace(c) {
        } else if c == '$' {
          o := AddEchoNode(status);
          next := ParserSpec.ClosedTagD;
        } else {
          sb := sb + [c];
          if c == '@' {
            next := ParserSpec.EchoFunction;
          } else if IsLetter(c) {
            next := ParserSpec.EchoVariable;
          } else if c == '+' || c == '-' || c == '*' || c == '/' || IsDigit(c) {
            next := ParserSpec.EchoOperNum;
          } else if c == '"' {
            next := ParserSpec.EchoString;
          }
        }
      } else if status == ParserSpec.EchoEscString {
        if c == 'r' {
          sb := sb + ['\r'];
        } else if c == 'n' {
          sb := sb + ['\n'];
        } else if c == 't' {
          sb := sb + ['\t'];
        } else {
          assert sb + ParserSpec.Escaped(c) == sb;
        }
        next := ParserSpec.EchoString;
      } else if status == ParserSpec.EchoString {
        if c == '"' {
          sb := sb + [c];
          o := AddEchoToken(status);
          next := ParserSpec.InEcho;
        } else if c == '$' {
          o, next := CloseEcho(status);
        } else if c == '\\' {
          next := ParserSpec.EchoEscString;
        } else {
          sb := sb + [c];
        }
      } else {
        if IsWhitespace(c) {
          o := AddEchoToken(status);
          next := ParserSpec.InEcho;
        } else if c == '$' {
          o, next := CloseEcho(status);
        } else {
          sb := sb + [c];
        }
      }
    }

    /** A '$' ends the lexeme and the echo tag: the token is added, then the node. */
    method CloseEcho(status: ParserSpec.Status) returns (o: Outcome, next: ParserSpec.Status)
      requires Valid()
      modifies Repr
      ensures Valid() && fresh(Repr - old(Repr))
      ensures Agrees(o, next, ParserSpec.CloseEcho(fp, old(Abs(status))))
    {
      next := ParserSpec.ClosedTagD;
      o := AddEchoToken(status);
      if o.Fail? {
        return;
      }
      o := AddEchoNode(status);
    }

    /** ((Node) stack.peek()).addChildNode(child): the top is replaced by its updated value. */
    method AddToTop(child: Node) returns (o: Outcome)
      requires Valid()
      modifies Repr
      ensures Valid() && fresh(Repr - old(Repr))
      ensures sb == old(sb) && echoTokens == old(echoTokens)
      ensures echoTokens != null ==> echoTokens.Contents == old(echoTokens.Contents)
      ensures o.Fail? <==> ParserSpec.AddToTop(old(stack.Contents), child).Err?
      ensures o.Fail? ==> o.error == IndexOutOfBoundsException
      ensures o.Pass? ==> stack.Contents == ParserSpec.AddToTop(old(stack.Contents), child).value
    {
      var top := stack.Peek();
      if top.Err? {
        return Fail(top.error);
      }
      var popped := stack.Pop();
      o := stack.Push(Some(AddChildNode(top.value, child)));
      Repr := Repr + stack.Repr;
    }

    /** addTextNode: the builder's text becomes a child of the top; the builder empties. */
    method AddTextNode(ghost status: ParserSpec.Status) returns (o: Outcome)
      requires Valid()
      modifies Repr
      ensures Valid() && fresh(Repr - old(Repr))
      ensures Agrees(o, status, ParserSpec.AddTextNode(old(Abs(status))))
    {
      o := AddToTop(Node(TextKind(sb), []));
      sb := "";
    }

    /** resolveEndTag: pops the for-loop node, which joins the children of the node below. */
    method ResolveEndTag(ghost status: ParserSpec.Status) returns (o: Outcome)
      requires Valid()
      modifies Repr
      ensures Valid() && fresh(Repr - old(Repr))
      ensures Agrees(o, status, ParserSpec.ResolveEndTag(old(Abs(status))))
    {
      var n := stack.Size();
      if n == 1 {
        return Fail(SmartScriptParserException(ParserSpec.MSG_TOO_MANY_ENDS));
      }
      var top := stack.Pop();
      if top.Err? {
        return Fail(top.error);
      }
      ghost var below := stack.Contents;
      o := AddToTop(top.value);
      assert below == old(stack.Contents)[..n - 1];
    }

    /**
     * addForLoopNode: the builder split on ' ' is classified element by element into a
     * four-slot array; the first slot must hold a variable. The node is pushed.
     */
    method AddForLoopNode(ghost status: ParserSpec.Status) returns (o: Outcome)
      requires Valid()
      modifies Repr
      ensures Valid() && fresh(Repr - old(Repr))
      ensures Agrees(o, status, ParserSpec.AddForLoopNode(fp, old(Abs(status))))
    {
      var fToken;
      o, fToken := ForLoopTokens(Split(sb, ' '));
      if o.Fail? {
        return;
      }
      if fToken[0].Some? && !fToken[0].value.Variable? {
        return Fail(ClassCastException);
      }
      var variable := if fToken[0].None? then None else Some(fToken[0].value.name);
      var fln := Node(ForLoopKind(variable, fToken[1], fToken[2], fToken[3]), []);
      var top := stack.Peek();
      if top.Err? {
        return Fail(top.error);
      }
      o := stack.Push(Some(fln));
      Repr := Repr + stack.Repr;
      sb := "";
    }

    /** The loop of addForLoopNode filling the four-slot token array from the split builder. */
    method ForLoopTokens(elements: seq<string>) returns (o: Outcome, fToken: array<Option<Token>>)
      ensures fresh(fToken) && fToken.Length == 4
      ensures o.Fail? <==> ParserSpec.ForTokens(fp, elements, 0).Err?
      ensures o.Fail? ==> o.error == ParserSpec.ForTokens(fp, elements, 0).error
      ensures o.Pass? ==> forall j :: 0 <= j < 4 ==>
        fToken[j] == ParserSpec.Slot(ParserSpec.ForTokens(fp, elements, 0).value, j)
    {
      o := Pass;
      fToken := new Option<Token>[4](_ => None);
      ghost var tokens: seq<Token> := [];
      var i := 0;
      ghost var all := ParserSpec.ForTokens(fp, elements, 0);
      if all.Ok? {
        assert [] + all.value == all.value;
      }
      while i < |elements|
        modifies fToken
        invariant 0 <= i <= |elements| && i <= 4 && |tokens| == i
        invariant forall j :: 0 <= j < 4 ==> fToken[j] == ParserSpec.Slot(tokens, j)
        invariant all == Prefixed(tokens, ParserSpec.ForTokens(fp, elements, i))
      {
        var t := ParserSpec.MakeNewToken(fp, elements[i]);
        if t.Err? {
          o := Fail(t.error);
          return;
        }
        if i >= 4 {
          o := Fail(IndexOutOfBoundsException);
          return;
        }
        PrefixedCons(tokens, t.value, ParserSpec.ForTokens(fp, elements, i + 1));
        fToken[i] := Some(t.value);
        tokens := tokens + [t.value];
        i := i + 1;
      }
      assert tokens + [] == tokens;
    }

    /**
     * addEchoNode: the collected tokens are copied out, the collection is cleared and the
     * echo node becomes a child of the top; before any echo token there is no collection.
     */
    method AddEchoNode(ghost status: ParserSpec.Status) returns (o: Outcome)
      requires Valid()
      modifies Repr
      ensures Valid() && fresh(Repr - old(Repr))
      ensures Agrees(o, status, ParserSpec.AddEchoNode(old(Abs(status))))
    {
      if echoTokens == null {
        return Fail(NullPointerException);
      }
      var n := echoTokens.Size();
      var tokens: seq<Token> := [];
      var i := 0;
      while i < n
        modifies {}
        invariant 0 <= i <= n == |echoTokens.Contents|
        invariant tokens == echoTokens.Contents[..i]
      {
        var t := echoTokens.Get(i);
        tokens := tokens + [t.value];
        i := i + 1;
      }
      assert tokens == old(echoTokens.Contents);
      echoTokens.Clear();
      Repr := Repr + echoTokens.Repr;
      o := AddToTop(Node(EchoKind(tokens), []));
    }

    /** addEchoToken: the builder's lexeme, classified, joins the collection, made on first use. */
    method AddEchoToken(ghost status: ParserSpec.Status) returns (o: Outcome)
      requires Valid()
      modifies Repr
      ensures Valid() && fresh(Repr - old(Repr))
      ensures Agrees(o, status, ParserSpec.AddEchoToken(fp, old(Abs(status))))
    {
      if echoTokens == null {
        echoTokens := new ArrayBackedIndexedCollection();
        Repr := Repr + echoTokens.Repr;
      }
      var t := ParserSpec.MakeNewToken(fp, sb);
      if t.Err? {
        return Fail(t.error);
      }
      o := echoTokens.Add(Some(t.value));
      Repr := Repr + echoTokens.Repr;
      sb := "";
    }
  }

  /** The tokens of the elements before `i`, ahead of the result for the rest. */
  function Prefixed(tokens: seq<Token>, rest: Result<seq<Token>>): Result<seq<Token>> {
    var r :- rest;
    Ok(tokens + r)
  }

  lemma PrefixedCons(tokens: seq<Token>, t: Token, rest: Result<seq<Token>>)
    ensures Prefixed(tokens, (var r :- rest; Ok([t] + r))) == Prefixed(tokens + [t], rest)
  {
    if rest.Ok? {
      assert tokens + ([t] + rest.value) == tokens + [t] + rest.value;
    }
  }
}
