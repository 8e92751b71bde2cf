# SmartScript and the SmartHttpServer helpers, modelled in Dafny

The model covers the core of a small Java web server. Its pieces are:

- **SmartScript.** This is a template language: text with `{$ FOR … $}`, `{$ END $}` and `{$= … $}` tags.
  - A parser turns a document into a tree of nodes: document, text, for-loop and echo.
  - A visitor engine runs that tree against a request context.
  - Its values are `ValueWrapper`s, kept per variable name in an `ObjectMultistack`.
  - Two home-made collections back them: `ArrayBackedIndexedCollection` and `ObjectStack`.
- **`RequestContext`.** This is the response sink. It writes the header exactly once, before the first data. After that, status, text, mime type and encoding are frozen. It also keeps the request, temporary and persistent parameter maps, and the outgoing cookies (`RCCookie`).
- **The request helpers of `SmartHttpServer`:**
  - the request-line check;
  - `extractPath` and `parseParameters`;
  - the scan for a `sid` cookie;
  - `sendErrorStatusCode`.

## Layout

| file | module | contents |
|---|---|---|
| `base.dfy` | `Base` | `Exception` kinds, `Option`, `Result`, `Outcome` (the result of a Java `void` call) |
| `java_text.dfy`, `java_numbers.dfy` | `JavaText`, `JavaNumbers` | the `String` and `Integer` behaviour the source relies on: `split` (trailing empty pieces dropped), `indexOf`, `toLowerCase`, `trim`, `Integer.parseInt`, `String.valueOf(int)`, 32-bit wrap-around, truncating division, the text `Double.parseDouble` accepts |
| `values.dfy`, `num_util.dfy` | `Values`, `NumUtil` | the objects on the engine's stacks (`Integer`, `Double`, `String`, `null`) and `NumUtil` |
| `collections.dfy` | `Collections` | the two collection classes, over an `array` |
| `value_wrapper.dfy` | `ValueWrappers`, `WrapperObjects`, `ValueWrapperProps` | `ValueWrapper` as a value and as an object updated in place |
| `multistack.dfy` | `Multistacks` | `MultistackEntry` over an array, `ObjectMultistack` over a map of entries |
| `tokens.dfy`, `nodes.dfy` | `Tokens`, `Nodes`, `NodeObjects` | tokens, nodes as values, and the in-place `Node` with its children collection |
| `parser_spec.dfy`, `parser.dfy`, `parser_props.dfy` | `ParserSpec`, `Parser`, `ParserProps`, `ParserShape` | the character-by-character state machine as functions, the parser class proved against them, and what parsing promises |
| `request_context.dfy` | `RequestContexts`, `ResponseProps`, `RequestContextObjects` | the response as a value, what any sequence of operations on it keeps, and the class |
| `engine_spec.dfy`, `engine.dfy`, `engine_props.dfy` | `EngineSpec`, `Engine`, `EngineProps` | the visitor as functions, the engine class proved against them, and what running a document keeps |
| `http_server.dfy` | `HttpServer` | the request helpers |

## Conventions

- **Exceptions.** A Java exception is a `Result.Err` or `Outcome.Fail` naming its kind. A `SmartScriptParserException` or `RuntimeException` also carries its message. `ParserExceptionFrom` is the `SmartScriptParserException` that `parse` builds from the message of another exception it caught.
- **Doubles.** Java `double` values are opaque 64-bit patterns. Everything the source does with them is a parameter `fp: FloatOps`: parsing, printing, arithmetic, comparison, `Math.sin` and `DecimalFormat`. No property depends on IEEE 754 arithmetic. The set of strings `Double.parseDouble` accepts is modelled exactly (`JavaNumbers.IsDoubleText`).
- **Fuel.** A `FOR` loop of the engine can run forever: a step of 0, or an end that wrap-around never reaches. The engine therefore takes `fuel`, the number of passes each loop may make. A loop that uses up its fuel ends with the status `OutOfFuel` instead of diverging.
- **Imperative parts.** Each one is a class whose methods are proved against a function of the same name, following the source's structure:
  - `ArrayBackedIndexedCollection`, `ObjectStack` and `MultistackEntry`, each over an array;
  - `ObjectMultistack`;
  - the parser;
  - the engine;
  - `RequestContext`;
  - `Node` and `ValueWrapper`.
- **Pure parts.** These are functions with lemmas: token classification, node text, response rendering and the server helpers.

## Model

| member | source | states |
|---|---|---|
| JavaNumbers.Wrap32 | src/hr/fer/zemris/custom/scripting/exec/ValueWrapper.java:186-197 | the result is the 32-bit int congruent to the input modulo 2^32, and an int already in range is unchanged |
| JavaNumbers.JavaDiv | src/hr/fer/zemris/custom/scripting/exec/ValueWrapper.java:195-196 | Java's int `/`: for 32-bit operands the quotient rounded toward zero (largest magnitude whose multiple of the divisor stays within the dividend, negative exactly for operands of opposite signs); MIN_VALUE / -1 wraps to MIN_VALUE |
| JavaNumbers.JavaDivExamples | src/hr/fer/zemris/custom/scripting/exec/ValueWrapper.java:195-196 | -7 / 2 and 7 / -2 are -3, where Euclidean division would give -4; -7 / -2 is 3 |
| JavaNumbers.ParseInt | src/hr/fer/zemris/util/NumUtil.java:38-45 | Integer.parseInt: an accepted text is a sign or a digit followed by decimal digits, and its value is a 32-bit int |
| JavaNumbers.ParseIntValue | src/hr/fer/zemris/util/NumUtil.java:38-45 | the value of an accepted text is the signed value of its digits |
| JavaNumbers.ParseIntAccepts | src/hr/fer/zemris/util/NumUtil.java:38-45 | the converse: "", "+" or "-" followed by one or more digits is accepted exactly when its signed value is a 32-bit int, and parses to that value |
| JavaNumbers.ParseIntExamples | src/hr/fer/zemris/util/NumUtil.java:38-45 | "+007" parses to 7 and "-0" to 0; a lone sign is rejected |
| JavaNumbers.ParseIntToString | src/hr/fer/zemris/custom/scripting/tokens/TokenConstantInteger.java:34-36 | String.valueOf of an int parses back to the same int, negatives included |
| JavaNumbers.DoubleTextStart | src/hr/fer/zemris/util/NumUtil.java:23-30 | text Double.parseDouble accepts starts, after trimming, with a sign, a dot, a digit, N(aN) or I(nfinity) |
| JavaText.IndexOf | src/hr/fer/zemris/webserver/SmartHttpServer.java:462 | indexOf(char) is -1 exactly when the char is absent, and otherwise the position of its first occurrence |
| JavaText.ToLower | src/hr/fer/zemris/custom/scripting/parser/SmartScriptParser.java:189 | the length is kept and each character is lower-cased on its own (ASCII letters only) |
| JavaText.Split | src/hr/fer/zemris/webserver/SmartHttpServer.java:320 | String.split on one char: no piece contains the delimiter, a string without the delimiter gives itself, trailing empty pieces are dropped |
| JavaText.SplitJoin | src/hr/fer/zemris/webserver/SmartHttpServer.java:479-481 | joining pieces that are free of the delimiter (the last one non-empty) and splitting again gives the same pieces back |
| JavaText.SplitLosesTrailingDelimiters | src/hr/fer/zemris/webserver/SmartHttpServer.java:320 | joining the pieces of a split gives back a prefix of the input, and everything after that prefix is the delimiter |
| NumUtil.GetInt | src/hr/fer/zemris/util/NumUtil.java:53-60 | null throws NullPointerException; otherwise a 32-bit int, the parsed text when it is an int and 0 when it is not |
| NumUtil.GetIntOfInteger | src/hr/fer/zemris/util/NumUtil.java:53-60 | an Integer gives back its own value |
| Values.RefToStr | src/hr/fer/zemris/custom/scripting/exec/ValueWrapper.java:234-236 | toString of a reference: null throws NullPointerException and a String is its own text |
| Nodes.NumberOfChildren | src/hr/fer/zemris/custom/scripting/nodes/Node.java:33-36 | the number of children added so far |
| Nodes.AddChildNode | src/hr/fer/zemris/custom/scripting/nodes/Node.java:20-26 | the new child is the last one, the earlier children keep their indices and the node's own fields are unchanged |
| Nodes.GetChild | src/hr/fer/zemris/custom/scripting/nodes/Node.java:45-49 | null for any index while the node has no children; otherwise the child at a valid index, and IndexOutOfBoundsException outside |
| Nodes.ChildrenTextSnoc | src/hr/fer/zemris/custom/scripting/nodes/DocumentNode.java:22-28 | the children's texts are concatenated in child order with nothing between them |
| Nodes.DocumentTextAfterAdd | src/hr/fer/zemris/custom/scripting/nodes/DocumentNode.java:22-28 | after addChildNode a document's text is its earlier text followed by the new child's |
| NodeObjects.NodeObject.constructor | src/hr/fer/zemris/custom/scripting/nodes/Node.java:11-13 | a new node has no children collection yet |
| NodeObjects.NodeObject.AddChildNode | src/hr/fer/zemris/custom/scripting/nodes/Node.java:20-26 | the collection is created on first use and the child is appended, as Nodes.AddChildNode does to the node's value |
| NodeObjects.NodeObject.NumberOfChildren | src/hr/fer/zemris/custom/scripting/nodes/Node.java:33-36 | 0 while the collection does not exist, otherwise its size |
| NodeObjects.NodeObject.GetChild | src/hr/fer/zemris/custom/scripting/nodes/Node.java:45-49 | null while the collection does not exist, whatever the index; otherwise Nodes.GetChild of the node's value |
| Collections.ArrayBackedIndexedCollection.constructor | src/hr/fer/zemris/custom/collections/ArrayBackedIndexedCollection.java:20-22 | empty, with the default capacity 16 |
| Collections.ArrayBackedIndexedCollection.WithCapacity | src/hr/fer/zemris/custom/collections/ArrayBackedIndexedCollection.java:29-34 | empty, with the requested capacity |
| Collections.ArrayBackedIndexedCollection.New | src/hr/fer/zemris/custom/collections/ArrayBackedIndexedCollection.java:29-34 | a capacity below 1 throws IllegalArgumentException; otherwise an empty collection of that capacity |
| Collections.ArrayBackedIndexedCollection.IsEmpty | src/hr/fer/zemris/custom/collections/ArrayBackedIndexedCollection.java:40-42 | true exactly when there are no elements |
| Collections.ArrayBackedIndexedCollection.Size | src/hr/fer/zemris/custom/collections/ArrayBackedIndexedCollection.java:48-50 | the number of elements |
| Collections.ArrayBackedIndexedCollection.Add | src/hr/fer/zemris/custom/collections/ArrayBackedIndexedCollection.java:57-59 | null throws IllegalArgumentException and changes nothing; otherwise the value is appended |
| Collections.ArrayBackedIndexedCollection.Get | src/hr/fer/zemris/custom/collections/ArrayBackedIndexedCollection.java:67-72 | the element at a valid index, IndexOutOfBoundsException outside 0..size-1 |
| Collections.ArrayBackedIndexedCollection.Remove | src/hr/fer/zemris/custom/collections/ArrayBackedIndexedCollection.java:79-87 | an invalid index throws; otherwise that element is gone and the others keep their order |
| Collections.ArrayBackedIndexedCollection.Insert | src/hr/fer/zemris/custom/collections/ArrayBackedIndexedCollection.java:96-108 | null or an index outside 0..size throws; otherwise the value sits at the index with the old elements around it in order |
| Collections.ArrayBackedIndexedCollection.IndexOf | src/hr/fer/zemris/custom/collections/ArrayBackedIndexedCollection.java:115-120 | the first position holding the value, or -1 when it is absent or null |
| Collections.ArrayBackedIndexedCollection.Contains | src/hr/fer/zemris/custom/collections/ArrayBackedIndexedCollection.java:127-129 | true exactly when the (non-null) value is an element |
| Collections.ArrayBackedIndexedCollection.Clear | src/hr/fer/zemris/custom/collections/ArrayBackedIndexedCollection.java:134-138 | no elements and the default capacity again |
| Collections.ArrayBackedIndexedCollection.Shift | src/hr/fer/zemris/custom/collections/ArrayBackedIndexedCollection.java:145-164 | the array cells from the index on move one place left or right and the cells before it are untouched |
| Collections.ArrayBackedIndexedCollection.Reallocate | src/hr/fer/zemris/custom/collections/ArrayBackedIndexedCollection.java:169-174 | the capacity doubles and every element is kept in place |
| Collections.ObjectStack.constructor | src/hr/fer/zemris/custom/collections/ObjectStack.java:16-18 | an empty stack |
| Collections.ObjectStack.WithCapacity | src/hr/fer/zemris/custom/collections/ObjectStack.java:24-26 | an empty stack, for a capacity of at least 1; New covers the rejected capacities |
| Collections.ObjectStack.New | src/hr/fer/zemris/custom/collections/ObjectStack.java:24-26 | the one-argument constructor: IllegalArgumentException exactly below capacity 1, otherwise an empty stack |
| Collections.ObjectStack.IsEmpty | src/hr/fer/zemris/custom/collections/ObjectStack.java:32-34 | true exactly when the stack holds nothing |
| Collections.ObjectStack.Size | src/hr/fer/zemris/custom/collections/ObjectStack.java:40-42 | the number of values on the stack |
| Collections.ObjectStack.Push | src/hr/fer/zemris/custom/collections/ObjectStack.java:49-52 | null throws IllegalArgumentException; otherwise the value becomes the top |
| Collections.ObjectStack.Pop | src/hr/fer/zemris/custom/collections/ObjectStack.java:59-66 | an empty stack throws EmptyStackException; otherwise the last value pushed is returned and removed |
| Collections.ObjectStack.Peek | src/hr/fer/zemris/custom/collections/ObjectStack.java:72-74 | the top without removing it; an empty stack throws IndexOutOfBoundsException (get(-1)) |
| Collections.ObjectStack.Clear | src/hr/fer/zemris/custom/collections/ObjectStack.java:79-81 | the stack is empty |
| ValueWrappers.DetermineType | src/hr/fer/zemris/custom/scripting/exec/ValueWrapper.java:59-73 | INTEGER exactly for null or int text, DOUBLE for other double text, IllegalArgumentException otherwise |
| ValueWrappers.New | src/hr/fer/zemris/custom/scripting/exec/ValueWrapper.java:30-33 | the value is kept as given and its type is determined once; text that is no number throws |
| ValueWrappers.SetValue | src/hr/fer/zemris/custom/scripting/exec/ValueWrapper.java:49-51 | the value is replaced and the type is not |
| ValueWrappers.GetDoubleValue | src/hr/fer/zemris/custom/scripting/exec/ValueWrapper.java:205-207 | null reads as 0.0 and non-double text throws NumberFormatException |
| ValueWrappers.GetIntegerValue | src/hr/fer/zemris/custom/scripting/exec/ValueWrapper.java:215-217 | null reads as 0, int text as its parsed value, anything else throws NumberFormatException |
| ValueWrappers.PerformOperationInteger | src/hr/fer/zemris/custom/scripting/exec/ValueWrapper.java:186-197 | Java 32-bit + - * (congruent modulo 2^32 to the exact result); / is the quotient rounded toward zero, with MIN_VALUE / -1 giving MIN_VALUE; only division by zero throws ArithmeticException |
| ValueWrappers.PerformOperation | src/hr/fer/zemris/custom/scripting/exec/ValueWrapper.java:143-155 | an Integer result exactly when both types are INTEGER, a Double otherwise; an argument of no number type throws first |
| ValueWrappers.Apply | src/hr/fer/zemris/custom/scripting/exec/ValueWrapper.java:105-134 | increment, decrement, multiply and divide store the operation's result and keep the type tag |
| ValueWrappers.CompareInts | src/hr/fer/zemris/custom/scripting/exec/ValueWrapper.java:82-98 | negative, zero or positive as the first int is below, equal to or above the second |
| ValueWrappers.NumCompare | src/hr/fer/zemris/custom/scripting/exec/ValueWrapper.java:82-98 | an argument of no number type throws IllegalArgumentException before any comparison |
| ValueWrappers.ToString | src/hr/fer/zemris/custom/scripting/exec/ValueWrapper.java:234-236 | the stored value's text; null throws |
| ValueWrappers.HashCode | src/hr/fer/zemris/custom/scripting/exec/ValueWrapper.java:244-246 | a 32-bit hash: an Integer hashes to itself, a String to String.hashCode, a Double to Double.hashCode |
| ValueWrappers.Equals | src/hr/fer/zemris/custom/scripting/exec/ValueWrapper.java:226-228 | false for null, NullPointerException for a null stored value, otherwise true exactly when the two hash codes agree |
| WrapperObjects.Wrapper.Make | src/hr/fer/zemris/custom/scripting/exec/ValueWrapper.java:30-33 | the constructor: throws exactly when ValueWrappers.New does, otherwise a new object holding its value |
| WrapperObjects.Wrapper.SetValue | src/hr/fer/zemris/custom/scripting/exec/ValueWrapper.java:49-51 | overwrites the value field in place, leaving the final type |
| WrapperObjects.Wrapper.Operate | src/hr/fer/zemris/custom/scripting/exec/ValueWrapper.java:143-155 | performOperation then setValue: on failure the value is untouched, on success it is ValueWrappers.Apply's |
| WrapperObjects.Wrapper.Increment | src/hr/fer/zemris/custom/scripting/exec/ValueWrapper.java:105-107 | the stored value plus the argument replaces the value, as ValueWrappers.Apply with INCREMENT |
| WrapperObjects.Wrapper.Decrement | src/hr/fer/zemris/custom/scripting/exec/ValueWrapper.java:114-116 | the stored value minus the argument, as ValueWrappers.Apply with DECREMENT |
| WrapperObjects.Wrapper.Multiply | src/hr/fer/zemris/custom/scripting/exec/ValueWrapper.java:123-125 | the stored value times the argument, as ValueWrappers.Apply with MULTIPLY |
| WrapperObjects.Wrapper.Divide | src/hr/fer/zemris/custom/scripting/exec/ValueWrapper.java:132-134 | the stored value divided by the argument, as ValueWrappers.Apply with DIVIDE |
| ValueWrapperProps.IntegerArithmetic | src/hr/fer/zemris/custom/scripting/exec/ValueWrapper.java:186-197 | with int operands the new value is the Java int result, stored value on the left; only a division by zero fails |
| ValueWrapperProps.IntegerOnlyWhenBothInteger | src/hr/fer/zemris/custom/scripting/exec/ValueWrapper.java:143-155 | int arithmetic with an Integer argument happens exactly when the wrapper's tag is INTEGER; a DOUBLE tag gives a Double |
| ValueWrapperProps.CompareIntegers | src/hr/fer/zemris/custom/scripting/exec/ValueWrapper.java:82-98 | with int operands numCompare is negative, zero or positive as a < b, a == b, a > b |
| ValueWrapperProps.NullComparesAsZero | src/hr/fer/zemris/custom/scripting/exec/ValueWrapper.java:82-98 | a null stored value compares as 0 |
| ValueWrapperProps.NewFromIntText | src/hr/fer/zemris/custom/scripting/exec/ValueWrapper.java:59-73 | int text makes an INTEGER wrapper that keeps the text itself as its value |
| ValueWrapperProps.TagSurvivesDoubleResult | src/hr/fer/zemris/custom/scripting/exec/ValueWrapper.java:23 | an INTEGER-tagged wrapper that receives a Double result keeps saying INTEGER |
| ValueWrapperProps.EqualsIsHashEquality | src/hr/fer/zemris/custom/scripting/exec/ValueWrapper.java:226-228 | equals compares hash codes only: an Integer equals a one-character String exactly when it is that character's code (97 equals "a") |
| ValueWrapperProps.IntegersEqualByValue | src/hr/fer/zemris/custom/scripting/exec/ValueWrapper.java:226-228 | two Integers are equal exactly when their values are |
| Multistacks.MultistackEntry.constructor | src/hr/fer/zemris/custom/scripting/exec/ObjectMultistack.java:113-115 | an empty entry with the initial capacity |
| Multistacks.MultistackEntry.WithCapacity | src/hr/fer/zemris/custom/scripting/exec/ObjectMultistack.java:122-126 | an empty entry with the given capacity |
| Multistacks.MultistackEntry.Push | src/hr/fer/zemris/custom/scripting/exec/ObjectMultistack.java:133-140 | the value is appended; a full array doubles first, so a zero capacity throws |
| Multistacks.MultistackEntry.Pop | src/hr/fer/zemris/custom/scripting/exec/ObjectMultistack.java:147-156 | EmptyStackException on an empty entry; otherwise the top is returned and removed |
| Multistacks.MultistackEntry.Peek | src/hr/fer/zemris/custom/scripting/exec/ObjectMultistack.java:163-169 | EmptyStackException on an empty entry; otherwise the top, unchanged |
| Multistacks.MultistackEntry.IsEmpty | src/hr/fer/zemris/custom/scripting/exec/ObjectMultistack.java:176-178 | true exactly when the entry holds nothing |
| Multistacks.PopAfterPush | src/hr/fer/zemris/custom/scripting/exec/ObjectMultistack.java:32-59 | after a push the name's top is the pushed value, it is not empty, and a pop returns it and restores the map |
| Multistacks.OtherNamesUntouched | src/hr/fer/zemris/custom/scripting/exec/ObjectMultistack.java:32-49 | push and pop on one name leave every other name's stack as it was |
| Multistacks.PopFailures | src/hr/fer/zemris/custom/scripting/exec/ObjectMultistack.java:76-82 | a failed pop changes nothing; IllegalArgumentException exactly for an unseen name, EmptyStackException exactly for an empty stack |
| Multistacks.ObjectMultistack.constructor | src/hr/fer/zemris/custom/scripting/exec/ObjectMultistack.java:22-24 | no names yet |
| Multistacks.ObjectMultistack.EntryFor | src/hr/fer/zemris/custom/scripting/exec/ObjectMultistack.java:32-36 | the existing entry of a name, or a new empty one |
| Multistacks.ObjectMultistack.Push | src/hr/fer/zemris/custom/scripting/exec/ObjectMultistack.java:32-39 | the per-name stacks become PushOn of the old ones (a new name gets a stack) |
| Multistacks.ObjectMultistack.CheckIfExists | src/hr/fer/zemris/custom/scripting/exec/ObjectMultistack.java:76-82 | the entry of a known name; IllegalArgumentException for an unseen one |
| Multistacks.ObjectMultistack.Pop | src/hr/fer/zemris/custom/scripting/exec/ObjectMultistack.java:47-49 | returns and removes as PopFrom specifies, entry objects kept |
| Multistacks.ObjectMultistack.Peek | src/hr/fer/zemris/custom/scripting/exec/ObjectMultistack.java:57-59 | PeekAt: the top of the name's stack, or the exception |
| Multistacks.ObjectMultistack.IsEmpty | src/hr/fer/zemris/custom/scripting/exec/ObjectMultistack.java:67-69 | IsEmptyAt: whether the name's stack is empty, or IllegalArgumentException |
| ParserSpec.ValidName | src/hr/fer/zemris/custom/scripting/parser/SmartScriptParser.java:475-482 | an empty name throws (charAt(0)); otherwise true exactly for a letter followed by letters, digits or underscores |
| ParserSpec.MakeNewToken | src/hr/fer/zemris/custom/scripting/parser/SmartScriptParser.java:527-548 | an operator, function, variable or string token prints back as the lexeme it came from; an int token holds the value Integer.parseInt reads from the lexeme |
| ParserSpec.Top | src/hr/fer/zemris/custom/collections/ObjectStack.java:72-74 | the top of the node stack, absent exactly when the stack is empty |
| ParserSpec.AddToTop | src/hr/fer/zemris/custom/scripting/parser/SmartScriptParser.java:380-387 | the child is appended to the children of the top node and the rest of the stack is unchanged |
| ParserSpec.AddTextNode | src/hr/fer/zemris/custom/scripting/parser/SmartScriptParser.java:380-387 | the builder's text becomes a text child of the top node and the builder is emptied |
| ParserSpec.ResolveEndTag | src/hr/fer/zemris/custom/scripting/parser/SmartScriptParser.java:394-400 | with only the document on the stack "Too much end tags."; otherwise the top is removed and the entries below it stay as they were |
| ParserSpec.ForTokens | src/hr/fer/zemris/custom/scripting/parser/SmartScriptParser.java:408-414 | as many tokens as elements from the index on; a fifth element fails (the token array holds four) |
| ParserProps.ForTokensAt | src/hr/fer/zemris/custom/scripting/parser/SmartScriptParser.java:408-414 | the token at each place is the classification (MakeNewToken) of the element at that place |
| ParserSpec.AddForLoopNode | src/hr/fer/zemris/custom/scripting/parser/SmartScriptParser.java:405-426 | a successful for tag pushes one new childless for-loop node above the unchanged stack and empties the builder |
| ParserSpec.AddEchoNode | src/hr/fer/zemris/custom/scripting/parser/SmartScriptParser.java:431-444 | a null token list (no token seen yet) throws NullPointerException; otherwise an echo child of the top with the tokens, and the list is emptied |
| ParserSpec.AddEchoToken | src/hr/fer/zemris/custom/scripting/parser/SmartScriptParser.java:453-457 | the classified lexeme is appended to the token list (created on first use) and the builder emptied; an unknown lexeme fails |
| ParserSpec.Rethrown | src/hr/fer/zemris/custom/scripting/parser/SmartScriptParser.java:364-366 | every failure of parse comes out as a SmartScriptParserException, and one that already is keeps its message |
| Parser.SmartScriptParser.constructor | src/hr/fer/zemris/custom/scripting/parser/SmartScriptParser.java:80-87 | empty builder and stack, no token list, no document yet |
| Parser.SmartScriptParser.Create | src/hr/fer/zemris/custom/scripting/parser/SmartScriptParser.java:80-87 | construction parses: it fails exactly when ParserSpec.Parse does, with the rethrown exception; otherwise the document is ParserSpec.Parse's, a document node whose children are all content nodes |
| Parser.SmartScriptParser.Parse | src/hr/fer/zemris/custom/scripting/parser/SmartScriptParser.java:105-367 | the document node is ParserSpec.Parse's; a failure is ParserSpec.Parse's exception rethrown as a SmartScriptParserException |
| Parser.SmartScriptParser.ReadAll | src/hr/fer/zemris/custom/scripting/parser/SmartScriptParser.java:119-350 | the character loop leaves the fields as ParserSpec.Run leaves the state, or stops at the first exception |
| Parser.SmartScriptParser.EndOfInput | src/hr/fer/zemris/custom/scripting/parser/SmartScriptParser.java:352-362 | pending text is flushed from the text state only, then the stack must hold the document alone |
| Parser.SmartScriptParser.Step | src/hr/fer/zemris/custom/scripting/parser/SmartScriptParser.java:125-347 | one character does to the fields what ParserSpec.Step does to the state |
| Parser.SmartScriptParser.StepText | src/hr/fer/zemris/custom/scripting/parser/SmartScriptParser.java:127-160 | the STARTING, TEXT_NODE and ESCAPING arms, as ParserSpec.StepText |
| Parser.SmartScriptParser.StepTag | src/hr/fer/zemris/custom/scripting/parser/SmartScriptParser.java:161-221 | the tag-opening, name and closing arms, as ParserSpec.StepTag |
| Parser.SmartScriptParser.StepFor | src/hr/fer/zemris/custom/scripting/parser/SmartScriptParser.java:222-283 | the for-tag arms, as ParserSpec.StepFor |
| Parser.SmartScriptParser.StepEcho | src/hr/fer/zemris/custom/scripting/parser/SmartScriptParser.java:284-347 | the echo-tag arms, as ParserSpec.StepEcho |
| Parser.SmartScriptParser.CloseEcho | src/hr/fer/zemris/custom/scripting/parser/SmartScriptParser.java:310-316 | a '$' ends the lexeme: the token, then the node, as ParserSpec.CloseEcho |
| Parser.SmartScriptParser.AddToTop | src/hr/fer/zemris/custom/scripting/parser/SmartScriptParser.java:383 | the stack's top gets the child, as ParserSpec.AddToTop, and builder and token list are untouched |
| Parser.SmartScriptParser.AddTextNode | src/hr/fer/zemris/custom/scripting/parser/SmartScriptParser.java:380-387 | as ParserSpec.AddTextNode |
| Parser.SmartScriptParser.ResolveEndTag | src/hr/fer/zemris/custom/scripting/parser/SmartScriptParser.java:394-400 | as ParserSpec.ResolveEndTag |
| Parser.SmartScriptParser.AddForLoopNode | src/hr/fer/zemris/custom/scripting/parser/SmartScriptParser.java:405-426 | as ParserSpec.AddForLoopNode |
| Parser.SmartScriptParser.ForLoopTokens | src/hr/fer/zemris/custom/scripting/parser/SmartScriptParser.java:408-414 | the four-slot token array holds ParserSpec.ForTokens in order and null after them; a fifth element fails |
| Parser.SmartScriptParser.AddEchoNode | src/hr/fer/zemris/custom/scripting/parser/SmartScriptParser.java:431-444 | as ParserSpec.AddEchoNode |
| Parser.SmartScriptParser.AddEchoToken | src/hr/fer/zemris/custom/scripting/parser/SmartScriptParser.java:453-457 | as ParserSpec.AddEchoToken |
| ParserProps.ClassifyName | src/hr/fer/zemris/custom/scripting/parser/SmartScriptParser.java:529-538 | a valid name is a variable of that name, even when it also reads as a number |
| ParserProps.ClassifyInteger | src/hr/fer/zemris/custom/scripting/parser/SmartScriptParser.java:539-540 | int text that is no operator and no name is an integer constant of its value |
| ParserProps.ClassifyFunction | src/hr/fer/zemris/custom/scripting/parser/SmartScriptParser.java:531-535 | '@' and a valid name is a function of that name; an invalid name is "Function name is not valid." |
| ParserProps.ClassifyQuoted | src/hr/fer/zemris/custom/scripting/parser/SmartScriptParser.java:543-544 | a quoted lexeme is a string constant without the outer quotes |
| ParserProps.QuotedNotDouble | src/hr/fer/zemris/custom/scripting/parser/SmartScriptParser.java:541-544 | text in double quotes never reads as a double, so the string branch is reached |
| ParserProps.ClassifyAsText | src/hr/fer/zemris/custom/scripting/parser/SmartScriptParser.java:527-548 | classifying any canonical token's asText gives the same token back |
| ParserProps.StepInText | src/hr/fer/zemris/custom/scripting/parser/SmartScriptParser.java:139-149 | in text a backslash enters the escape state and other characters are appended |
| ParserProps.StepEscaping | src/hr/fer/zemris/custom/scripting/parser/SmartScriptParser.java:150-160 | after a backslash r, n, t become CR, LF, TAB and any other character is dropped together with the backslash |
| ParserProps.RunText | src/hr/fer/zemris/custom/scripting/parser/SmartScriptParser.java:139-160 | a run of text without '{' appends its unescaped form to the builder |
| ParserProps.RunTextEscape | src/hr/fer/zemris/custom/scripting/parser/SmartScriptParser.java:139-160 | the same from the escape state |
| ParserProps.FinishText | src/hr/fer/zemris/custom/scripting/parser/SmartScriptParser.java:352-362 | pending text is added as the last child only when the final state is the text state |
| ParserProps.ParsePlainText | src/hr/fer/zemris/custom/scripting/parser/SmartScriptParser.java:127-160 | a document without '{' parses to one text node holding the unescaped text (none when empty) |
| ParserProps.ParseLeadingBackslash | src/hr/fer/zemris/custom/scripting/parser/SmartScriptParser.java:130-133 | a leading backslash is itself kept in the text, the escape after it applied |
| ParserProps.RunEndTag | src/hr/fer/zemris/custom/scripting/parser/SmartScriptParser.java:195-197 | once in the end-tag state no character changes anything |
| ParserProps.RunAppend | src/hr/fer/zemris/custom/scripting/parser/SmartScriptParser.java:119-350 | running over two pieces is running over the first, then over the second |
| ParserProps.ParseIgnoresAfterEndTag | src/hr/fer/zemris/custom/scripting/parser/SmartScriptParser.java:195-197 | everything after an end tag closed by a space is ignored: the result is fixed by the prefix |
| ParserProps.StepOpenTag | src/hr/fer/zemris/custom/scripting/parser/SmartScriptParser.java:161-170 | after '{' only whitespace is skipped and '$' opens the tag; anything else is "After { must come a $ sign." |
| ParserProps.StepCloseTag | src/hr/fer/zemris/custom/scripting/parser/SmartScriptParser.java:212-221 | after the closing '$' only whitespace is skipped and '}' returns to text; anything else is "Missing $} combination." |
| ParserProps.RunOpenTag | src/hr/fer/zemris/custom/scripting/parser/SmartScriptParser.java:161-170 | '{', any run of whitespace, then '$' opens the tag |
| ParserProps.RunCloseTag | src/hr/fer/zemris/custom/scripting/parser/SmartScriptParser.java:212-221 | '$', any run of whitespace, then '}' closes the tag |
| ParserProps.FinishOutcome | src/hr/fer/zemris/custom/scripting/parser/SmartScriptParser.java:352-362 | the end of input succeeds exactly when the document is alone on the stack, else "Missing a few END tags." |
| ParserProps.ForLoopNodeSlots | src/hr/fer/zemris/custom/scripting/parser/SmartScriptParser.java:405-426 | the for node's variable, start, end and step are the classifications of split parts 0, 1, 2 and 3; step is present exactly with four parts |
| ParserShape.AddToTopInv | src/hr/fer/zemris/custom/scripting/parser/SmartScriptParser.java:380-387 | attaching a content node keeps the stack's trees made of content nodes |
| ParserShape.StepInv | src/hr/fer/zemris/custom/scripting/parser/SmartScriptParser.java:125-347 | every character keeps the document at the bottom and only content nodes in the tree |
| ParserShape.RunInv | src/hr/fer/zemris/custom/scripting/parser/SmartScriptParser.java:119-350 | the whole loop keeps that invariant |
| ParserShape.ParseShape | src/hr/fer/zemris/custom/scripting/parser/SmartScriptParser.java:105-367 | a parsed document is a document node whose children are text, echo and for-loop nodes only |
| RequestContexts.CookieLines | src/hr/fer/zemris/webserver/RequestContext.java:101-103 | one Set-Cookie line per cookie, in list order |
| ResponseProps.InitialSane | src/hr/fer/zemris/webserver/RequestContext.java:27-58 | a new context has sent nothing and has no header |
| ResponseProps.RunSane | src/hr/fer/zemris/webserver/RequestContext.java:65-281 | no sequence of operations sends a second header or data ahead of the header, and text goes out in the encoding fixed by the header |
| ResponseProps.RunAppend | src/hr/fer/zemris/webserver/RequestContext.java:65-281 | a run of operations composes |
| ResponseProps.ReachesKeeps | src/hr/fer/zemris/webserver/RequestContext.java:243-281 | once the header is out, later operations only append output and never change status, text, mime or encoding |
| ResponseProps.FirstWrite | src/hr/fer/zemris/webserver/RequestContext.java:77-84 | the first write sends the header, then its data |
| ResponseProps.SettersFrozen | src/hr/fer/zemris/webserver/RequestContext.java:243-281 | each of the four setters succeeds exactly while no header was generated, and otherwise throws and changes nothing |
| ResponseProps.HeaderFrozen | src/hr/fer/zemris/webserver/RequestContext.java:243-281 | after the header, any operations keep the sent output as a prefix and the header fields as they were |
| ResponseProps.ParameterMaps | src/hr/fer/zemris/webserver/RequestContext.java:151-236 | set then get gives the value, remove then get gives null, other names and the other maps are untouched |
| ResponseProps.CookieNoBreaks | src/hr/fer/zemris/webserver/RequestContext.java:326-341 | a cookie whose fields have no line breaks gives a one-line text |
| ResponseProps.HeaderLinesPlain | src/hr/fer/zemris/webserver/RequestContext.java:93-106 | each header line is free of CR and LF |
| ResponseProps.HeaderFraming | src/hr/fer/zemris/webserver/RequestContext.java:91-113 | when status text, mime type, encoding and cookie fields have no line breaks, the header ends with an empty line and contains no other (section 3 of RFC 7230) |
| ResponseProps.BlankLineOnlyAtEnd | src/hr/fer/zemris/webserver/RequestContext.java:93-106 | lines without breaks, each ended by CRLF, contain no empty line before the final CRLF |
| RequestContextObjects.RequestContext.Init | src/hr/fer/zemris/webserver/RequestContext.java:47-58 | UTF-8, 200, OK, text/html, no header yet, and null maps or cookie list become empty ones |
| RequestContextObjects.RequestContext.New | src/hr/fer/zemris/webserver/RequestContext.java:47-58 | a null output stream throws IllegalArgumentException; otherwise the initial state |
| RequestContextObjects.RequestContext.WriteString | src/hr/fer/zemris/webserver/RequestContext.java:65-70 | as RequestContexts.WriteString: the header on first write, then the text in the charset |
| RequestContextObjects.RequestContext.WriteBytes | src/hr/fer/zemris/webserver/RequestContext.java:77-84 | as RequestContexts.WriteBytes |
| RequestContextObjects.RequestContext.Write | src/hr/fer/zemris/webserver/RequestContext.java:77-84 | as RequestContexts.Emit: the header once, before the first data |
| RequestContextObjects.RequestContext.GenerateHeader | src/hr/fer/zemris/webserver/RequestContext.java:91-113 | returns RequestContexts.HeaderText and marks the header as generated |
| RequestContextObjects.RequestContext.AddRCCookie | src/hr/fer/zemris/webserver/RequestContext.java:118-120 | the cookie is appended to the list |
| RequestContextObjects.RequestContext.GetParameter | src/hr/fer/zemris/webserver/RequestContext.java:128-130 | the value or null |
| RequestContextObjects.RequestContext.GetParameterNames | src/hr/fer/zemris/webserver/RequestContext.java:135-137 | the key set |
| RequestContextObjects.RequestContext.GetPersistentParameter | src/hr/fer/zemris/webserver/RequestContext.java:159-161 | the value or null |
| RequestContextObjects.RequestContext.GetPersistentParameterNames | src/hr/fer/zemris/webserver/RequestContext.java:166-168 | the key set |
| RequestContextObjects.RequestContext.SetPersistentParameter | src/hr/fer/zemris/webserver/RequestContext.java:174-176 | puts the pair |
| RequestContextObjects.RequestContext.RemovePersistentParameter | src/hr/fer/zemris/webserver/RequestContext.java:181-183 | deletes the name |
| RequestContextObjects.RequestContext.SetPersistentParameters | src/hr/fer/zemris/webserver/RequestContext.java:188-190 | replaces the map |
| RequestContextObjects.RequestContext.GetTemporaryParameter | src/hr/fer/zemris/webserver/RequestContext.java:205-207 | the value or null |
| RequestContextObjects.RequestContext.GetTemporaryParameterNames | src/hr/fer/zemris/webserver/RequestContext.java:212-214 | the key set |
| RequestContextObjects.RequestContext.SetTemporaryParameter | src/hr/fer/zemris/webserver/RequestContext.java:220-222 | puts the pair |
| RequestContextObjects.RequestContext.RemoveTemporaryParameter | src/hr/fer/zemris/webserver/RequestContext.java:227-229 | deletes the name |
| RequestContextObjects.RequestContext.SetTemporaryParameters | src/hr/fer/zemris/webserver/RequestContext.java:234-236 | replaces the map |
| RequestContextObjects.RequestContext.CheckIfHeaderWasGenerated | src/hr/fer/zemris/webserver/RequestContext.java:277-281 | fails exactly when the header was generated, with the message naming the property |
| RequestContextObjects.RequestContext.SetEncoding | src/hr/fer/zemris/webserver/RequestContext.java:243-246 | sets the field, or throws once the header exists and changes nothing; the context invariant is kept |
| RequestContextObjects.RequestContext.SetStatusCode | src/hr/fer/zemris/webserver/RequestContext.java:251-254 | sets the field, or throws once the header exists and changes nothing |
| RequestContextObjects.RequestContext.SetStatusText | src/hr/fer/zemris/webserver/RequestContext.java:259-262 | sets the field, or throws once the header exists and changes nothing |
| RequestContextObjects.RequestContext.SetMimeType | src/hr/fer/zemris/webserver/RequestContext.java:267-270 | sets the field, or throws once the header exists and changes nothing |
| EngineSpec.PopTop | src/hr/fer/zemris/custom/scripting/exec/SmartScriptEngine.java:97-98 | java.util.Stack.pop: EmptyStackException on an empty stack, otherwise the top and the rest below it |
| EngineSpec.PopString | src/hr/fer/zemris/custom/scripting/exec/SmartScriptEngine.java:142-147 | pops exactly one object; PopStringResult states the text and the failures |
| EngineSpec.ApplyOperator | src/hr/fer/zemris/custom/scripting/exec/SmartScriptEngine.java:94-115 | an empty stack throws EmptyStackException; a result replaces the two top objects with one and keeps the rest; IntegerOperator states the value |
| EngineSpec.ParamGet | src/hr/fer/zemris/custom/scripting/exec/SmartScriptEngine.java:145-174 | the getters never change the context; ParamGetResult states what they push |
| EngineSpec.ApplySwap | src/hr/fer/zemris/custom/scripting/exec/SmartScriptEngine.java:135-139 | swap never touches the context |
| EngineSpec.ApplyDup | src/hr/fer/zemris/custom/scripting/exec/SmartScriptEngine.java:131-133 | EmptyStackException on an empty stack, otherwise the top is pushed again and the context is untouched |
| EngineSpec.Texts | src/hr/fer/zemris/custom/scripting/exec/SmartScriptEngine.java:192-195 | every leftover value's toString, in stack order; a null value throws NullPointerException |
| EngineSpec.Iteration | src/hr/fer/zemris/custom/scripting/exec/SmartScriptEngine.java:66-74 | a pass that goes on needs a pass left of the fuel bound |
| EngineSpec.Bump | src/hr/fer/zemris/custom/scripting/exec/SmartScriptEngine.java:71-73 | the loop variable loses its top and, when the increment succeeds, gets the new value pushed back; other names are untouched |
| Engine.Reversed | src/hr/fer/zemris/custom/scripting/exec/SmartScriptEngine.java:192-195 | the sequence in reverse order |
| Engine.SmartScriptEngine.constructor | src/hr/fer/zemris/custom/scripting/exec/SmartScriptEngine.java:213-216 | empty variable stacks over the given document and context |
| Engine.SmartScriptEngine.Execute | src/hr/fer/zemris/custom/scripting/exec/SmartScriptEngine.java:221-223 | runs the document as EngineSpec.VisitNode; from empty variable stacks that is EngineSpec.Execute |
| Engine.SmartScriptEngine.VisitNode | src/hr/fer/zemris/custom/scripting/exec/SmartScriptEngine.java:36-52 | the visit of any node, as EngineSpec.VisitNode |
| Engine.SmartScriptEngine.VisitChildren | src/hr/fer/zemris/custom/scripting/exec/SmartScriptEngine.java:37-39 | children in index order, stopping at the first exception |
| Engine.SmartScriptEngine.VisitForLoop | src/hr/fer/zemris/custom/scripting/exec/SmartScriptEngine.java:58-77 | bounds from the tokens' text, push of the start value, then the loop and the final pop, as EngineSpec.ForLoop |
| Engine.SmartScriptEngine.LoopThenPop | src/hr/fer/zemris/custom/scripting/exec/SmartScriptEngine.java:66-76 | the loop, then the pop that removes the loop's binding |
| Engine.SmartScriptEngine.PopVariable | src/hr/fer/zemris/custom/scripting/exec/SmartScriptEngine.java:76-76 | the binding of the loop variable popped, as EngineSpec.PopVariable; a failed pop ends the visit with its exception |
| Engine.SmartScriptEngine.Loop | src/hr/fer/zemris/custom/scripting/exec/SmartScriptEngine.java:66-74 | passes while the current value compares at most the end, as EngineSpec.Loop |
| Engine.SmartScriptEngine.Iterate | src/hr/fer/zemris/custom/scripting/exec/SmartScriptEngine.java:66-74 | one test and pass of the while loop, as EngineSpec.Iteration |
| Engine.SmartScriptEngine.Advance | src/hr/fer/zemris/custom/scripting/exec/SmartScriptEngine.java:67-73 | the body, then the pop, increment and push, as EngineSpec.Advance |
| Engine.SmartScriptEngine.BumpPass | src/hr/fer/zemris/custom/scripting/exec/SmartScriptEngine.java:70-73 | as EngineSpec.BumpPass: the loop goes on with the bumped value, or stops with the exception of the pop or the increment |
| Engine.SmartScriptEngine.Bump | src/hr/fer/zemris/custom/scripting/exec/SmartScriptEngine.java:71-73 | the pop, increment and push on the multistack, as EngineSpec.Bump |
| Engine.SmartScriptEngine.VisitEcho | src/hr/fer/zemris/custom/scripting/exec/SmartScriptEngine.java:80-204 | evaluates the tokens, then writes the leftover values, as EngineSpec.EchoNode |
| Engine.SmartScriptEngine.PopTexts | src/hr/fer/zemris/custom/scripting/exec/SmartScriptEngine.java:192-195 | popping everything gives the values' texts top first, so reversed they are in push order |
| Engine.SmartScriptEngine.WriteTexts | src/hr/fer/zemris/custom/scripting/exec/SmartScriptEngine.java:197-203 | writes the reversed pops, that is the stack bottom to top |
| Engine.SmartScriptEngine.EvalToken | src/hr/fer/zemris/custom/scripting/exec/SmartScriptEngine.java:84-116 | one token on the echo stack, as EngineSpec.EvalToken over the current variable stacks |
| Engine.SmartScriptEngine.CallFunction | src/hr/fer/zemris/custom/scripting/exec/SmartScriptEngine.java:117-188 | one function token, as EngineSpec.ApplyFunction |
| EngineProps.ContentPush | src/hr/fer/zemris/custom/scripting/exec/ObjectMultistack.java:32-39 | a push adds the value on top of that name's stack and no other |
| EngineProps.ContentPop | src/hr/fer/zemris/custom/scripting/exec/ObjectMultistack.java:47-49 | a pop on a non-empty stack returns its top and removes only that |
| EngineProps.WriteAllReaches | src/hr/fer/zemris/custom/scripting/exec/SmartScriptEngine.java:197-203 | the echo writes change the context only through its public write operations |
| EngineProps.ParamSetReaches | src/hr/fer/zemris/custom/scripting/exec/SmartScriptEngine.java:159-180 | the setters change the context only through its public setters |
| EngineProps.ParamDelReaches | src/hr/fer/zemris/custom/scripting/exec/SmartScriptEngine.java:165-184 | the removers change the context only through its public removers |
| EngineProps.ClassifyIgnoresCase | src/hr/fer/zemris/custom/scripting/exec/SmartScriptEngine.java:120-186 | two function names equal ignoring case call the same built-in |
| EngineProps.ApplyFunctionReaches | src/hr/fer/zemris/custom/scripting/exec/SmartScriptEngine.java:117-188 | a function changes the context only through its public operations |
| EngineProps.ApplyBuiltinReaches | src/hr/fer/zemris/custom/scripting/exec/SmartScriptEngine.java:120-185 | the same for each built-in |
| EngineProps.EvalTokensReaches | src/hr/fer/zemris/custom/scripting/exec/SmartScriptEngine.java:84-190 | a whole tag's tokens change the context only through its public operations |
| EngineProps.EchoNodeProps | src/hr/fer/zemris/custom/scripting/exec/SmartScriptEngine.java:80-204 | an echo tag never changes the variable stacks and writes only through the context |
| EngineProps.VisitNodeProps | src/hr/fer/zemris/custom/scripting/exec/SmartScriptEngine.java:36-77 | a node visit changes the context only through its public operations, and one that completes leaves every name's stack as it was |
| EngineProps.ForLoopProps | src/hr/fer/zemris/custom/scripting/exec/SmartScriptEngine.java:58-77 | the same for a for loop: the final pop undoes the push of the loop variable |
| EngineProps.VisitChildrenProps | src/hr/fer/zemris/custom/scripting/exec/SmartScriptEngine.java:37-39 | the same for the children of a node in order |
| EngineProps.IterationTopChanged | src/hr/fer/zemris/custom/scripting/exec/SmartScriptEngine.java:71-73 | the pop and push after a body change only the top of the loop variable's stack |
| EngineProps.LoopProps | src/hr/fer/zemris/custom/scripting/exec/SmartScriptEngine.java:66-74 | while the loop runs, only the top of the loop variable's stack changes, and the context only through its operations |
| EngineProps.IterationProps | src/hr/fer/zemris/custom/scripting/exec/SmartScriptEngine.java:66-74 | a pass that goes on changes only that top; a pass that stops normally changes nothing |
| EngineProps.AdvanceProps | src/hr/fer/zemris/custom/scripting/exec/SmartScriptEngine.java:67-73 | the same for the body and the pop, increment, push |
| EngineProps.ExecuteKeepsContext | src/hr/fer/zemris/custom/scripting/exec/SmartScriptEngine.java:221-223 | a whole run keeps the context's invariant, and after the header nothing it does changes output already sent or the status code |
| EngineProps.SwapTwice | src/hr/fer/zemris/custom/scripting/exec/SmartScriptEngine.java:135-139 | swap exchanges the two top values and leaves the rest; swapping twice restores the stack |
| EngineProps.PopStringResult | src/hr/fer/zemris/custom/scripting/exec/SmartScriptEngine.java:142-147 | popping an argument: EmptyStackException on an empty stack, NullPointerException on null, otherwise the toString of the top and the stack below |
| EngineProps.IntegerWraps | src/hr/fer/zemris/custom/scripting/exec/SmartScriptEngine.java:96-97 | an Integer on the stack makes an INTEGER wrapper holding it |
| EngineProps.IntegerOperator | src/hr/fer/zemris/custom/scripting/exec/SmartScriptEngine.java:94-115 | on two Integers the top is the right operand and the one below the left; they are replaced by `left op right` in int arithmetic, and an unknown symbol leaves the left operand |
| EngineProps.OperandOrder | src/hr/fer/zemris/custom/scripting/exec/SmartScriptEngine.java:94-115 | with a below b on the stack, `-` pushes a - b |
| EngineProps.DivisionByZeroThrows | src/hr/fer/zemris/custom/scripting/exec/SmartScriptEngine.java:94-115 | an int division by zero throws ArithmeticException |
| EngineProps.DupCopiesTop | src/hr/fer/zemris/custom/scripting/exec/SmartScriptEngine.java:131-133 | dup pushes the top object again |
| EngineProps.ParamGetResult | src/hr/fer/zemris/custom/scripting/exec/SmartScriptEngine.java:145-174 | the getters pop the default, then the name, and push the stored value or the default; they fail exactly when one of the two objects is missing or null |
| EngineProps.ParamGetPushes | src/hr/fer/zemris/custom/scripting/exec/SmartScriptEngine.java:145-150 | with the name and then the default pushed, the getter leaves the stored value or the default |
| EngineProps.ParamSetResult | src/hr/fer/zemris/custom/scripting/exec/SmartScriptEngine.java:159-180 | the setters pop the name, then the value, and store the pair in the persistent or temporary map; they fail exactly when one of the two objects is missing or null |
| EngineProps.ParamSetStores | src/hr/fer/zemris/custom/scripting/exec/SmartScriptEngine.java:159-163 | with the value and then the name pushed, the setter stores the pair and leaves the stack below |
| EngineProps.ParamDelRemoves | src/hr/fer/zemris/custom/scripting/exec/SmartScriptEngine.java:165-168 | the removers pop the name and remove it from the persistent or temporary map |
| EngineProps.PersistentSetThenGet | src/hr/fer/zemris/custom/scripting/exec/SmartScriptEngine.java:152-168 | pparamget after pparamset of a name pushes the stored value; after pparamdel it pushes the default |
| EngineProps.UnknownFunctionPushesMessage | src/hr/fer/zemris/custom/scripting/exec/SmartScriptEngine.java:186-187 | an unknown function pushes "unknown function name: " and its name, and does not fail |
| EngineProps.VariableReadsInnermost | src/hr/fer/zemris/custom/scripting/exec/SmartScriptEngine.java:91-93 | with a name bound by nested loops a variable reads the innermost binding |
| EngineProps.ForLoopSkipsBody | src/hr/fer/zemris/custom/scripting/exec/SmartScriptEngine.java:64-76 | a loop whose start is past its end runs no pass: the context is unchanged and the stacks are as before |
| HttpServer.CheckRequest | src/hr/fer/zemris/webserver/SmartHttpServer.java:320-320 | an empty request list throws IndexOutOfBoundsException (get(0)); otherwise the verdict is CheckRequestLine of its first line |
| HttpServer.CheckRequestLine | src/hr/fer/zemris/webserver/SmartHttpServer.java:320-332 | accepted exactly when the line splits on ' ' into three fields, GET and HTTP/1.0 or HTTP/1.1; a rejection records the third field as the version when there were three fields, and no version otherwise |
| HttpServer.AcceptedLineShape | src/hr/fer/zemris/webserver/SmartHttpServer.java:320-332 | an accepted line is "GET target version" with a space-free target, followed by nothing but spaces |
| HttpServer.WellFormedLineAccepted | src/hr/fer/zemris/webserver/SmartHttpServer.java:320-332 | GET, a target without spaces and a known version are accepted as they are |
| HttpServer.FirstMalformed | src/hr/fer/zemris/webserver/SmartHttpServer.java:481-485 | the position of the first piece that does not split on '=' into exactly two parts |
| HttpServer.PutPiecesOutcome | src/hr/fer/zemris/webserver/SmartHttpServer.java:481-486 | parsing fails exactly when some piece is malformed, naming the first one, and the pieces before it are already in the map |
| HttpServer.PutPiecesLastWins | src/hr/fer/zemris/webserver/SmartHttpServer.java:481-486 | after parsing, a name holds the value of its last occurrence, or its earlier value when it does not occur |
| HttpServer.PutPiecesSnoc | src/hr/fer/zemris/webserver/SmartHttpServer.java:479-486 | one more piece is one more put |
| HttpServer.PairPieces | src/hr/fer/zemris/webserver/SmartHttpServer.java:479-481 | the name=value pieces of a query, in order |
| HttpServer.QueryRoundTrip | src/hr/fer/zemris/webserver/SmartHttpServer.java:479-486 | a query built from non-empty names and values without '=' and '&' parses back into exactly those puts |
| HttpServer.PutPiecesPairs | src/hr/fer/zemris/webserver/SmartHttpServer.java:479-486 | putting the pieces of pairs is putting the pairs |
| HttpServer.SplitTarget | src/hr/fer/zemris/webserver/SmartHttpServer.java:461-471 | the path is the text before the first '?' and the query the rest, so path + "?" + query gives the request back |
| HttpServer.ClientWorker.constructor | src/hr/fer/zemris/webserver/SmartHttpServer.java:293 | an empty parameter map |
| HttpServer.ClientWorker.ParseParameters | src/hr/fer/zemris/webserver/SmartHttpServer.java:479-486 | the map and outcome are PutPieces over the pieces of the '&' split |
| HttpServer.ClientWorker.ExtractPath | src/hr/fer/zemris/webserver/SmartHttpServer.java:461-471 | the path and map are ExtractPathFrom's |
| HttpServer.ExtractPathResult | src/hr/fer/zemris/webserver/SmartHttpServer.java:461-471 | no '?' gives the whole request and an untouched map; otherwise the path before it, or the error for the first malformed piece |
| HttpServer.SpaceRunEnd | src/hr/fer/zemris/webserver/SmartHttpServer.java:406 | the end of the maximal run of regex whitespace from a position |
| HttpServer.CookieBodyOfLine | src/hr/fer/zemris/webserver/SmartHttpServer.java:405-406 | "Cookie:", blanks, then a list that does not start with a blank leaves just the list |
| HttpServer.CookiePair | src/hr/fer/zemris/webserver/SmartHttpServer.java:408-411 | a piece without a second '=' part throws; otherwise a value without double quotes |
| HttpServer.CookiePairParts | src/hr/fer/zemris/webserver/SmartHttpServer.java:408-411 | the name is the text before the first '=', and the value is the next '='-separated piece with its double quotes removed |
| HttpServer.ScanLinesFlat | src/hr/fer/zemris/webserver/SmartHttpServer.java:404-418 | scanning line by line is scanning all cookies of the Cookie: lines in order |
| HttpServer.ScanCookiesAppend | src/hr/fer/zemris/webserver/SmartHttpServer.java:407-416 | the scan composes over consecutive cookie lists |
| HttpServer.ScanCookiesFails | src/hr/fer/zemris/webserver/SmartHttpServer.java:408-411 | the scan throws exactly when some cookie has no value part |
| HttpServer.ScanCookiesLastSid | src/hr/fer/zemris/webserver/SmartHttpServer.java:413-415 | otherwise the candidate is the value of the last cookie named sid, or stays as it was |
| HttpServer.LastSidUnquoted | src/hr/fer/zemris/webserver/SmartHttpServer.java:411 | the sid found never contains a double quote |
| HttpServer.SidCandidate | src/hr/fer/zemris/webserver/SmartHttpServer.java:404-418 | the loop over the header lines computes ScanLines |
| HttpServer.ScanCookieList | src/hr/fer/zemris/webserver/SmartHttpServer.java:407-416 | the loop over one line's cookies computes ScanCookies |
| HttpServer.ReasonPhrase | src/hr/fer/zemris/webserver/SmartHttpServer.java:509-521 | the phrase for 400, 403, 404 or any other code, non-empty and without line breaks |
| HttpServer.ErrorTextDeterminesCode | src/hr/fer/zemris/webserver/SmartHttpServer.java:506-522 | different 32-bit codes give different error texts |
| HttpServer.ErrorHeaderBroken | src/hr/fer/zemris/webserver/SmartHttpServer.java:506-526 | as written, the header's status line carries the whole error text, which ends with a bare line feed |
| HttpServer.CorrectedErrorHeaderFramed | src/hr/fer/zemris/webserver/SmartHttpServer.java:506-526 | with the reason phrase as status text the header ends with its one empty line and the error text is the body |

## Left out

- Engine.SmartScriptEngine.Loop: a `FOR` loop makes at most `fuel` passes and then ends the run with `OutOfFuel`. A loop that would not terminate in Java (a step of 0, or an end that 32-bit wrap-around never reaches) is therefore not modelled as divergence.
- ValueWrappers.PerformOperation: double arithmetic, `Math.sin`, `DecimalFormat` and `Double.toString` are parameters (`FloatOps`). Their IEEE 754 results are not modelled; only which arithmetic is chosen, and when, is.
- ValueWrappers.NumCompare: comparing doubles is the `FloatOps` comparison. Only the int comparison is stated in full (`ValueWrapperProps.CompareIntegers`).
- JavaNumbers.ParseInt: only ASCII digits are accepted; Integer.parseInt also accepts the other Unicode decimal digits (Character.digit).
- ValueWrappers.Equals: the argument is modelled as the object compared with, and a `ValueWrapper` argument as the value it holds. A wrapper argument that holds null, whose `hashCode` throws `NullPointerException` in Java, is not modelled.
- Collections.ObjectStack.Pop: exceptions are modelled by kind, so the message "Stack is already empty." of the EmptyStackException is not carried.
- JavaText.ToLower: `toLowerCase`, the case-insensitive `equalsIgnoreCase` by which the engine matches function names (`EngineSpec.Classify`), `Character.isLetter`, `isDigit` and `isWhitespace` are modelled on ASCII. Non-ASCII letters and Unicode white space are not recognised.
- Multistacks.ObjectMultistack.Push: the engine's variable stacks hold `ValueWrapper` values rather than references. The engine pops a wrapper, increments it and pushes it back, so no aliasing is lost. The in-place form of `ValueWrapper` is `WrapperObjects.Wrapper`.
- Parser.SmartScriptParser.Parse: the parser and the engine build and read nodes as values. The source adds a for-loop node to its parent before filling it. The model attaches it when `END` pops it, and the finished tree is the same. The in-place form of `Node`, with its lazily created children collection, is `NodeObjects.NodeObject`.
- ParserSpec.Rethrown: the message a caught JVM exception carries (`NullPointerException`, `ClassCastException`, string index errors) is not modelled. `ParserExceptionFrom` names the caught exception's kind instead.
- ParserSpec.ForTokens: a fifth element of a `FOR` tag overflows the four-slot array. The source throws `ArrayIndexOutOfBoundsException` there, which is modelled as its superclass `IndexOutOfBoundsException`. The same holds for the missing `cookie[1]` in `HttpServer.CookiePair`, and for `Multistacks.MultistackEntry.Push` on an entry of capacity 0, which the multistack never creates (its entries start at capacity 10).
- RequestContextObjects.RequestContext.WriteString: output is a sequence of chunks. Each chunk is a header, a string tagged with the charset it is encoded in, or raw bytes. Encoding a string into bytes, `Charset.forName` failing on an unknown encoding, and the `IOException` of the stream are not modelled.
- RequestContexts.AddRCCookie: an `RCCookie` is a value. A call to `setHttpOnly` on a cookie object after it was added is not reflected in the list.
- HttpServer.SidCandidate: only the scan of the `Cookie:` lines for `sid` is modelled. The session lookup, creation and expiry that follow it are not: they use the clock, a random generator and a shared map. `readRequest`, sockets, threads, `synchronized` and file serving are I/O and concurrency outside the model.
- HttpServer.ErrorHeaderBroken: closing the socket, and the `RuntimeException` when writing fails, are not modelled.
- Accessors that only return a field are the datatype's fields in the model: `getValue`, the `ForLoopNode` getters, `getTokens` and `getDocumentNode`. The visitor's double dispatch (`accept`, `INodeVisitor`) is a `match` on the node kind.
- The text of an echo or for-loop node (`asText`) is the function `Nodes.AsText`. Properties are stated only for how a document's text is built from its children.
- The demo programs, the workers (`HelloWorker`, `CircleWorker`, `EchoParams`), `IOUtil` and the server's configuration loading are not part of this model.

## Findings

| source | as written | input that shows it | evidently intended | confidence | as-written member | corrected member |
|---|---|---|---|---|---|---|
| src/hr/fer/zemris/webserver/SmartHttpServer.java:506-526 | the status text passed to `setStatusText` is the whole error text: version, code, phrase and a line feed | version `HTTP/1.1`, code 404: the header starts `HTTP/1.1 404 HTTP/1.1 404 File Not Found` followed by LF, CR, LF, so a client that accepts a bare LF as a line end sees the header end right after the status line | the reason phrase (`File Not Found`) as status text, the error text as the body | not executed; high | HttpServer.ErrorHeaderBroken | HttpServer.CorrectedErrorHeaderFramed |
