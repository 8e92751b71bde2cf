/**
 * The response sink (src/hr/fer/zemris/webserver/RequestContext.java): status, MIME type,
 * cookies and three parameter maps, and an output stream that receives the HTTP header
 * exactly once, in front of the first data written.
 *
 * `Response` is the whole state of a context as a value, and the functions over it say what
 * each operation does; the `RequestContext` class keeps the same state in fields and each of
 * its methods is proved to move `State()` as the matching function does.
 */
module RequestContexts {
  import opened Base
  import opened JavaText
  import opened JavaNumbers

  const LINE_SEP: string := "\r\n"

  /** A cookie for a Set-Cookie header line (section 4.1 of RFC 6265). */
  datatype RCCookie = RCCookie(name: string, value: string, maxAge: Option<int>,
                               domain: Option<string>, path: Option<string>, httpOnly: bool)

  /** The cookie constructor: HttpOnly starts off. */
  function NewCookie(name: string, value: string, maxAge: Option<int>, domain: Option<string>,
                     path: Option<string>): RCCookie {
    RCCookie(name, value, maxAge, domain, path, false)
  }

  function SetHttpOnly(c: RCCookie, httpOnly: bool): RCCookie {
    c.(httpOnly := httpOnly)
  }

  function Attribute(key: string, v: Option<string>): string {
    if v.Some? then "; " + key + "=" + v.value else ""
  }

  /** `name="value"`, then Domain, Path, Max-Age and HttpOnly when present, in that order. */
  function CookieText(c: RCCookie): string {
    c.name + "=\"" + c.value + "\""
      + Attribute("Domain", c.domain)
      + Attribute("Path", c.path)
      + (if c.maxAge.Some? then "; Max-Age=" + IntToString(c.maxAge.value) else "")
      + (if c.httpOnly then "; HttpOnly" else "")
  }

  /** What reaches the output stream, one write at a time (character encoding is not modelled). */
  datatype Chunk =
    | Header(text: string)                  // sent as ISO-8859-1
    | Text(text: string, charset: string)   // a string written through the context's charset
    | Bytes(data: seq<bv8>)                 // raw bytes

  datatype Response = Response(
    encoding: string,
    statusCode: int,
    statusText: string,
    mimeType: string,
    parameters: map<string, string>,
    temporaryParameters: map<string, string>,
    persistentParameters: map<string, string>,
    outputCookies: seq<RCCookie>,
    headerGenerated: bool,
    charset: Option<string>,
    output: seq<Chunk>)

  /** A fresh context: UTF-8, 200 OK, text/html; a null map or list becomes an empty one. */
  function Initial(parameters: Option<map<string, string>>, persistentParameters: Option<map<string, string>>,
                   outputCookies: Option<seq<RCCookie>>): Response {
    Response("UTF-8", 200, "OK", "text/html", parameters.GetOr(map[]), map[],
             persistentParameters.GetOr(map[]), outputCookies.GetOr([]), false, None, [])
  }

  // ----------------------------------------------------------------------------------------
  // The header

  /** The status line of section 3.1.2 of RFC 7230. */
  function StatusLine(r: Response): string {
    "HTTP/1.1 " + IntToString(r.statusCode) + " " + r.statusText
  }

  /** The charset parameter is added for text/ types only. */
  function ContentTypeLine(r: Response): string {
    "Content-type: " + r.mimeType + (if StartsWith(r.mimeType, "text/") then "; charset=" + r.encoding else "")
  }

  function CookieLines(cookies: seq<RCCookie>): (ls: seq<string>)
    ensures |ls| == |cookies|
    ensures forall i :: 0 <= i < |cookies| ==> ls[i] == "Set-Cookie: " + CookieText(cookies[i])
  {
    if cookies == [] then [] else ["Set-Cookie: " + CookieText(cookies[0])] + CookieLines(cookies[1..])
  }

  /** Each line followed by a line separator. */
  function Lines(ls: seq<string>): string {
    if ls == [] then "" else ls[0] + LINE_SEP + Lines(ls[1..])
  }

  function HeaderLines(r: Response): seq<string> {
    [StatusLine(r), ContentTypeLine(r)] + CookieLines(r.outputCookies)
  }

  /** The header's lines, then the empty line that ends it. */
  function HeaderText(r: Response): string {
    Lines(HeaderLines(r)) + LINE_SEP
  }

  // ----------------------------------------------------------------------------------------
  // Writing

  /** The state generateHeader leaves: the charset is fixed and the header counts as sent. */
  function HeaderGenerated(r: Response): Response {
    r.(charset := Some(r.encoding), headerGenerated := true)
  }

  /** One write: the header first if it has not been sent, then the data. */
  function Emit(r: Response, c: Chunk): Response {
    if r.headerGenerated then r.(output := r.output + [c])
    else HeaderGenerated(r).(output := r.output + [Header(HeaderText(r)), c])
  }

  function WriteBytes(r: Response, data: seq<bv8>): Response {
    Emit(r, Bytes(data))
  }

  /** The charset is looked up from the encoding on first use, and the data is encoded with it. */
  function WriteString(r: Response, data: string): Response {
    var cs := r.charset.GetOr(r.encoding);
    Emit(r.(charset := Some(cs)), Text(data, cs))
  }

  function AddRCCookie(r: Response, c: RCCookie): Response {
    r.(outputCookies := r.outputCookies + [c])
  }

  // ----------------------------------------------------------------------------------------
  // Header fields, frozen once the header is out

  function FrozenMessage(property: string): string {
    "You can't change '" + property + "' once the header has been created."
  }

  function CheckIfHeaderWasGenerated(r: Response, property: string): Outcome {
    if r.headerGenerated then Fail(RuntimeException(FrozenMessage(property))) else Pass
  }

  function SetEncoding(r: Response, encoding: string): Result<Response> {
    var check := CheckIfHeaderWasGenerated(r, "encoding");
    if check.Fail? then Err(check.error) else Ok(r.(encoding := encoding))
  }

  function SetStatusCode(r: Response, statusCode: int): Result<Response> {
    var check := CheckIfHeaderWasGenerated(r, "status code");
    if check.Fail? then Err(check.error) else Ok(r.(statusCode := statusCode))
  }

  function SetStatusText(r: Response, statusText: string): Result<Response> {
    var check := CheckIfHeaderWasGenerated(r, "status text");
    if check.Fail? then Err(check.error) else Ok(r.(statusText := statusText))
  }

  function SetMimeType(r: Response, mimeType: string): Result<Response> {
    var check := CheckIfHeaderWasGenerated(r, "mime");
    if check.Fail? then Err(check.error) else Ok(r.(mimeType := mimeType))
  }

  // ----------------------------------------------------------------------------------------
  // Parameters: a missing name reads as null

  function Get(m: map<string, string>, name: string): Option<string> {
    if name in m then Some(m[name]) else None
  }

  function GetParameter(r: Response, name: string): Option<string> {
    Get(r.parameters, name)
  }

  function GetPersistentParameter(r: Response, name: string): Option<string> {
    Get(r.persistentParameters, name)
  }

  function SetPersistentParameter(r: Response, name: string, value: string): Response {
    r.(persistentParameters := r.persistentParameters[name := value])
  }

  function RemovePersistentParameter(r: Response, name: string): Response {
    r.(persistentParameters := r.persistentParameters - {name})
  }

  function GetTemporaryParameter(r: Response, name: string): Option<string> {
    Get(r.temporaryParameters, name)
  }

  function SetTemporaryParameter(r: Response, name: string, value: string): Response {
    r.(temporaryParameters := r.temporaryParameters[name := value])
  }

  function RemoveTemporaryParameter(r: Response, name: string): Response {
    r.(temporaryParameters := r.temporaryParameters - {name})
  }

  /** The two setters that replace a whole map. */
  function SetPersistentParameters(r: Response, m: map<string, string>): Response {
    r.(persistentParameters := m)
  }

  function SetTemporaryParameters(r: Response, m: map<string, string>): Response {
    r.(temporaryParameters := m)
  }

  // ----------------------------------------------------------------------------------------
  // Sequences of operations

  datatype Op =
    | WriteStr(data: string)
    | WriteRaw(bytes: seq<bv8>)
    | SetEnc(encoding: string)
    | SetCode(statusCode: int)
    | SetText(statusText: string)
    | SetMime(mimeType: string)
    | AddCookie(cookie: RCCookie)
    | PutPersistent(name: string, value: string)
    | DelPersistent(name: string)
    | PutTemporary(name: string, value: string)
    | DelTemporary(name: string)
    | ReplacePersistent(m: map<string, string>)
    | ReplaceTemporary(m: map<string, string>)

  /** The state after one operation; a setter that throws leaves the state as it was. */
  function Apply(r: Response, op: Op): Response {
    match op
    case WriteStr(d) => WriteString(r, d)
    case WriteRaw(b) => WriteBytes(r, b)
    case SetEnc(e) => SetEncoding(r, e).GetOr(r)
    case SetCode(c) => SetStatusCode(r, c).GetOr(r)
    case SetText(t) => SetStatusText(r, t).GetOr(r)
    case SetMime(m) => SetMimeType(r, m).GetOr(r)
    case AddCookie(c) => AddRCCookie(r, c)
    case PutPersistent(n, v) => SetPersistentParameter(r, n, v)
    case DelPersistent(n) => RemovePersistentParameter(r, n)
    case PutTemporary(n, v) => SetTemporaryParameter(r, n, v)
    case DelTemporary(n) => RemoveTemporaryParameter(r, n)
    case ReplacePersistent(m) => SetPersistentParameters(r, m)
    case ReplaceTemporary(m) => SetTemporaryParameters(r, m)
  }

  function Run(r: Response, ops: seq<Op>): Response
    decreases |ops|
  {
    if ops == [] then r else Run(Apply(r, ops[0]), ops[1..])
  }

  /**
   * The sink's invariant: the stream holds something exactly when the header was generated,
   * the header is the first chunk and the only one, the charset is fixed to the encoding from
   * then on, and every string went out in that encoding.
   */
  ghost predicate Sane(r: Response) {
    && r.headerGenerated == (r.output != [])
    && (r.output != [] ==> r.output[0].Header?)
    && (forall i :: 0 < i < |r.output| ==> !r.output[i].Header?)
    && r.charset == (if r.headerGenerated then Some(r.encoding) else None)
    && (forall i :: 0 <= i < |r.output| && r.output[i].Text? ==> r.output[i].charset == r.encoding)
  }
}

/** What the sink promises, over any sequence of operations. */
module ResponseProps {
  import opened Base
  import opened JavaText
  import opened JavaNumbers
  import opened RequestContexts

  lemma InitialSane(parameters: Option<map<string, string>>, persistentParameters: Option<map<string, string>>,
                    outputCookies: Option<seq<RCCookie>>)
    ensures Sane(Initial(parameters, persistentParameters, outputCookies))
    ensures !Initial(parameters, persistentParameters, outputCookies).headerGenerated
  {
  }

  lemma EmitSane(r: Response, c: Chunk)
    requires Sane(r) && !c.Header? && (c.Text? ==> c.charset == r.encoding)
    ensures Sane(Emit(r, c))
  {
  }

  lemma ApplySane(r: Response, op: Op)
    requires Sane(r)
    ensures Sane(Apply(r, op))
  {
    match op
    case WriteStr(d) =>
      if r.headerGenerated {
        assert r.(charset := Some(r.charset.GetOr(r.encoding))) == r;
        EmitSane(r, Text(d, r.encoding));
      }
    case WriteRaw(b) => EmitSane(r, Bytes(b));
    case _ =>
  }

  /** No operation, in any order, sends a second header or data ahead of the header. */
  lemma {:induction false} RunSane(r: Response, ops: seq<Op>)
    requires Sane(r)
    ensures Sane(Run(r, ops))
    decreases |ops|
  {
    if ops != [] {
      ApplySane(r, ops[0]);
      RunSane(Apply(r, ops[0]), ops[1..]);
    }
  }

  lemma {:induction false} RunAppend(r: Response, ops1: seq<Op>, ops2: seq<Op>)
    ensures Run(r, ops1 + ops2) == Run(Run(r, ops1), ops2)
    decreases |ops1|
  {
    if ops1 != [] {
      assert (ops1 + ops2)[0] == ops1[0] && (ops1 + ops2)[1..] == ops1[1..] + ops2;
      RunAppend(Apply(r, ops1[0]), ops1[1..], ops2);
    } else {
      assert ops1 + ops2 == ops2;
    }
  }

  /** `r2` is a state the public operations can lead to from `r1`. */
  ghost predicate Reaches(r1: Response, r2: Response) {
    exists ops: seq<Op> :: Run(r1, ops) == r2
  }

  lemma ReachesRefl(r: Response)
    ensures Reaches(r, r)
  {
    assert Run(r, []) == r;
  }

  lemma ReachesStep(r1: Response, r2: Response, op: Op)
    requires Reaches(r1, r2)
    ensures Reaches(r1, Apply(r2, op))
  {
    var ops: seq<Op> :| Run(r1, ops) == r2;
    RunAppend(r1, ops, [op]);
    assert Run(r2, [op]) == Run(Apply(r2, op), []);
  }

  lemma ReachesTrans(r1: Response, r2: Response, r3: Response)
    requires Reaches(r1, r2) && Reaches(r2, r3)
    ensures Reaches(r1, r3)
  {
    var ops1: seq<Op> :| Run(r1, ops1) == r2;
    var ops2: seq<Op> :| Run(r2, ops2) == r3;
    RunAppend(r1, ops1, ops2);
  }

  /** Whatever the operations do, the sink stays sane and a generated header stays as it was. */
  lemma ReachesKeeps(r1: Response, r2: Response)
    requires Reaches(r1, r2) && Sane(r1)
    ensures Sane(r2)
    ensures r1.headerGenerated ==> |r2.output| >= |r1.output| && r2.output[..|r1.output|] == r1.output
    ensures r1.headerGenerated ==> r2.statusCode == r1.statusCode && r2.statusText == r1.statusText
    ensures r1.headerGenerated ==> r2.mimeType == r1.mimeType && r2.encoding == r1.encoding
  {
    var ops: seq<Op> :| Run(r1, ops) == r2;
    RunSane(r1, ops);
    if r1.headerGenerated {
      HeaderFrozen(r1, ops);
    }
  }

  /** The first write sends the header built from the state of that moment, then the data. */
  lemma FirstWrite(r: Response, c: Chunk)
    requires Sane(r) && !r.headerGenerated
    ensures Emit(r, c).output == [Header(HeaderText(r)), c]
    ensures Emit(r, c).headerGenerated
  {
  }

  /** Each header field can be set exactly until the header has been generated. */
  lemma SettersFrozen(r: Response, encoding: string, statusCode: int, statusText: string, mimeType: string)
    ensures SetEncoding(r, encoding).Ok? <==> !r.headerGenerated
    ensures SetStatusCode(r, statusCode).Ok? <==> !r.headerGenerated
    ensures SetStatusText(r, statusText).Ok? <==> !r.headerGenerated
    ensures SetMimeType(r, mimeType).Ok? <==> !r.headerGenerated
    ensures r.headerGenerated ==>
      && SetEncoding(r, encoding) == Err(RuntimeException(FrozenMessage("encoding")))
      && SetStatusCode(r, statusCode) == Err(RuntimeException(FrozenMessage("status code")))
      && SetStatusText(r, statusText) == Err(RuntimeException(FrozenMessage("status text")))
      && SetMimeType(r, mimeType) == Err(RuntimeException(FrozenMessage("mime")))
    ensures !r.headerGenerated ==>
      && SetEncoding(r, encoding).value.encoding == encoding
      && SetStatusCode(r, statusCode).value.statusCode == statusCode
      && SetStatusText(r, statusText).value.statusText == statusText
      && SetMimeType(r, mimeType).value.mimeType == mimeType
  {
  }

  /** One operation after the header: the stream only grows and the announced fields stay. */
  lemma ApplyAfterHeader(r: Response, op: Op)
    requires Sane(r) && r.headerGenerated
    ensures var r' := Apply(r, op);
      && r'.headerGenerated && |r'.output| >= |r.output| && r'.output[..|r.output|] == r.output
      && r'.statusCode == r.statusCode && r'.statusText == r.statusText
      && r'.mimeType == r.mimeType && r'.encoding == r.encoding
  {
    match op
    case WriteStr(d) =>
      assert r.(charset := Some(r.charset.GetOr(r.encoding))) == r;
      assert Apply(r, op).output == r.output + [Text(d, r.encoding)];
    case WriteRaw(b) =>
      assert Apply(r, op).output == r.output + [Bytes(b)];
    case _ =>
  }

  /**
   * Once the header is out, whatever follows leaves it first on the stream, only appends to
   * the stream, and never changes the fields the header announced.
   */
  lemma {:induction false} HeaderFrozen(r: Response, ops: seq<Op>)
    requires Sane(r) && r.headerGenerated
    ensures |Run(r, ops).output| >= |r.output|
    ensures Run(r, ops).output[..|r.output|] == r.output
    ensures Run(r, ops).output[0] == r.output[0]
    ensures Run(r, ops).statusCode == r.statusCode && Run(r, ops).statusText == r.statusText
    ensures Run(r, ops).mimeType == r.mimeType && Run(r, ops).encoding == r.encoding
    decreases |ops|
  {
    if ops != [] {
      var r' := Apply(r, ops[0]);
      ApplySane(r, ops[0]);
      ApplyAfterHeader(r, ops[0]);
      HeaderFrozen(r', ops[1..]);
      var o := Run(r', ops[1..]).output;
      assert o[..|r.output|] == o[..|r'.output|][..|r.output|];
    }
  }

  /** Put, remove and get on the two mutable maps, which never affect each other. */
  lemma ParameterMaps(r: Response, name: string, other: string, value: string)
    requires other != name
    ensures GetPersistentParameter(SetPersistentParameter(r, name, value), name) == Some(value)
    ensures GetPersistentParameter(RemovePersistentParameter(r, name), name) == None
    ensures GetPersistentParameter(SetPersistentParameter(r, name, value), other) == GetPersistentParameter(r, other)
    ensures GetPersistentParameter(RemovePersistentParameter(r, name), other) == GetPersistentParameter(r, other)
    ensures GetTemporaryParameter(SetTemporaryParameter(r, name, value), name) == Some(value)
    ensures GetTemporaryParameter(RemoveTemporaryParameter(r, name), name) == None
    ensures GetTemporaryParameter(SetTemporaryParameter(r, name, value), other) == GetTemporaryParameter(r, other)
    ensures GetTemporaryParameter(RemoveTemporaryParameter(r, name), other) == GetTemporaryParameter(r, other)
    ensures SetTemporaryParameter(r, name, value).persistentParameters == r.persistentParameters
    ensures SetPersistentParameter(r, name, value).temporaryParameters == r.temporaryParameters
    ensures SetPersistentParameter(r, name, value).parameters == r.parameters
  {
  }

  // ----------------------------------------------------------------------------------------
  // Header framing

  /** No carriage return and no line feed. */
  predicate NoBreaks(s: string) {
    forall i :: 0 <= i < |s| ==> s[i] != '\r' && s[i] != '\n'
  }

  predicate PlainLine(l: string) {
    |l| > 0 && NoBreaks(l)
  }

  /** An empty line, that is two line separators in a row, starts at index i of t. */
  predicate BlankAt(t: string, i: int) {
    0 <= i && i + 4 <= |t| && t[i..i + 4] == "\r\n\r\n"
  }

  /** In lines of text each ended by CRLF, plus one more CRLF, an empty line appears only at the end. */
  lemma {:induction false} BlankLineOnlyAtEnd(ls: seq<string>)
    requires forall j :: 0 <= j < |ls| ==> PlainLine(ls[j])
    ensures forall i :: BlankAt(Lines(ls) + LINE_SEP, i) ==> i + 4 == |Lines(ls) + LINE_SEP|
  {
    if ls != [] {
      var l := ls[0];
      var t' := Lines(ls[1..]) + LINE_SEP;
      var t := Lines(ls) + LINE_SEP;
      assert t == l + "\r\n" + t';
      BlankLineOnlyAtEnd(ls[1..]);
      forall i | BlankAt(t, i)
        ensures i + 4 == |t|
      {
        assert t[i] == '\r' && t[i + 1] == '\n' && t[i + 2] == '\r';
        assert i >= |l|;
        if i == |l| {
          assert ls[1..] == [];
          assert t' == LINE_SEP;
          assert |t| == |l| + 4;
        } else {
          assert i != |l| + 1 by { assert t[|l| + 1] == '\n'; }
          var k := i - |l| - 2;
          assert BlankAt(t', k) by { assert t'[k..k + 4] == t[i..i + 4]; }
          assert k + 4 == |t'|;
        }
      }
    }
  }

  lemma IntToStringNoBreaks(n: int)
    ensures NoBreaks(IntToString(n))
  {
    var s := NatToString(if n < 0 then -n else n);
    assert AllDigits(s);
  }

  /** The fields that go into the header, free of line breaks. */
  predicate PlainFields(r: Response) {
    && NoBreaks(r.statusText) && NoBreaks(r.mimeType) && NoBreaks(r.encoding)
    && forall c :: c in r.outputCookies ==>
         && NoBreaks(c.name) && NoBreaks(c.value)
         && (c.domain.Some? ==> NoBreaks(c.domain.value)) && (c.path.Some? ==> NoBreaks(c.path.value))
  }

  lemma NoBreaksConcat(a: string, b: string)
    requires NoBreaks(a) && NoBreaks(b)
    ensures NoBreaks(a + b)
  {
    forall i | 0 <= i < |a + b|
      ensures (a + b)[i] != '\r' && (a + b)[i] != '\n'
    {
      if i >= |a| {
        assert (a + b)[i] == b[i - |a|];
      }
    }
  }

  lemma CookieNoBreaks(c: RCCookie)
    requires NoBreaks(c.name) && NoBreaks(c.value)
    requires c.domain.Some? ==> NoBreaks(c.domain.value)
    requires c.path.Some? ==> NoBreaks(c.path.value)
    ensures NoBreaks(CookieText(c))
  {
    var s := c.name + "=\"";
    NoBreaksConcat(c.name, "=\"");
    NoBreaksConcat(s, c.value);
    s := s + c.value;
    NoBreaksConcat(s, "\"");
    s := s + "\"";
    if c.domain.Some? {
      NoBreaksConcat("; Domain=", c.domain.value);
    }
    NoBreaksConcat(s, Attribute("Domain", c.domain));
    s := s + Attribute("Domain", c.domain);
    if c.path.Some? {
      NoBreaksConcat("; Path=", c.path.value);
    }
    NoBreaksConcat(s, Attribute("Path", c.path));
    s := s + Attribute("Path", c.path);
    var age := if c.maxAge.Some? then "; Max-Age=" + IntToString(c.maxAge.value) else "";
    if c.maxAge.Some? {
      IntToStringNoBreaks(c.maxAge.value);
      NoBreaksConcat("; Max-Age=", IntToString(c.maxAge.value));
    }
    NoBreaksConcat(s, age);
    s := s + age;
    NoBreaksConcat(s, if c.httpOnly then "; HttpOnly" else "");
    assert CookieText(c) == s + (if c.httpOnly then "; HttpOnly" else "");
  }

  lemma StatusLinePlain(r: Response)
    requires NoBreaks(r.statusText)
    ensures PlainLine(StatusLine(r))
  {
    IntToStringNoBreaks(r.statusCode);
    NoBreaksConcat("HTTP/1.1 ", IntToString(r.statusCode));
    NoBreaksConcat("HTTP/1.1 " + IntToString(r.statusCode), " ");
    NoBreaksConcat("HTTP/1.1 " + IntToString(r.statusCode) + " ", r.statusText);
  }

  lemma ContentTypeLinePlain(r: Response)
    requires NoBreaks(r.mimeType) && NoBreaks(r.encoding)
    ensures PlainLine(ContentTypeLine(r))
  {
    var charset := if StartsWith(r.mimeType, "text/") then "; charset=" + r.encoding else "";
    NoBreaksConcat("; charset=", r.encoding);
    NoBreaksConcat("Content-type: ", r.mimeType);
    NoBreaksConcat("Content-type: " + r.mimeType, charset);
  }

  lemma CookieLinePlain(c: RCCookie)
    requires NoBreaks(c.name) && NoBreaks(c.value)
    requires c.domain.Some? ==> NoBreaks(c.domain.value)
    requires c.path.Some? ==> NoBreaks(c.path.value)
    ensures PlainLine("Set-Cookie: " + CookieText(c))
  {
    CookieNoBreaks(c);
    NoBreaksConcat("Set-Cookie: ", CookieText(c));
  }

  lemma CookieLinesPlain(r: Response)
    requires PlainFields(r)
    ensures forall j :: 0 <= j < |CookieLines(r.outputCookies)| ==> PlainLine(CookieLines(r.outputCookies)[j])
  {
    var ls := CookieLines(r.outputCookies);
    forall j | 0 <= j < |ls|
      ensures PlainLine(ls[j])
    {
      var c := r.outputCookies[j];
      assert c in r.outputCookies;
      CookieLinePlain(c);
    }
  }

  /** Every header line is non-empty and free of line breaks. */
  lemma HeaderLinesPlain(r: Response)
    requires PlainFields(r)
    ensures forall j :: 0 <= j < |HeaderLines(r)| ==> PlainLine(HeaderLines(r)[j])
  {
    var first := [StatusLine(r), ContentTypeLine(r)];
    var cs := CookieLines(r.outputCookies);
    StatusLinePlain(r);
    ContentTypeLinePlain(r);
    CookieLinesPlain(r);
    assert HeaderLines(r) == first + cs;
    forall j | 0 <= j < |first + cs|
      ensures PlainLine((first + cs)[j])
    {
      if j >= 2 {
        assert (first + cs)[j] == cs[j - 2];
      }
    }
  }

  lemma LinesPair(a: string, b: string)
    ensures Lines([a, b]) == a + LINE_SEP + b + LINE_SEP
  {
    assert [a, b][1..] == [b] && [b][1..] == [];
    assert Lines([b]) == b + LINE_SEP + Lines([]);
    assert Lines([a, b]) == a + LINE_SEP + Lines([b]);
  }

  lemma CookieLinesSnoc(cookies: seq<RCCookie>, i: nat)
    requires i < |cookies|
    ensures CookieLines(cookies[..i + 1]) == CookieLines(cookies[..i]) + ["Set-Cookie: " + CookieText(cookies[i])]
  {
    assert cookies[..i + 1][..i] == cookies[..i];
  }

  /**
   * The header ends with an empty line (section 3 of RFC 7230), and when no field carries a
   * line break that empty line is the first one: a reader that stops at it gets the whole header.
   */
  lemma HeaderFraming(r: Response)
    requires PlainFields(r)
    ensures EndsWith(HeaderText(r), "\r\n\r\n")
    ensures forall i :: BlankAt(HeaderText(r), i) ==> i + 4 == |HeaderText(r)|
  {
    var ls := HeaderLines(r);
    HeaderLinesPlain(r);
    BlankLineOnlyAtEnd(ls);
    LinesEnd(ls);
  }

  lemma {:induction false} LinesAppend(ls: seq<string>, l: string)
    ensures Lines(ls + [l]) == Lines(ls) + l + LINE_SEP
  {
    if ls != [] {
      assert (ls + [l])[1..] == ls[1..] + [l];
      LinesAppend(ls[1..], l);
    }
  }

  lemma {:induction false} LinesEnd(ls: seq<string>)
    requires ls != []
    ensures EndsWith(Lines(ls), LINE_SEP)
  {
    if ls[1..] != [] {
      LinesEnd(ls[1..]);
    }
  }
}

/**
 * The context as an object: the fields of RequestContext.java, updated in place, with the
 * output stream standing for the chunks written to it.
 */
module RequestContextObjects {
  import opened Base
  import opened JavaText
  import opened JavaNumbers
  import R = RequestContexts
  import ResponseProps

  class RequestContext {
    var output: seq<R.Chunk>
    var charset: Option<string>
    var encoding: string
    var statusCode: int
    var statusText: string
    var mimeType: string
    var parameters: map<string, string>
    var temporaryParameters: map<string, string>
    var persistentParameters: map<string, string>
    var outputCookies: seq<R.RCCookie>
    var headerGenerated: bool

    /** The fields as one value. */
    function State(): R.Response
      reads this
    {
      R.Response(encoding, statusCode, statusText, mimeType, parameters, temporaryParameters,
                 persistentParameters, outputCookies, headerGenerated, charset, output)
    }

    ghost predicate Valid()
      reads this
    {
      R.Sane(State())
    }

    constructor Init(parameters: Option<map<string, string>>, persistentParameters: Option<map<string, string>>,
                     outputCookies: Option<seq<R.RCCookie>>)
      ensures Valid()
      ensures State() == R.Initial(parameters, persistentParameters, outputCookies)
    {
      output := [];
      charset := None;
      encoding := "UTF-8";
      statusCode := 200;
      statusText := "OK";
      mimeType := "text/html";
      temporaryParameters := map[];
      headerGenerated := false;
      this.parameters := if parameters.Some? then parameters.value else map[];
      this.persistentParameters := if persistentParameters.Some? then persistentParameters.value else map[];
      this.outputCookies := if outputCookies.Some? then outputCookies.value else [];
    }

    /** The public constructor, which refuses a missing output stream. */
    static method New(hasOutputStream: bool, parameters: Option<map<string, string>>,
                      persistentParameters: Option<map<string, string>>, outputCookies: Option<seq<R.RCCookie>>)
      returns (r: Result<RequestContext>)
      ensures r.Err? <==> !hasOutputStream
      ensures r.Err? ==> r.error == IllegalArgumentException
      ensures r.Ok? ==> fresh(r.value) && r.value.Valid()
      ensures r.Ok? ==> r.value.State() == R.Initial(parameters, persistentParameters, outputCookies)
    {
      if !hasOutputStream {
        return Err(IllegalArgumentException);
      }
      var c := new RequestContext.Init(parameters, persistentParameters, outputCookies);
      return Ok(c);
    }

    /** Writes a string in the context's charset, which the first such write fixes. */
    method WriteString(data: string)
      requires Valid()
      modifies this
      ensures Valid()
      ensures State() == R.WriteString(old(State()), data)
    {
      if charset.None? {
        charset := Some(encoding);
      }
      Write(R.Text(data, charset.value));
    }

    method WriteBytes(data: seq<bv8>)
      requires Valid()
      modifies this
      ensures Valid()
      ensures State() == R.WriteBytes(old(State()), data)
    {
      ResponseProps.EmitSane(State(), R.Bytes(data));
      Write(R.Bytes(data));
    }

    /** The header goes out in front of the first write. */
    method Write(c: R.Chunk)
      modifies this
      ensures State() == R.Emit(old(State()), c)
    {
      if !headerGenerated {
        var header := GenerateHeader();
        output := output + [R.Header(header)];
      }
      output := output + [c];
    }

    /** Builds the header from the current fields, then fixes the charset and marks the header sent. */
    method GenerateHeader() returns (header: string)
      modifies this
      ensures header == R.HeaderText(old(State()))
      ensures State() == R.HeaderGenerated(old(State()))
    {
      ghost var r0 := State();
      var status := "HTTP/1.1 " + IntToString(statusCode) + " " + statusText;
      var contentType := "Content-type: " + mimeType;
      if StartsWith(mimeType, "text/") {
        contentType := contentType + "; charset=" + encoding;
      }
      assert status == R.StatusLine(r0) && contentType == R.ContentTypeLine(r0);
      header := status + R.LINE_SEP + contentType + R.LINE_SEP;
      ghost var first := [status, contentType];
      ResponseProps.LinesPair(status, contentType);
      var cookies := outputCookies;
      assert first + R.CookieLines(cookies[..0]) == first;
      for i := 0 to |cookies|
        modifies {}
        invariant header == R.Lines(first + R.CookieLines(cookies[..i]))
      {
        var line := "Set-Cookie: " + R.CookieText(cookies[i]);
        ghost var before := first + R.CookieLines(cookies[..i]);
        header := header + line + R.LINE_SEP;
        ResponseProps.LinesAppend(before, line);
        ResponseProps.CookieLinesSnoc(cookies, i);
        assert first + R.CookieLines(cookies[..i + 1]) == before + [line];
      }
      assert cookies[..|cookies|] == cookies;
      header := header + R.LINE_SEP;
      charset := Some(encoding);
      headerGenerated := true;
    }

    method AddRCCookie(cookie: R.RCCookie)
      requires Valid()
      modifies this
      ensures Valid()
      ensures State() == R.AddRCCookie(old(State()), cookie)
    {
      outputCookies := outputCookies + [cookie];
    }

    method GetParameter(name: string) returns (v: Option<string>)
      ensures v == R.GetParameter(State(), name)
    {
      v := if name in parameters then Some(parameters[name]) else None;
    }

    method GetParameterNames() returns (names: set<string>)
      ensures names == State().parameters.Keys
    {
      names := parameters.Keys;
    }

    method GetPersistentParameter(name: string) returns (v: Option<string>)
      ensures v == R.GetPersistentParameter(State(), name)
    {
      v := if name in persistentParameters then Some(persistentParameters[name]) else None;
    }

    method GetPersistentParameterNames() returns (names: set<string>)
      ensures names == State().persistentParameters.Keys
    {
      names := persistentParameters.Keys;
    }

    method SetPersistentParameter(name: string, value: string)
      requires Valid()
      modifies this
      ensures Valid()
      ensures State() == R.SetPersistentParameter(old(State()), name, value)
    {
      persistentParameters := persistentParameters[name := value];
    }

    method RemovePersistentParameter(name: string)
      requires Valid()
      modifies this
      ensures Valid()
      ensures State() == R.RemovePersistentParameter(old(State()), name)
    {
      persistentParameters := persistentParameters - {name};
    }

    method SetPersistentParameters(m: map<string, string>)
      requires Valid()
      modifies this
      ensures Valid()
      ensures State() == R.SetPersistentParameters(old(State()), m)
    {
      persistentParameters := m;
    }

    method GetTemporaryParameter(name: string) returns (v: Option<string>)
      ensures v == R.GetTemporaryParameter(State(), name)
    {
      v := if name in temporaryParameters then Some(temporaryParameters[name]) else None;
    }

    method GetTemporaryParameterNames() returns (names: set<string>)
      ensures names == State().temporaryParameters.Keys
    {
      names := temporaryParameters.Keys;
    }

    method SetTemporaryParameter(name: string, value: string)
      requires Valid()
      modifies this
      ensures Valid()
      ensures State() == R.SetTemporaryParameter(old(State()), name, value)
    {
      temporaryParameters := temporaryParameters[name := value];
    }

    method RemoveTemporaryParameter(name: string)
      requires Valid()
      modifies this
      ensures Valid()
      ensures State() == R.RemoveTemporaryParameter(old(State()), name)
    {
      temporaryParameters := temporaryParameters - {name};
    }

    method SetTemporaryParameters(m: map<string, string>)
      requires Valid()
      modifies this
      ensures Valid()
      ensures State() == R.SetTemporaryParameters(old(State()), m)
    {
      temporaryParameters := m;
    }

    /** Fails, naming the property, once the header has been generated. */
    method CheckIfHeaderWasGenerated(property: string) returns (o: Outcome)
      ensures o == R.CheckIfHeaderWasGenerated(State(), property)
      ensures o.Fail? <==> headerGenerated
    {
      if headerGenerated {
        return Fail(RuntimeException(R.FrozenMessage(property)));
      }
      return Pass;
    }

    method SetEncoding(encoding: string) returns (o: Outcome)
      requires Valid()
      modifies this
      ensures Valid()
      ensures var r := R.SetEncoding(old(State()), encoding);
        && (o.Pass? <==> r.Ok?) && (o.Fail? ==> o.error == r.error) && State() == r.GetOr(old(State()))
    {
      o := CheckIfHeaderWasGenerated("encoding");
      if o.Fail? {
        return;
      }
      this.encoding := encoding;
    }

    method SetStatusCode(statusCode: int) returns (o: Outcome)
      requires Valid()
      modifies this
      ensures Valid()
      ensures var r := R.SetStatusCode(old(State()), statusCode);
        && (o.Pass? <==> r.Ok?) && (o.Fail? ==> o.error == r.error) && State() == r.GetOr(old(State()))
    {
      o := CheckIfHeaderWasGenerated("status code");
      if o.Fail? {
        return;
      }
      this.statusCode := statusCode;
    }

    method SetStatusText(statusText: string) returns (o: Outcome)
      requires Valid()
      modifies this
      ensures Valid()
      ensures var r := R.SetStatusText(old(State()), statusText);
        && (o.Pass? <==> r.Ok?) && (o.Fail? ==> o.error == r.error) && State() == r.GetOr(old(State()))
    {
      o := CheckIfHeaderWasGenerated("status text");
      if o.Fail? {
        return;
      }
      this.statusText := statusText;
    }

    method SetMimeType(mimeType: string) returns (o: Outcome)
      requires Valid()
      modifies this
      ensures Valid()
      ensures var r := R.SetMimeType(old(State()), mimeType);
        && (o.Pass? <==> r.Ok?) && (o.Fail? ==> o.error == r.error) && State() == r.GetOr(old(State()))
    {
      o := CheckIfHeaderWasGenerated("mime");
      if o.Fail? {
        return;
      }
      this.mimeType := mimeType;
    }
  }
}
