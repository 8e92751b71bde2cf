/**
 * The string handling of a client worker of the server
 * (src/hr/fer/zemris/webserver/SmartHttpServer.java): the request-line check, the split of
 * the requested path from its query and the parsing of the query into the `params` map, the
 * scan of the `Cookie:` header lines for a session id, and the text of an error response.
 */
module HttpServer {
  import opened Base
  import opened JavaText
  import opened JavaNumbers
  import R = RequestContexts
  import P = ResponseProps

  const BAD_REQUEST: int := 400
  const FORBIDDEN: int := 403
  const FILE_NOT_FOUND: int := 404

  // ----------------------------------------------------------------------------------------
  // The request line

  /** The three fields of an accepted request line (section 3.1.1 of RFC 7230). */
  datatype RequestLine = RequestLine(verb: string, target: string, version: string)

  /**
   * The verdict on the first line of a request. A rejected line answers 400, naming the
   * version the worker has recorded by then: none when the line did not have three fields.
   */
  datatype LineCheck = Accepted(line: RequestLine) | Rejected(version: Option<string>)

  predicate KnownVersion(v: string) {
    v == "HTTP/1.0" || v == "HTTP/1.1"
  }

  /** The line is split on single spaces; three fields, GET and a known version are accepted. */
  function CheckRequestLine(first: string): (r: LineCheck)
    ensures var fields := Split(first, ' ');
      && (r.Accepted? <==> |fields| == 3 && fields[0] == "GET" && KnownVersion(fields[2]))
      && (r.Accepted? ==> r.line == RequestLine(fields[0], fields[1], fields[2]))
      && (r.Rejected? ==> r.version == if |fields| == 3 then Some(fields[2]) else None)
  {
    var fields := Split(first, ' ');
    if |fields| != 3 then Rejected(None)
    else if fields[0] != "GET" || !KnownVersion(fields[2]) then Rejected(Some(fields[2]))
    else Accepted(RequestLine(fields[0], fields[1], fields[2]))
  }

  /**
   * The worker reads the first line of the request list with get(0): a request whose list is
   * empty (the first line was empty or the stream had ended) throws IndexOutOfBoundsException
   * and no response is sent; otherwise its first line is checked.
   */
  function CheckRequest(request: seq<string>): (r: Result<LineCheck>)
    ensures r.Err? <==> request == []
    ensures r.Err? ==> r.error == IndexOutOfBoundsException
    ensures r.Ok? ==> r.value == CheckRequestLine(request[0])
    ensures r.Ok? ==> var fields := Split(request[0], ' ');
      && (r.value.Accepted? <==> |fields| == 3 && fields[0] == "GET" && KnownVersion(fields[2]))
      && (r.value.Accepted? ==> r.value.line == RequestLine(fields[0], fields[1], fields[2]))
  {
    if request == [] then Err(IndexOutOfBoundsException) else Ok(CheckRequestLine(request[0]))
  }

  /**
   * An accepted line is its three fields, each free of spaces, separated by one space, and
   * followed by nothing but spaces.
   */
  lemma AcceptedLineShape(first: string)
    requires CheckRequestLine(first).Accepted?
    ensures var l := CheckRequestLine(first).line;
      var text := l.verb + " " + l.target + " " + l.version;
      && l.verb == "GET" && KnownVersion(l.version) && ' ' !in l.target
      && |text| <= |first| && first[..|text|] == text
      && forall i :: |text| <= i < |first| ==> first[i] == ' '
  {
    var fields := Split(first, ' ');
    SplitLosesTrailingDelimiters(first, ' ');
    assert fields[1..][1..] == [fields[2]];
    assert Join(fields[1..], ' ') == fields[1] + [' '] + Join([fields[2]], ' ');
    assert Join(fields, ' ') == fields[0] + [' '] + (fields[1] + [' '] + fields[2]);
  }

  /** Conversely, GET, a target without spaces and a known version are accepted as they are. */
  lemma WellFormedLineAccepted(target: string, version: string)
    requires ' ' !in target && KnownVersion(version)
    ensures CheckRequestLine("GET " + target + " " + version) == Accepted(RequestLine("GET", target, version))
  {
    var fields := ["GET", target, version];
    SplitJoin(fields, ' ');
    assert fields[1..][1..] == [version];
    assert Join(fields[1..], ' ') == target + [' '] + Join([version], ' ');
    assert Join(fields, ' ') == "GET " + target + " " + version;
  }

  // ----------------------------------------------------------------------------------------
  // The query string

  /** The parameters map after parsing, and whether parsing failed. */
  datatype Parsed = Parsed(params: map<string, string>, outcome: Outcome)

  /** A query piece is accepted when it splits on `=` into exactly a name and a value. */
  predicate WellFormedPiece(piece: string) {
    |Split(piece, '=')| == 2
  }

  function ParameterFormatError(piece: string): Exception {
    RuntimeException("Wrong parameter format: " + piece)
  }

  /** The pieces put into the map in order; the first malformed one stops with an exception. */
  function PutPieces(params: map<string, string>, pieces: seq<string>): Parsed
    decreases pieces
  {
    if pieces == [] then Parsed(params, Pass)
    else
      var nameValue := Split(pieces[0], '=');
      if |nameValue| != 2 then Parsed(params, Fail(ParameterFormatError(pieces[0])))
      else PutPieces(params[nameValue[0] := nameValue[1]], pieces[1..])
  }

  /** The index of the first malformed piece, or the number of pieces when there is none. */
  function FirstMalformed(pieces: seq<string>): (k: nat)
    ensures k <= |pieces|
    ensures forall i :: 0 <= i < k ==> WellFormedPiece(pieces[i])
    ensures k < |pieces| ==> !WellFormedPiece(pieces[k])
  {
    if pieces == [] || !WellFormedPiece(pieces[0]) then 0 else FirstMalformed(pieces[1..]) + 1
  }

  /** The value of the last well-formed piece naming `name`, if any. */
  function LastValue(pieces: seq<string>, name: string): Option<string>
  {
    if pieces == [] then None
    else
      var nameValue := Split(pieces[|pieces| - 1], '=');
      if |nameValue| == 2 && nameValue[0] == name then Some(nameValue[1])
      else LastValue(pieces[..|pieces| - 1], name)
  }

  /**
   * Parsing fails exactly when some piece is malformed, with the message naming the first
   * such piece; the pieces before it have been put all the same.
   */
  lemma {:induction false} PutPiecesOutcome(params: map<string, string>, pieces: seq<string>)
    decreases pieces
    ensures var k := FirstMalformed(pieces);
      && (PutPieces(params, pieces).outcome.Fail? <==> k < |pieces|)
      && (k < |pieces| ==> PutPieces(params, pieces).outcome == Fail(ParameterFormatError(pieces[k])))
      && PutPieces(params, pieces).params == PutPieces(params, pieces[..k]).params
  {
    if pieces != [] && WellFormedPiece(pieces[0]) {
      var nameValue := Split(pieces[0], '=');
      var k := FirstMalformed(pieces);
      PutPiecesOutcome(params[nameValue[0] := nameValue[1]], pieces[1..]);
      assert pieces[..k][0] == pieces[0] && pieces[..k][1..] == pieces[1..][..k - 1];
    }
  }

  /**
   * After well-formed pieces, a name maps to the value of its last piece; a name no piece
   * mentions keeps its old value, or stays absent.
   */
  lemma {:induction false} PutPiecesLastWins(params: map<string, string>, pieces: seq<string>, name: string)
    requires forall i :: 0 <= i < |pieces| ==> WellFormedPiece(pieces[i])
    ensures var m := PutPieces(params, pieces).params;
      && (name in m <==> LastValue(pieces, name).Some? || name in params)
      && (name in m ==> m[name] == if LastValue(pieces, name).Some? then LastValue(pieces, name).value else params[name])
    decreases |pieces|
  {
    if pieces != [] {
      var last := pieces[|pieces| - 1];
      var init := pieces[..|pieces| - 1];
      PutPiecesSnoc(params, init, last);
      assert init + [last] == pieces;
      PutPiecesLastWins(params, init, name);
    }
  }

  /** Putting one more well-formed piece after the others. */
  lemma {:induction false} PutPiecesSnoc(params: map<string, string>, pieces: seq<string>, piece: string)
    requires forall i :: 0 <= i < |pieces| ==> WellFormedPiece(pieces[i])
    requires WellFormedPiece(piece)
    ensures var nameValue := Split(piece, '=');
      PutPieces(params, pieces + [piece]) ==
        Parsed(PutPieces(params, pieces).params[nameValue[0] := nameValue[1]], Pass)
    decreases pieces
  {
    if pieces == [] {
      assert [piece][1..] == [];
    } else {
      var nameValue := Split(pieces[0], '=');
      assert (pieces + [piece])[0] == pieces[0] && (pieces + [piece])[1..] == pieces[1..] + [piece];
      PutPiecesSnoc(params[nameValue[0] := nameValue[1]], pieces[1..], piece);
    }
  }

  /** A query built from name=value pairs, joined with `&`. */
  function Query(pairs: seq<(string, string)>): string
  {
    Join(PairPieces(pairs), '&')
  }

  function PairPieces(pairs: seq<(string, string)>): (r: seq<string>)
    ensures |r| == |pairs|
    ensures forall i :: 0 <= i < |pairs| ==> r[i] == pairs[i].0 + "=" + pairs[i].1
  {
    if pairs == [] then [] else [pairs[0].0 + "=" + pairs[0].1] + PairPieces(pairs[1..])
  }

  /** Names and values that parse back as they are: no `&` or `=`, and a value that is not empty. */
  predicate PlainPair(p: (string, string)) {
    '&' !in p.0 && '=' !in p.0 && '&' !in p.1 && '=' !in p.1 && p.1 != ""
  }

  /** The map with the pairs put in order. */
  function PutPairs(params: map<string, string>, pairs: seq<(string, string)>): map<string, string>
    decreases pairs
  {
    if pairs == [] then params else PutPairs(params[pairs[0].0 := pairs[0].1], pairs[1..])
  }

  /** Parsing a query built from plain pairs puts exactly those pairs and does not fail. */
  lemma QueryRoundTrip(params: map<string, string>, pairs: seq<(string, string)>)
    requires pairs != [] && forall i :: 0 <= i < |pairs| ==> PlainPair(pairs[i])
    ensures PutPieces(params, Split(Query(pairs), '&')) == Parsed(PutPairs(params, pairs), Pass)
  {
    var pieces := PairPieces(pairs);
    forall i | 0 <= i < |pieces|
      ensures '&' !in pieces[i]
    {
      assert pieces[i] == pairs[i].0 + "=" + pairs[i].1;
    }
    var last := pairs[|pairs| - 1];
    assert pieces[|pieces| - 1] == last.0 + "=" + last.1;
    SplitJoin(pieces, '&');
    PutPiecesPairs(params, pairs);
  }

  lemma {:induction false} PutPiecesPairs(params: map<string, string>, pairs: seq<(string, string)>)
    requires forall i :: 0 <= i < |pairs| ==> PlainPair(pairs[i])
    ensures PutPieces(params, PairPieces(pairs)) == Parsed(PutPairs(params, pairs), Pass)
    decreases pairs
  {
    if pairs != [] {
      var p := pairs[0];
      assert PlainPair(p);
      SplitJoin([p.0, p.1], '=');
      assert Join([p.0, p.1], '=') == p.0 + "=" + p.1;
      PutPiecesPairs(params[p.0 := p.1], pairs[1..]);
      assert PairPieces(pairs)[1..] == PairPieces(pairs[1..]);
    }
  }

  /** The path and, after the first `?`, the query string. */
  datatype Target = Target(path: string, query: Option<string>)

  /** The requested path split at its first `?`. */
  function SplitTarget(request: string): (r: Target)
    ensures '?' !in r.path
    ensures request == r.path + (if r.query.Some? then "?" + r.query.value else "")
    ensures r.query.None? <==> '?' !in request
  {
    var indexOfSplit := IndexOf(request, '?');
    if indexOfSplit == -1 then Target(request, None)
    else
      assert request == request[..indexOfSplit] + [request[indexOfSplit]] + request[indexOfSplit + 1..];
      Target(request[..indexOfSplit], Some(request[indexOfSplit + 1..]))
  }

  /** A client worker's parameter map, filled from the query of the requested path. */
  class ClientWorker {
    var params: map<string, string>

    constructor ()
      ensures params == map[]
    {
      params := map[];
    }

    /** parseParameters: each `&`-separated piece is put as name=value; a malformed piece throws. */
    method ParseParameters(paramString: string) returns (outcome: Outcome)
      modifies this
      ensures Parsed(params, outcome) == PutPieces(old(params), Split(paramString, '&'))
    {
      var parameters := Split(paramString, '&');
      for i := 0 to |parameters|
        invariant PutPieces(old(params), parameters) == PutPieces(params, parameters[i..])
      {
        var sSplit := Split(parameters[i], '=');
        if |sSplit| != 2 {
          return Fail(ParameterFormatError(parameters[i]));
        }
        params := params[sSplit[0] := sSplit[1]];
        assert parameters[i..][1..] == parameters[i + 1..];
      }
      outcome := Pass;
    }

    /** extractPath: the path before the first `?`; the rest, if any, is parsed into the map. */
    method ExtractPath(request: string) returns (path: Result<string>)
      modifies this
      ensures Extracted(path, params) == ExtractPathFrom(old(params), request)
    {
      var indexOfSplit := IndexOf(request, '?');
      if indexOfSplit == -1 {
        return Ok(request);
      }
      var outcome := ParseParameters(request[indexOfSplit + 1..]);
      if outcome.Fail? {
        return Err(outcome.error);
      }
      path := Ok(request[..indexOfSplit]);
    }
  }

  /** The path extractPath returns, or the exception it throws, and the parameters map it leaves. */
  datatype Extracted = Extracted(path: Result<string>, params: map<string, string>)

  function ExtractPathFrom(params: map<string, string>, request: string): Extracted
  {
    var indexOfSplit := IndexOf(request, '?');
    if indexOfSplit == -1 then Extracted(Ok(request), params)
    else
      var parsed := PutPieces(params, Split(request[indexOfSplit + 1..], '&'));
      Extracted(if parsed.outcome.Pass? then Ok(request[..indexOfSplit]) else Err(parsed.outcome.error), parsed.params)
  }

  /**
   * A request without `?` is its own path and leaves the map alone. Otherwise the path before
   * the first `?` is returned when every piece of the query is well formed; the first malformed
   * piece is named by the exception; either way the pieces before it are in the map.
   */
  lemma ExtractPathResult(params: map<string, string>, request: string)
    ensures var t, e := SplitTarget(request), ExtractPathFrom(params, request);
      && (t.query.None? ==> e == Extracted(Ok(request), params))
      && (t.query.Some? ==>
            var pieces := Split(t.query.value, '&');
            var k := FirstMalformed(pieces);
            && (e.path.Ok? <==> k == |pieces|)
            && (e.path.Ok? ==> e.path.value == t.path)
            && (e.path.Err? ==> e.path.error == ParameterFormatError(pieces[k]))
            && e.params == PutPieces(params, pieces[..k]).params)
  {
    var t := SplitTarget(request);
    if t.query.Some? {
      PutPiecesOutcome(params, Split(t.query.value, '&'));
    }
  }

  // ----------------------------------------------------------------------------------------
  // The session id

  /** `\s` of java.util.regex: space, tab, line feed, vertical tab, form feed, carriage return. */
  predicate RegexSpace(c: char) {
    c == ' ' || c == '\t' || c == '\n' || c == '\U{0B}' || c == '\U{0C}' || c == '\r'
  }

  /** The end of the run of `\s` characters starting at `j`. */
  function SpaceRunEnd(s: string, j: nat): (k: nat)
    requires j <= |s|
    ensures j <= k <= |s|
    ensures forall i :: j <= i < k ==> RegexSpace(s[i])
    ensures k < |s| ==> !RegexSpace(s[k])
    decreases |s| - j
  {
    if j < |s| && RegexSpace(s[j]) then SpaceRunEnd(s, j + 1) else j
  }

  /**
   * `replaceFirst("Cookie:\\s+", "")`: the leftmost `Cookie:` followed by at least one `\s`
   * character is removed together with the whole run of them; without a match nothing changes.
   */
  function CookieBody(s: string): string {
    ReplaceCookieFrom(s, 0)
  }

  function ReplaceCookieFrom(s: string, i: nat): string
    decreases |s| - i
  {
    if i + 8 > |s| then s
    else if s[i..i + 7] == "Cookie:" && RegexSpace(s[i + 7]) then s[..i] + s[SpaceRunEnd(s, i + 8)..]
    else ReplaceCookieFrom(s, i + 1)
  }

  /** A `Cookie:` line with its prefix and the blanks after it removed leaves the cookie list. */
  lemma CookieBodyOfLine(blanks: string, list: string)
    requires blanks != [] && forall i :: 0 <= i < |blanks| ==> RegexSpace(blanks[i])
    requires list == [] || !RegexSpace(list[0])
    ensures CookieBody("Cookie:" + blanks + list) == list
  {
    var s := "Cookie:" + blanks + list;
    assert s[..7] == "Cookie:" && s[7] == blanks[0];
    var k := 7 + |blanks|;
    assert forall i :: 8 <= i < k ==> s[i] == blanks[i - 7];
    if k < |s| {
      assert s[k] == list[0];
    }
    assert SpaceRunEnd(s, 8) == k by {
      SpaceRunReaches(s, 8, k);
    }
    assert s[k..] == list;
  }

  lemma {:induction false} SpaceRunReaches(s: string, j: nat, k: nat)
    requires j <= k <= |s|
    requires forall i :: j <= i < k ==> RegexSpace(s[i])
    requires k < |s| ==> !RegexSpace(s[k])
    ensures SpaceRunEnd(s, j) == k
    decreases k - j
  {
    if j < k {
      SpaceRunReaches(s, j + 1, k);
    }
  }

  /** The name and the unquoted value of one cookie, or the exception indexing `cookie[1]` throws. */
  function CookiePair(c: string): (r: Result<(string, string)>)
    ensures r.Ok? ==> '"' !in r.value.1
    ensures r.Err? <==> |Split(c, '=')| < 2
  {
    var cookie := Split(c, '=');
    if |cookie| < 2 then Err(IndexOutOfBoundsException)
    else Ok((cookie[0], RemoveChar(cookie[1], '"')))
  }

  /**
   * The name is the text before the first '=', and the value is the next '='-separated piece
   * with its double quotes removed.
   */
  lemma CookiePairParts(c: string)
    requires CookiePair(c).Ok?
    ensures var j := IndexOf(c, '=');
      var rest := c[j + 1..];
      && 0 <= j
      && CookiePair(c).value.0 == c[..j]
      && CookiePair(c).value.1 == RemoveChar(if '=' in rest then rest[..IndexOf(rest, '=')] else rest, '"')
  {
    var j := IndexOf(c, '=');
    assert '=' in c;
    var rest := c[j + 1..];
    SplitAllHead(c, '=');
    SplitAllHead(rest, '=');
    var all := SplitAll(c, '=');
    var cookie := Split(c, '=');
    assert cookie == all[..|cookie|];
    assert cookie[0] == all[0] == c[..j];
    assert cookie[1] == all[1] == SplitAll(rest, '=')[0];
  }

  /** The cookies of one line in order: one named exactly `sid` replaces the candidate. */
  function ScanCookies(candidate: Option<string>, cookies: seq<string>): Result<Option<string>>
    decreases cookies
  {
    if cookies == [] then Ok(candidate)
    else
      var pair :- CookiePair(cookies[0]);
      ScanCookies(if pair.0 == "sid" then Some(pair.1) else candidate, cookies[1..])
  }

  /** The cookies of a `Cookie:` header line; other lines carry none. */
  function LineCookies(line: string): seq<string> {
    if StartsWith(line, "Cookie:") then Split(CookieBody(line), ';') else []
  }

  /** The header lines in order, each `Cookie:` line's cookies scanned in turn. */
  function ScanLines(candidate: Option<string>, lines: seq<string>): Result<Option<string>>
    decreases lines
  {
    if lines == [] then Ok(candidate)
    else
      var next :- ScanCookies(candidate, LineCookies(lines[0]));
      ScanLines(next, lines[1..])
  }

  /** Every cookie of every `Cookie:` line, in order. */
  function AllCookies(lines: seq<string>): seq<string>
  {
    if lines == [] then [] else LineCookies(lines[0]) + AllCookies(lines[1..])
  }

  /** The unquoted value of the last cookie named `sid`, if any. */
  function LastSid(cookies: seq<string>): Option<string>
  {
    if cookies == [] then None
    else
      var pair := CookiePair(cookies[|cookies| - 1]);
      if pair.Ok? && pair.value.0 == "sid" then Some(pair.value.1) else LastSid(cookies[..|cookies| - 1])
  }

  /** Scanning the lines one by one is scanning all their cookies in one go. */
  lemma {:induction false} ScanLinesFlat(candidate: Option<string>, lines: seq<string>)
    ensures ScanLines(candidate, lines) == ScanCookies(candidate, AllCookies(lines))
    decreases lines
  {
    if lines != [] {
      var cs := LineCookies(lines[0]);
      ScanCookiesAppend(candidate, cs, AllCookies(lines[1..]));
      var next := ScanCookies(candidate, cs);
      if next.Ok? {
        ScanLinesFlat(next.value, lines[1..]);
      }
    }
  }

  lemma {:induction false} ScanCookiesAppend(candidate: Option<string>, a: seq<string>, b: seq<string>)
    ensures ScanCookies(candidate, a + b) ==
      match ScanCookies(candidate, a)
      case Err(e) => Err(e)
      case Ok(c) => ScanCookies(c, b)
    decreases a
  {
    if a != [] {
      assert (a + b)[0] == a[0] && (a + b)[1..] == a[1..] + b;
      var pair := CookiePair(a[0]);
      if pair.Ok? {
        ScanCookiesAppend(if pair.value.0 == "sid" then Some(pair.value.1) else candidate, a[1..], b);
      }
    } else {
      assert a + b == b;
    }
  }

  /** The scan fails exactly when some cookie lacks an `=` value. */
  lemma {:induction false} ScanCookiesFails(candidate: Option<string>, cookies: seq<string>)
    ensures ScanCookies(candidate, cookies).Err? <==> exists i :: 0 <= i < |cookies| && CookiePair(cookies[i]).Err?
    decreases |cookies|
  {
    if cookies != [] {
      var pair := CookiePair(cookies[0]);
      if pair.Ok? {
        var rest := cookies[1..];
        ScanCookiesFails(if pair.value.0 == "sid" then Some(pair.value.1) else candidate, rest);
        if exists i :: 0 <= i < |cookies| && CookiePair(cookies[i]).Err? {
          var i :| 0 <= i < |cookies| && CookiePair(cookies[i]).Err?;
          assert rest[i - 1] == cookies[i];
        }
        if exists i :: 0 <= i < |rest| && CookiePair(rest[i]).Err? {
          var i :| 0 <= i < |rest| && CookiePair(rest[i]).Err?;
          assert cookies[i + 1] == rest[i];
        }
      }
    }
  }

  /**
   * When the scan succeeds, the candidate is the last `sid` cookie's value with its quotes
   * removed, or the starting one if no cookie is named `sid`.
   */
  lemma {:induction false} ScanCookiesLastSid(candidate: Option<string>, cookies: seq<string>)
    requires ScanCookies(candidate, cookies).Ok?
    ensures ScanCookies(candidate, cookies).value == if LastSid(cookies).Some? then LastSid(cookies) else candidate
    decreases |cookies|
  {
    if cookies != [] {
      var init, last := cookies[..|cookies| - 1], cookies[|cookies| - 1];
      assert init + [last] == cookies;
      ScanCookiesAppend(candidate, init, [last]);
      var before := ScanCookies(candidate, init);
      ScanCookiesLastSid(candidate, init);
      assert [last][1..] == [];
    }
  }

  /** The quotes are gone from the value the scan settles on. */
  lemma {:induction false} LastSidUnquoted(cookies: seq<string>)
    ensures LastSid(cookies).Some? ==> '"' !in LastSid(cookies).value
    decreases |cookies|
  {
    if cookies != [] {
      LastSidUnquoted(cookies[..|cookies| - 1]);
    }
  }

  /**
   * The `sid` scan of checkSession: every `Cookie:` line is split on `;`, and its cookies are
   * scanned in turn.
   */
  method SidCandidate(headerLines: seq<string>) returns (sid: Result<Option<string>>)
    ensures sid == ScanLines(None, headerLines)
  {
    var sidCandidate: Option<string> := None;
    for i := 0 to |headerLines|
      invariant ScanLines(None, headerLines) == ScanLines(sidCandidate, headerLines[i..])
    {
      var s := headerLines[i];
      assert headerLines[i..][1..] == headerLines[i + 1..];
      if StartsWith(s, "Cookie:") {
        var cookies := Split(CookieBody(s), ';');
        var scanned := ScanCookieList(sidCandidate, cookies);
        if scanned.Err? {
          return Err(scanned.error);
        }
        sidCandidate := scanned.value;
      }
    }
    sid := Ok(sidCandidate);
  }

  /** The cookies of one line: each is split on `=`, and one named `sid` gives the candidate. */
  method ScanCookieList(candidate: Option<string>, cookies: seq<string>) returns (sid: Result<Option<string>>)
    ensures sid == ScanCookies(candidate, cookies)
  {
    var sidCandidate := candidate;
    for j := 0 to |cookies|
      invariant ScanCookies(candidate, cookies) == ScanCookies(sidCandidate, cookies[j..])
    {
      var cookie := Split(cookies[j], '=');
      assert cookies[j..][1..] == cookies[j + 1..];
      if |cookie| < 2 {
        return Err(IndexOutOfBoundsException);
      }
      var cookieName := cookie[0];
      var cookieValue := RemoveChar(cookie[1], '"');
      if cookieName == "sid" {
        sidCandidate := Some(cookieValue);
      }
    }
    sid := Ok(sidCandidate);
  }

  // ----------------------------------------------------------------------------------------
  // Error responses

  /** The words sendErrorStatusCode puts after the code. */
  function ReasonPhrase(statusCode: int): (r: string)
    ensures P.NoBreaks(r) && r != ""
  {
    if statusCode == BAD_REQUEST then "Bad Request"
    else if statusCode == FORBIDDEN then "Forbidden"
    else if statusCode == FILE_NOT_FOUND then "File Not Found"
    else "Unknown Error"
  }

  /** String concatenation of a possibly null reference: `null` prints as "null". */
  function VersionText(version: Option<string>): string {
    if version.Some? then version.value else "null"
  }

  /** The text sendErrorStatusCode builds: version, code, reason phrase and a line feed. */
  function ErrorText(version: Option<string>, statusCode: int): string
  {
    VersionText(version) + " " + IntToString(statusCode) + " " + ReasonPhrase(statusCode) + "\n"
  }

  /** Different codes give different texts: the digits end where the reason phrase's space starts. */
  lemma ErrorTextDeterminesCode(version: Option<string>, c1: int, c2: int)
    requires IsInt32(c1) && IsInt32(c2)
    requires ErrorText(version, c1) == ErrorText(version, c2)
    ensures c1 == c2
  {
    var v := VersionText(version) + " ";
    var s1, s2 := IntToString(c1), IntToString(c2);
    var x1, x2 := " " + ReasonPhrase(c1) + "\n", " " + ReasonPhrase(c2) + "\n";
    ErrorTextParts(version, c1);
    ErrorTextParts(version, c2);
    DropCommonPrefix(v, s1 + x1, s2 + x2);
    IntToStringNoSpace(c1);
    IntToStringNoSpace(c2);
    WordBeforeSpace(s1, x1, s2, x2);
    ParseIntToString(c1);
    ParseIntToString(c2);
  }

  lemma ErrorTextParts(version: Option<string>, c: int)
    ensures ErrorText(version, c) ==
      (VersionText(version) + " ") + (IntToString(c) + (" " + ReasonPhrase(c) + "\n"))
  {
  }

  lemma DropCommonPrefix(v: string, a: string, b: string)
    requires v + a == v + b
    ensures a == b
  {
    assert a == (v + a)[|v|..];
    assert b == (v + b)[|v|..];
  }

  /** Two words, each followed by a space, that begin the same text are the same word. */
  lemma WordBeforeSpace(a: string, x: string, b: string, y: string)
    requires ' ' !in a && ' ' !in b && x != [] && x[0] == ' ' && y != [] && y[0] == ' '
    requires a + x == b + y
    ensures a == b
  {
    SpaceEndsWord(a, x);
    SpaceEndsWord(b, y);
    assert a == (a + x)[..|a|];
    assert b == (b + y)[..|b|];
  }

  /** The first space of a word followed by a space is the one after the word. */
  lemma SpaceEndsWord(a: string, x: string)
    requires ' ' !in a && x != [] && x[0] == ' '
    ensures IndexOf(a + x, ' ') == |a|
  {
    var s := a + x;
    assert s[|a|] == ' ';
    assert s[..|a|] == a;
  }

  lemma IntToStringNoSpace(n: int)
    ensures ' ' !in IntToString(n)
  {
    var s := NatToString(if n < 0 then -n else n);
    assert AllDigits(s);
    assert IntToString(n) == (if n < 0 then "-" else "") + s;
  }

  /**
   * sendErrorStatusCode as written: a fresh context over the worker's maps and cookies gets
   * the code, the error text as its status text, and the error text as its body.
   */
  function ErrorResponse(version: Option<string>, statusCode: int, params: map<string, string>,
                         permParams: map<string, string>, cookies: seq<R.RCCookie>): R.Response
  {
    var initial := R.Initial(Some(params), Some(permParams), Some(cookies));
    var text := ErrorText(version, statusCode);
    var coded := R.SetStatusCode(initial, statusCode).value;
    R.WriteString(R.SetStatusText(coded, text).value, text)
  }

  /**
   * The status text ends with a line feed and the status line repeats version and code, so
   * the header's first line is "<version> <code> <version> <code> <phrase>", a bare line feed,
   * then the CRLF: a reader that accepts a bare line feed as a line end (section 3.5 of
   * RFC 7230) sees an empty line there and takes the rest of the header for the body.
   */
  lemma ErrorHeaderBroken(version: Option<string>, statusCode: int, params: map<string, string>,
                          permParams: map<string, string>, cookies: seq<R.RCCookie>)
    ensures var r := ErrorResponse(version, statusCode, params, permParams, cookies);
      var status := "HTTP/1.1 " + IntToString(statusCode) + " " + ErrorText(version, statusCode);
      && r.output[0].Header? && StartsWith(r.output[0].text, status + "\r\n")
      && status[|status| - 1] == '\n'
  {
    var initial := R.Initial(Some(params), Some(permParams), Some(cookies));
    var text := ErrorText(version, statusCode);
    var r0 := initial.(statusCode := statusCode, statusText := text);
    var status := "HTTP/1.1 " + IntToString(statusCode) + " " + text;
    assert R.StatusLine(r0) == status;
    var ls := R.HeaderLines(r0);
    assert R.Lines(ls) == ls[0] + R.LINE_SEP + R.Lines(ls[1..]);
    var h := R.HeaderText(r0);
    assert h == status + "\r\n" + (R.Lines(ls[1..]) + R.LINE_SEP);
    assert h[..|status| + 2] == status + "\r\n";
  }

  /**
   * sendErrorStatusCode with the status text it evidently means: the reason phrase alone,
   * the body unchanged.
   */
  function CorrectedErrorResponse(version: Option<string>, statusCode: int, params: map<string, string>,
                                  permParams: map<string, string>, cookies: seq<R.RCCookie>): R.Response
  {
    var initial := R.Initial(Some(params), Some(permParams), Some(cookies));
    var text := ErrorText(version, statusCode);
    var coded := R.SetStatusCode(initial, statusCode).value;
    R.WriteString(R.SetStatusText(coded, ReasonPhrase(statusCode)).value, text)
  }

  /**
   * With the reason phrase as status text the header is well framed: it ends with an empty
   * line and has no other, so the error text is the whole body.
   */
  lemma CorrectedErrorHeaderFramed(version: Option<string>, statusCode: int, params: map<string, string>,
                                   permParams: map<string, string>, cookies: seq<R.RCCookie>)
    requires forall c :: c in cookies ==>
      && P.NoBreaks(c.name) && P.NoBreaks(c.value)
      && (c.domain.Some? ==> P.NoBreaks(c.domain.value)) && (c.path.Some? ==> P.NoBreaks(c.path.value))
    ensures var r := CorrectedErrorResponse(version, statusCode, params, permParams, cookies);
      var h := r.output[0].text;
      && r.output[0].Header? && R.StatusLine(r) == "HTTP/1.1 " + IntToString(statusCode) + " " + ReasonPhrase(statusCode)
      && EndsWith(h, "\r\n\r\n") && (forall i :: P.BlankAt(h, i) ==> i + 4 == |h|)
      && r.output[1] == R.Text(ErrorText(version, statusCode), "UTF-8")
  {
    var initial := R.Initial(Some(params), Some(permParams), Some(cookies));
    var r0 := initial.(statusCode := statusCode, statusText := ReasonPhrase(statusCode));
    assert P.NoBreaks(r0.mimeType) && P.NoBreaks(r0.encoding);
    P.HeaderFraming(r0);
  }
}
