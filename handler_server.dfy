/**
 * offline/handler_server.go: turning an HTTP request into the event record a
 * handler receives, collecting the interpreter's output, recovering the
 * handler's result from the text framed by TERRABLE_RESULT_START: and
 * :TERRABLE_RESULT_END, and writing the HTTP response.
 */
module HandlerServer {

  import opened Wrappers
  import opened Strings
  import opened HttpResponse
  import opened ResultProtocol

  /**
   * An incoming request: verb (method), URL path, the parsed query string and header
   * (every key with its values in order), the body text and the route
   * variables the router matched.
   */
  datatype Request = Request(
    verb: string,
    path: string,
    query: map<string, seq<string>>,
    header: map<string, seq<string>>,
    body: string,
    vars: map<string, string>)

  /** The proxy-style event record serialised into the generated snippet. */
  datatype Event = Event(
    body: Option<string>,
    queryStringParameters: Option<map<string, string>>,
    httpMethod: string,
    path: string,
    headers: map<string, string>,
    pathParameters: Option<map<string, string>>)

  /** Go's URL and header parsers never produce a key with no value. */
  predicate WellFormed(r: Request) {
    && (forall k :: k in r.query ==> |r.query[k]| > 0)
    && (forall k :: k in r.header ==> |r.header[k]| > 0)
  }

  /** The query parameters as `wrapHandlerCode` flattens them: the last value per key. */
  method LastValues(query: map<string, seq<string>>) returns (params: map<string, string>)
    requires forall k :: k in query ==> |query[k]| > 0
    ensures params.Keys == query.Keys
    ensures forall k :: k in query ==> params[k] == query[k][|query[k]| - 1]
  {
    params := map[];
    var todo := query.Keys;
    while todo != {}
      invariant todo <= query.Keys
      invariant params.Keys == query.Keys - todo
      invariant forall k :: k in params ==> params[k] == query[k][|query[k]| - 1]
      decreases |todo|
    {
      var key :| key in todo;
      var values := query[key];
      params := params[key := values[|values| - 1]];
      todo := todo - {key};
    }
  }

  /** The headers as `wrapHandlerCode` flattens them: the first value per key. */
  method FirstValues(header: map<string, seq<string>>) returns (headers: map<string, string>)
    requires forall k :: k in header ==> |header[k]| > 0
    ensures headers.Keys == header.Keys
    ensures forall k :: k in header ==> headers[k] == header[k][0]
  {
    headers := map[];
    var todo := header.Keys;
    while todo != {}
      invariant todo <= header.Keys
      invariant headers.Keys == header.Keys - todo
      invariant forall k :: k in headers ==> headers[k] == header[k][0]
      decreases |todo|
    {
      var key :| key in todo;
      headers := headers[key := header[key][0]];
      todo := todo - {key};
    }
  }

  /** The event record built by `wrapHandlerCode`. */
  method EventFor(r: Request) returns (ev: Event)
    requires WellFormed(r)
    ensures ev.body == if r.body == "" then None else Some(r.body)
    ensures ev.queryStringParameters.None? <==> r.query == map[]
    ensures ev.queryStringParameters.Some? ==>
      && ev.queryStringParameters.value.Keys == r.query.Keys
      && forall k :: k in r.query ==> ev.queryStringParameters.value[k] == r.query[k][|r.query[k]| - 1]
    ensures ev.headers.Keys == r.header.Keys
    ensures forall k :: k in r.header ==> ev.headers[k] == r.header[k][0]
    ensures ev.httpMethod == r.verb && ev.path == r.path
    ensures ev.pathParameters == if r.vars == map[] then None else Some(r.vars)
  {
    var queryParams := LastValues(r.query);
    var headers := FirstValues(r.header);
    if r.query != map[] {
      var k :| k in r.query;
      assert k in queryParams;
    }
    var bodyValue := if |r.body| > 0 then Some(r.body) else None;
    var queryParamsValue := if queryParams != map[] then Some(queryParams) else None;
    var vars := if r.vars == map[] then None else Some(r.vars);
    ev := Event(bodyValue, queryParamsValue, r.verb, r.path, headers, vars);
  }

  /** The output buffer: every line, with no separator between them. */
  function Concat<T>(lines: seq<seq<T>>): seq<T> {
    if lines == [] then [] else Concat(lines[..|lines| - 1]) + lines[|lines| - 1]
  }

  /** The lines echoed to the console: all but the result lines. */
  function Echoed(lines: seq<string>): seq<string> {
    if lines == [] then []
    else
      var last := lines[|lines| - 1];
      Echoed(lines[..|lines| - 1]) + if HasPrefix(last, ResultStart) then [] else [last]
  }

  /** `processOutput`, over the lines the scanner yields. */
  method ProcessOutput(lines: seq<string>) returns (buffer: string, echoed: seq<string>)
    ensures buffer == Concat(lines)
    ensures echoed == Echoed(lines)
  {
    buffer, echoed := "", [];
    for i := 0 to |lines|
      invariant buffer == Concat(lines[..i])
      invariant echoed == Echoed(lines[..i])
    {
      assert lines[..i + 1][..i] == lines[..i];
      var line := lines[i];
      if !HasPrefix(line, ResultStart) {
        echoed := echoed + [line];
      }
      buffer := buffer + line;
    }
    assert lines[..|lines|] == lines;
  }

  lemma {:induction false} ConcatAppend<T>(a: seq<seq<T>>, b: seq<seq<T>>)
    ensures Concat(a + b) == Concat(a) + Concat(b)
    decreases |b|
  {
    if b == [] {
      assert a + b == a;
    } else {
      var init, last := b[..|b| - 1], b[|b| - 1];
      calc {
        Concat(a + b);
        { assert (a + b)[..|a + b| - 1] == a + init; }
        Concat(a + init) + last;
        { ConcatAppend(a, init); }
        Concat(a) + Concat(init) + last;
        Concat(a) + (Concat(init) + last);
      }
    }
  }

  /** Exactly the lines that do not start with the result marker are echoed. */
  lemma {:induction false} EchoedLines(lines: seq<string>, l: string)
    ensures l in Echoed(lines) <==> l in lines && !HasPrefix(l, ResultStart)
  {
    if lines != [] {
      var init := lines[..|lines| - 1];
      EchoedLines(init, l);
      assert lines == init + [lines[|lines| - 1]];
    }
  }

  lemma ConcatSingle(line: string)
    ensures Concat([line]) == line
  {
    assert [line][..0] == [];
  }

  lemma InfixAtEnd(a: string, x: string)
    ensures IsInfix(x, a + x)
  {
    assert (a + x)[|a|..|a| + |x|] == x;
    assert OccursAt(a + x, x, |a|);
  }

  lemma InfixExtended(x: string, a: string, b: string)
    requires IsInfix(x, a)
    ensures IsInfix(x, a + b)
  {
    var k :| OccursAt(a, x, k);
    assert (a + b)[k..k + |x|] == a[k..k + |x|];
    assert OccursAt(a + b, x, k);
  }

  /** Every line read stands, unchanged, in the buffer. */
  lemma {:induction false} BufferHoldsLine(lines: seq<string>, i: nat)
    requires i < |lines|
    ensures IsInfix(lines[i], Concat(lines))
  {
    var init, last := lines[..|lines| - 1], lines[|lines| - 1];
    if i == |lines| - 1 {
      InfixAtEnd(Concat(init), last);
    } else {
      BufferHoldsLine(init, i);
      assert init[i] == lines[i];
      InfixExtended(lines[i], Concat(init), last);
    }
  }

  /**
   * The interpreter's output lines carry the result line through the
   * buffer: the payload of a result line is what extraction recovers.
   */
  lemma ResultLineRecovered(before: seq<string>, p: string, after: seq<string>)
    requires p != ""
    requires !IsInfix(ResultStart, Concat(before))
    requires !IsInfix(ResultEnd, Concat(before) + ResultStart + p)
    ensures ExtractPayload(Concat(before + [ResultStart + p + ResultEnd] + after)) == Success(p)
  {
    var line := ResultStart + p + ResultEnd;
    ConcatAppend(before + [line], after);
    ConcatAppend(before, [line]);
    ConcatSingle(line);
    ExtractPayloadFramed(Concat(before), p, Concat(after));
  }

  /** The handler's decoded result. */
  datatype HandlerResult = HandlerResult(statusCode: int, headers: map<string, string>, body: string)

  /** `extractResult`: the framed payload, decoded by `decode` (JSON in the source). */
  function ExtractResult(output: string, decode: string -> Result<HandlerResult, string>): (r: Result<HandlerResult, string>)
    ensures ExtractPayload(output).Success? ==> r == decode(ExtractPayload(output).value)
    ensures ExtractPayload(output).Failure? ==> r == Failure(NoMarkersError)
  {
    match ExtractPayload(output)
    case Failure(e) => Failure(e)
    case Success(p) => decode(p)
  }

  /** The 500 response with an empty body that a failed request gets. */
  const ServerError: Response := Response(500, map[], "")

  /**
   * What the client receives for a decoded result: nothing when its status
   * code makes WriteHeader panic; otherwise its final status, a header map
   * holding its headers under their canonical keys, and its body when that
   * status allows one.
   */
  ghost predicate Delivers(sent: Option<Response>, res: HandlerResult) {
    if !ValidCode(res.statusCode) then sent.None?
    else
      && sent.Some?
      && sent.value.status == FinalStatus(res.statusCode)
      && CanonicalOf(sent.value.headers, res.headers)
      && sent.value.body == if BodyAllowed(FinalStatus(res.statusCode)) then res.body else ""
  }

  /**
   * The response-writing branch of `ServeHandler`: on failure status 500 and
   * an empty body; otherwise every result header, then the status code,
   * then the body.
   */
  method WriteResult(result: Result<HandlerResult, string>) returns (ops: seq<WriteOp>)
    ensures result.Failure? ==> ops == [WriteHeader(500), Write("")]
    ensures result.Failure? ==> Sent(ops) == Some(ServerError)
    ensures result.Success? ==>
      && |ops| >= 2
      && SetsFrom(ops[..|ops| - 2], result.value.headers)
      && ops[|ops| - 2] == WriteHeader(result.value.statusCode)
      && ops[|ops| - 1] == Write(result.value.body)
    ensures result.Success? ==> Delivers(Sent(ops), result.value)
  {
    if result.Failure? {
      ops := [WriteHeader(500), Write("")];
      StatusThenBody([], 500, "");
      assert [] + [WriteHeader(500), Write("")] == ops;
      return;
    }
    var res := result.value;
    var sets := SetHeaders(res.headers);
    StatusThenBody(sets, res.statusCode, res.body);
    ops := sets + [WriteHeader(res.statusCode), Write(res.body)];
    assert ops[..|ops| - 2] == sets;
  }

  /** Every op sets a header of `headers` to its value there. */
  predicate SetsFrom(ops: seq<WriteOp>, headers: map<string, string>) {
    forall i :: 0 <= i < |ops| ==>
      ops[i].SetHeader? && ops[i].key in headers && ops[i].value == headers[ops[i].key]
  }

  lemma SetsFromSnoc(ops: seq<WriteOp>, headers: map<string, string>, k: string)
    requires SetsFrom(ops, headers) && k in headers
    ensures SetsFrom(ops + [SetHeader(k, headers[k])], headers)
  {
  }

  /** The ops set distinct keys, all of them from `keys`. */
  predicate DistinctKeysFrom(ops: seq<WriteOp>, keys: set<string>) {
    && (forall i :: 0 <= i < |ops| ==> ops[i].SetHeader? && ops[i].key in keys)
    && (forall i, j :: 0 <= i < j < |ops| && ops[i].SetHeader? && ops[j].SetHeader? ==> ops[i].key != ops[j].key)
  }

  lemma DistinctKeysStep(ops: seq<WriteOp>, todo: set<string>, headers: map<string, string>, k: string)
    requires k in todo && todo <= headers.Keys && DistinctKeysFrom(ops, headers.Keys - todo)
    ensures DistinctKeysFrom(ops + [SetHeader(k, headers[k])], headers.Keys - (todo - {k}))
  {
    assert headers.Keys - todo + {k} == headers.Keys - (todo - {k});
  }

  /** One turn of the header loop: setting key `k`, one of the keys still `todo`. */
  lemma SetHeaderStep(ops: seq<WriteOp>, h: map<string, string>, todo: set<string>, headers: map<string, string>, k: string)
    requires SetsFrom(ops, headers) && k in todo && todo <= headers.Keys
    requires Run(ops) == Writer(h, None, "", false) && CanonicalOf(h, headers - todo)
    ensures SetsFrom(ops + [SetHeader(k, headers[k])], headers)
    ensures Run(ops + [SetHeader(k, headers[k])]) == Writer(h[CanonicalHeaderKey(k) := headers[k]], None, "", false)
    ensures CanonicalOf(h[CanonicalHeaderKey(k) := headers[k]], headers - (todo - {k}))
  {
    RunSnoc(ops, SetHeader(k, headers[k]));
    SetsFromSnoc(ops, headers, k);
    CanonicalOfTodo(h, todo, headers, k);
  }

  lemma CanonicalOfTodo(h: map<string, string>, todo: set<string>, headers: map<string, string>, k: string)
    requires k in todo && todo <= headers.Keys && CanonicalOf(h, headers - todo)
    ensures CanonicalOf(h[CanonicalHeaderKey(k) := headers[k]], headers - (todo - {k}))
  {
    CanonicalOfSet(h, headers - todo, k, headers[k]);
    assert (headers - todo)[k := headers[k]] == headers - (todo - {k});
  }

  /**
   * The header loop of the success branch: one `Header().Set` per result
   * header, in map order, so that of several keys with one canonical form
   * the last one set wins.
   */
  method SetHeaders(headers: map<string, string>) returns (ops: seq<WriteOp>)
    ensures SetsFrom(ops, headers)
    ensures |ops| == |headers|
    ensures forall i, j :: 0 <= i < j < |ops| ==> ops[i].key != ops[j].key
    ensures var w := Run(ops); w.sent.None? && !w.panicked && w.body == "" && CanonicalOf(w.header, headers)
  {
    ops := [];
    var todo := headers.Keys;
    ghost var h: map<string, string> := map[];
    while todo != {}
      invariant todo <= headers.Keys
      invariant SetsFrom(ops, headers)
      invariant |ops| + |todo| == |headers|
      invariant DistinctKeysFrom(ops, headers.Keys - todo)
      invariant Run(ops) == Writer(h, None, "", false)
      invariant CanonicalOf(h, headers - todo)
      decreases |todo|
    {
      var k :| k in todo;
      SetHeaderStep(ops, h, todo, headers, k);
      DistinctKeysStep(ops, todo, headers, k);
      h := h[CanonicalHeaderKey(k) := headers[k]];
      ops := ops + [SetHeader(k, headers[k])];
      todo := todo - {k};
    }
    assert headers - todo == headers;
  }

  /** One request's response, from the interpreter's output text. */
  method Respond(output: string, decode: string -> Result<HandlerResult, string>) returns (ops: seq<WriteOp>)
    ensures ExtractPayload(output).Failure? ==> Sent(ops) == Some(ServerError)
    ensures ExtractPayload(output).Success? ==>
      var d := decode(ExtractPayload(output).value);
      if d.Success? then Delivers(Sent(ops), d.value) else Sent(ops) == Some(ServerError)
  {
    var result := ExtractResult(output, decode);
    ops := WriteResult(result);
  }
}
