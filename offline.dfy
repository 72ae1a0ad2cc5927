/**
 * offline/offline.go: the checks and bookkeeping around starting the local
 * server: route validation, the environment each handler runs with, the
 * `.env` file reader, the choice of listening port, the start-up summary
 * and the not-found responses.
 */
module Offline {

  import opened Wrappers
  import opened Strings
  import opened HttpResponse
  import KeyValue

  /**
   * A handler as the server sees it: its name, source file, HTTP routes
   * (method to path), SQS queues (only their keys matter here) and its own
   * environment variables.
   */
  datatype HandlerMapping = HandlerMapping(
    name: string,
    source: string,
    http: map<string, string>,
    sqs: set<string>,
    env: map<string, string>)

  // ---------------------------------------------------------------- validateConfig

  /** The message `validateConfig` gives for a route path without the '/' prefix. */
  function RouteError(handler: string, verb: string, path: string): string {
    "Handler '" + handler + "' does not have a '/' prefix for the HTTP route " + verb + " '" + path + "'."
  }

  /** The messages for the offending routes of one handler. */
  function HandlerRouteErrors(h: HandlerMapping): set<string> {
    set m | m in h.http && !HasPrefix(h.http[m], "/") :: RouteError(h.name, m, h.http[m])
  }

  /** The messages for the offending routes of all handlers. */
  function RouteErrors(hs: seq<HandlerMapping>): set<string> {
    if hs == [] then {} else RouteErrors(hs[..|hs| - 1]) + HandlerRouteErrors(hs[|hs| - 1])
  }

  /** Every route path of every handler starts with '/'. */
  predicate AllRoutesPrefixed(hs: seq<HandlerMapping>) {
    forall i, m :: 0 <= i < |hs| && m in hs[i].http ==> HasPrefix(hs[i].http[m], "/")
  }

  /** There is nothing to report exactly when every route is prefixed. */
  lemma {:induction false} RouteErrorsEmpty(hs: seq<HandlerMapping>)
    ensures RouteErrors(hs) == {} <==> AllRoutesPrefixed(hs)
  {
    if hs != [] {
      var init, h := hs[..|hs| - 1], hs[|hs| - 1];
      RouteErrorsEmpty(init);
      if RouteErrors(hs) == {} {
        forall i, m | 0 <= i < |hs| && m in hs[i].http ensures HasPrefix(hs[i].http[m], "/") {
          if i < |init| {
            assert init[i] == hs[i];
          } else {
            var path := h.http[m];
            assert !HasPrefix(path, "/") ==> RouteError(h.name, m, path) in HandlerRouteErrors(h);
          }
        }
      }
      if AllRoutesPrefixed(hs) {
        forall i, m | 0 <= i < |init| && m in init[i].http ensures HasPrefix(init[i].http[m], "/") {
          assert init[i] == hs[i];
        }
      }
    }
  }

  /** The offending routes of `h` among the methods `verbs`, as (method, path) pairs. */
  function OffendingIn(h: HandlerMapping, verbs: set<string>): set<(string, string)> {
    set m | m in verbs && m in h.http && !HasPrefix(h.http[m], "/") :: (m, h.http[m])
  }

  /** The routes of `h` whose path lacks the '/' prefix. */
  function OffendingRoutes(h: HandlerMapping): set<(string, string)> {
    OffendingIn(h, h.http.Keys)
  }

  /** `routes` lists every member of `s` once, in some order. */
  ghost predicate Enumerates(routes: seq<(string, string)>, s: set<(string, string)>) {
    && (forall i, j :: 0 <= i < j < |routes| ==> routes[i] != routes[j])
    && (forall r :: r in routes <==> r in s)
  }

  /** The messages for `routes` of the handler called `name`, in that order. */
  function RouteMessages(name: string, routes: seq<(string, string)>): (r: seq<string>)
    ensures |r| == |routes|
    ensures forall i :: 0 <= i < |routes| ==> r[i] == RouteError(name, routes[i].0, routes[i].1)
  {
    seq(|routes|, i requires 0 <= i < |routes| => RouteError(name, routes[i].0, routes[i].1))
  }

  lemma RouteMessagesSnoc(name: string, routes: seq<(string, string)>, r: (string, string))
    ensures RouteMessages(name, routes + [r]) == RouteMessages(name, routes) + [RouteError(name, r.0, r.1)]
  {
  }

  /** Each handler's offending routes listed in `orders[i]`: one iteration order per handler. */
  ghost predicate IterationOrders(hs: seq<HandlerMapping>, orders: seq<seq<(string, string)>>) {
    |orders| == |hs| && forall i :: 0 <= i < |hs| ==> Enumerates(orders[i], OffendingRoutes(hs[i]))
  }

  /** The messages handler by handler, each handler's routes in the order `orders` gives. */
  function RouteErrorList(hs: seq<HandlerMapping>, orders: seq<seq<(string, string)>>): seq<string>
    requires |orders| == |hs|
  {
    if hs == [] then []
    else RouteErrorList(hs[..|hs| - 1], orders[..|hs| - 1]) + RouteMessages(hs[|hs| - 1].name, orders[|hs| - 1])
  }

  /** The messages for an enumeration of a handler's offending routes are that handler's messages. */
  lemma RouteMessagesOf(h: HandlerMapping, routes: seq<(string, string)>)
    requires Enumerates(routes, OffendingRoutes(h))
    ensures forall e :: e in RouteMessages(h.name, routes) <==> e in HandlerRouteErrors(h)
  {
    var msgs := RouteMessages(h.name, routes);
    forall i | 0 <= i < |routes| ensures msgs[i] in HandlerRouteErrors(h) {
      assert routes[i] in OffendingRoutes(h);
      var m :| m in h.http && !HasPrefix(h.http[m], "/") && routes[i] == (m, h.http[m]);
      assert msgs[i] == RouteError(h.name, m, h.http[m]);
    }
    forall e | e in HandlerRouteErrors(h) ensures e in msgs {
      var m :| m in h.http && !HasPrefix(h.http[m], "/") && e == RouteError(h.name, m, h.http[m]);
      assert (m, h.http[m]) in OffendingRoutes(h);
      var i :| 0 <= i < |routes| && routes[i] == (m, h.http[m]);
      assert msgs[i] == e;
    }
  }

  /** The list holds, in some order, exactly the messages of all handlers. */
  lemma {:induction false} RouteErrorListOf(hs: seq<HandlerMapping>, orders: seq<seq<(string, string)>>)
    requires IterationOrders(hs, orders)
    ensures forall e :: e in RouteErrorList(hs, orders) <==> e in RouteErrors(hs)
  {
    if hs != [] {
      var n := |hs| - 1;
      assert IterationOrders(hs[..n], orders[..n]) by {
        forall i | 0 <= i < n ensures Enumerates(orders[..n][i], OffendingRoutes(hs[..n][i])) {
          assert orders[..n][i] == orders[i] && hs[..n][i] == hs[i];
        }
      }
      RouteErrorListOf(hs[..n], orders[..n]);
      RouteMessagesOf(hs[n], orders[n]);
    }
  }

  /** One turn of the route loop: method `verb`, one of those still `todo`. */
  lemma OffendingStep(h: HandlerMapping, todo: set<string>, routes: seq<(string, string)>, verb: string)
    requires todo <= h.http.Keys && verb in todo
    requires Enumerates(routes, OffendingIn(h, h.http.Keys - todo))
    ensures var path := h.http[verb];
      Enumerates(if HasPrefix(path, "/") then routes else routes + [(verb, path)], OffendingIn(h, h.http.Keys - (todo - {verb})))
  {
    var path := h.http[verb];
    assert (verb, path) !in OffendingIn(h, h.http.Keys - todo);
    assert OffendingIn(h, h.http.Keys - (todo - {verb})) ==
      OffendingIn(h, h.http.Keys - todo) + if HasPrefix(path, "/") then {} else {(verb, path)};
  }

  /** One turn of the handler loop: handler `h`, its offending routes listed as `routes`. */
  lemma RouteErrorListSnoc(hs: seq<HandlerMapping>, orders: seq<seq<(string, string)>>, h: HandlerMapping, routes: seq<(string, string)>)
    requires IterationOrders(hs, orders) && Enumerates(routes, OffendingRoutes(h))
    ensures IterationOrders(hs + [h], orders + [routes])
    ensures RouteErrorList(hs + [h], orders + [routes]) == RouteErrorList(hs, orders) + RouteMessages(h.name, routes)
  {
    assert (hs + [h])[..|hs|] == hs;
    assert (orders + [routes])[..|hs|] == orders;
  }

  /**
   * The inner loop of `validateConfig`: one message per offending route of
   * `h`, in the order the map iteration visits the routes.
   */
  method CheckHandlerRoutes(h: HandlerMapping) returns (errs: seq<string>)
    ensures forall e :: e in errs <==> e in HandlerRouteErrors(h)
    ensures exists routes :: Enumerates(routes, OffendingRoutes(h)) && errs == RouteMessages(h.name, routes)
  {
    errs := [];
    var todo := h.http.Keys;
    ghost var routes: seq<(string, string)> := [];
    while todo != {}
      invariant todo <= h.http.Keys
      invariant Enumerates(routes, OffendingIn(h, h.http.Keys - todo))
      invariant errs == RouteMessages(h.name, routes)
      decreases |todo|
    {
      var verb :| verb in todo;
      var path := h.http[verb];
      OffendingStep(h, todo, routes, verb);
      if !HasPrefix(path, "/") {
        RouteMessagesSnoc(h.name, routes, (verb, path));
        errs := errs + [RouteError(h.name, verb, path)];
        routes := routes + [(verb, path)];
      }
      todo := todo - {verb};
    }
    assert h.http.Keys - todo == h.http.Keys;
    RouteMessagesOf(h, routes);
  }

  /**
   * `validateConfig`: no error exactly when every route is prefixed;
   * otherwise the messages of the offending routes, one per route, handler
   * by handler in configuration order (within a handler in map order),
   * joined by newlines.
   */
  method ValidateConfig(handlers: seq<HandlerMapping>) returns (err: Option<string>)
    ensures err.None? <==> AllRoutesPrefixed(handlers)
    ensures err.None? <==> RouteErrors(handlers) == {}
    ensures err.Some? ==>
      exists orders :: IterationOrders(handlers, orders) && err.value == Join(RouteErrorList(handlers, orders), "\n")
  {
    var errs: seq<string> := [];
    ghost var orders: seq<seq<(string, string)>> := [];
    for i := 0 to |handlers|
      invariant IterationOrders(handlers[..i], orders)
      invariant errs == RouteErrorList(handlers[..i], orders)
    {
      var more := CheckHandlerRoutes(handlers[i]);
      ghost var routes :| Enumerates(routes, OffendingRoutes(handlers[i])) && more == RouteMessages(handlers[i].name, routes);
      RouteErrorListSnoc(handlers[..i], orders, handlers[i], routes);
      assert handlers[..i + 1] == handlers[..i] + [handlers[i]];
      errs := errs + more;
      orders := orders + [routes];
    }
    assert handlers[..|handlers|] == handlers;
    RouteErrorListOf(handlers, orders);
    RouteErrorsEmpty(handlers);
    if |errs| > 0 {
      assert errs[0] in RouteErrors(handlers);
      err := Some(Join(errs, "\n"));
    } else {
      err := None;
    }
  }

  // ---------------------------------------------------------------- environment

  /** One loop of `mergeEnvMaps`: copy every entry of `src` into `m`. */
  method PutAll(m: map<string, string>, src: map<string, string>) returns (r: map<string, string>)
    ensures forall k :: k in r <==> k in m || k in src
    ensures forall k :: k in src ==> r[k] == src[k]
    ensures forall k :: k in m && k !in src ==> r[k] == m[k]
  {
    r := m;
    var todo := src.Keys;
    while todo != {}
      invariant todo <= src.Keys
      invariant forall k :: k in r <==> k in m || (k in src && k !in todo)
      invariant forall k :: k in src && k !in todo ==> r[k] == src[k]
      invariant forall k :: k in m && (k !in src || k in todo) ==> r[k] == m[k]
      decreases |todo|
    {
      var k :| k in todo;
      r := r[k := src[k]];
      todo := todo - {k};
    }
  }

  /** `mergeEnvMaps`: every key of either map; `local` wins on a conflict. */
  method MergeEnvMaps(global: map<string, string>, local: map<string, string>) returns (merged: map<string, string>)
    ensures forall k :: k in merged <==> k in global || k in local
    ensures forall k :: k in local ==> merged[k] == local[k]
    ensures forall k :: k in global && k !in local ==> merged[k] == global[k]
  {
    merged := PutAll(map[], global);
    merged := PutAll(merged, local);
  }

  /** The value the layered environment gives `k`: the file over the handler over the global map. */
  function Layered(global: map<string, string>, handler: map<string, string>, file: map<string, string>, k: string): Option<string> {
    if k in file then Some(file[k])
    else if k in handler then Some(handler[k])
    else if k in global then Some(global[k])
    else None
  }

  /**
   * The environment a handler is served with (offline/offline.go:83):
   * `mergeEnvMaps(global, mergeEnvMaps(handler, file))`, so values from the
   * `.env` file override the handler's, which override the global ones.
   */
  method HandlerEnvironment(global: map<string, string>, handler: map<string, string>, file: map<string, string>)
    returns (env: map<string, string>)
    ensures forall k :: (k in env <==> Layered(global, handler, file, k).Some?)
    ensures forall k :: k in env ==> Some(env[k]) == Layered(global, handler, file, k)
  {
    var local := MergeEnvMaps(handler, file);
    env := MergeEnvMaps(global, local);
  }

  /**
   * The entry one line of a `.env` file contributes. Unlike the build-file
   * reader, the '#' test is made on the untrimmed line.
   */
  function EnvFileEntry(line: string): (r: Option<(string, string)>)
    ensures r.Some? <==> TrimSpace(line) != "" && !HasPrefix(line, "#") && '=' in line
    ensures r.Some? ==> TrimSpace(r.value.0) == r.value.0 && TrimSpace(r.value.1) == r.value.1
  {
    if TrimSpace(line) == "" || HasPrefix(line, "#") then None
    else
      match SplitFirst(line, '=')
      case None => None
      case Some((k, v)) =>
        TrimSpaceIdempotent(k);
        TrimSpaceIdempotent(v);
        Some((TrimSpace(k), TrimSpace(v)))
  }

  /** The scanning loop of `readEnvFile`. */
  method CollectEnvLines(lines: seq<string>) returns (envVars: map<string, string>)
    ensures envVars == KeyValue.Collect(lines, EnvFileEntry)
  {
    envVars := map[];
    for i := 0 to |lines|
      invariant envVars == KeyValue.Collect(lines[..i], EnvFileEntry)
    {
      KeyValue.CollectStep(lines, EnvFileEntry, i);
      var line := lines[i];
      if TrimSpace(line) == "" || HasPrefix(line, "#") {
        continue;
      }
      var parts := SplitFirst(line, '=');
      if parts.Some? {
        envVars := envVars[TrimSpace(parts.value.0) := TrimSpace(parts.value.1)];
      }
    }
    assert lines[..|lines|] == lines;
  }

  /**
   * `readEnvFile`, over the file as opened (its lines, or the error opening
   * it) and the error the scanner ended with, if any.
   */
  method ReadEnvFile(file: Result<seq<string>, string>, scanErr: Option<string>)
    returns (r: Result<map<string, string>, string>)
    ensures file.Failure? ==> r == Failure(file.error)
    ensures file.Success? && scanErr.Some? ==> r == Failure(scanErr.value)
    ensures file.Success? && scanErr.None? ==> r == Success(KeyValue.Collect(file.value, EnvFileEntry))
  {
    if file.Failure? {
      return Failure(file.error);
    }
    var envVars := CollectEnvLines(file.value);
    if scanErr.Some? {
      return Failure(scanErr.value);
    }
    return Success(envVars);
  }

  /** A variable is set exactly when some line of the file yields it. */
  lemma EnvFileKeys(lines: seq<string>, k: string)
    ensures k in KeyValue.Collect(lines, EnvFileEntry) <==>
      exists i :: 0 <= i < |lines| && KeyValue.Defines(lines[i], EnvFileEntry, k)
  {
    KeyValue.CollectKeys(lines, EnvFileEntry, k);
  }

  /** A later line for the same variable overwrites an earlier one. */
  lemma EnvFileLastWins(lines: seq<string>, i: nat)
    requires i < |lines| && EnvFileEntry(lines[i]).Some?
    requires forall j :: i < j < |lines| ==> !KeyValue.Defines(lines[j], EnvFileEntry, EnvFileEntry(lines[i]).value.0)
    ensures var kv := EnvFileEntry(lines[i]).value;
      kv.0 in KeyValue.Collect(lines, EnvFileEntry) && KeyValue.Collect(lines, EnvFileEntry)[kv.0] == kv.1
  {
    KeyValue.CollectLastWins(lines, EnvFileEntry, i);
  }

  lemma IndentedHashLine()
    ensures TrimSpace("  #a=b") != "" && !HasPrefix("  #a=b", "#")
    ensures SplitFirst("  #a=b", '=') == Some(("  #a", "b"))
  {
    var line := "  #a=b";
    assert line[2] == '#' && !IsSpace(line[2]);
    assert line[4] == '=' && '=' !in line[..4];
    SplitFirstAt(line, '=', 4);
    assert line[..4] == "  #a" && line[5..] == "b";
  }

  lemma TrimmedHashKey()
    ensures TrimSpace("  #a") == "#a" && TrimSpace("b") == "b"
  {
    TrimSpaceOfTrimmed("b");
    assert LeadingSpaces("  #a") == 2 by {
      assert LeadingSpaces("#a") == 0;
      assert "  #a"[1..] == " #a" && " #a"[1..] == "#a";
    }
    assert TrailingSpaces("#a") == 0;
  }

  /** An indented '#' line is not a comment here: it defines the key "#a". */
  lemma IndentedHashIsEntry()
    ensures EnvFileEntry("  #a=b") == Some(("#a", "b"))
  {
    IndentedHashLine();
    TrimmedHashKey();
  }

  // ---------------------------------------------------------------- getListener

  /** The outcome of `getListener`: the addresses tried, in order, and the port or the error. */
  datatype ListenOutcome = ListenOutcome(attempts: seq<string>, result: Result<int, string>)

  /**
   * `getListener`: listen on the given port (8080 when none is given); only
   * when no port was given does a failure fall back to any free port.
   * `listen` stands for net.Listen on an address: the port obtained, or the
   * error.
   */
  function GetListener(port: string, listen: string -> Result<int, string>): (r: ListenOutcome)
    ensures |r.attempts| >= 1
    ensures r.attempts[0] == "127.0.0.1:" + (if port == "" then "8080" else port)
    ensures |r.attempts| == 2 <==> port == "" && listen(r.attempts[0]).Failure?
    ensures |r.attempts| == 2 ==> r.attempts[1] == "127.0.0.1:0"
    ensures |r.attempts| <= 2
    ensures r.result.Success? ==> r.result == listen(r.attempts[|r.attempts| - 1])
    ensures r.result.Failure? ==> listen(r.attempts[|r.attempts| - 1]).Failure?
    ensures port != "" && r.result.Failure? ==>
      r.result.error == "could not start server on specified port " + port + ": " + listen(r.attempts[0]).error
  {
    var specificPortDesired := port != "";
    var p := if port == "" then "8080" else port;
    var first := "127.0.0.1:" + p;
    match listen(first)
    case Success(n) => ListenOutcome([first], Success(n))
    case Failure(e) =>
      if specificPortDesired then
        ListenOutcome([first], Failure("could not start server on specified port " + p + ": " + e))
      else
        match listen("127.0.0.1:0")
        case Success(n) => ListenOutcome([first, "127.0.0.1:0"], Success(n))
        case Failure(e2) =>
          ListenOutcome([first, "127.0.0.1:0"], Failure("could not start server on any available port: " + e2))
  }

  // ---------------------------------------------------------------- printConfig

  /** The number of HTTP routes across all handlers. */
  function EndpointCount(hs: seq<HandlerMapping>): nat {
    if hs == [] then 0 else EndpointCount(hs[..|hs| - 1]) + |hs[|hs| - 1].http.Keys|
  }

  /** The number of SQS queues across all handlers. */
  function QueueCount(hs: seq<HandlerMapping>): nat {
    if hs == [] then 0 else QueueCount(hs[..|hs| - 1]) + |hs[|hs| - 1].sqs|
  }

  /** The summary line printed before the route table. */
  function EndpointLine(total: nat): (line: string)
    ensures HasPrefix(line, NatToDecimal(total) + " Endpoint")
  {
    var message := if total != 1 then "Endpoints to prepare..." else "Endpoint to prepare...";
    assert (NatToDecimal(total) + " " + message + "\n\n")[..|NatToDecimal(total) + " Endpoint"|] ==
      NatToDecimal(total) + " Endpoint";
    NatToDecimal(total) + " " + message + "\n\n"
  }

  /**
   * The counting done by `printConfig`: the total number of routes, whether
   * any handler has a queue, the total number of queues, and the summary
   * line. The table itself and its colours are presentation only.
   */
  method PrintConfig(handlers: seq<HandlerMapping>) returns (totalEndpoints: nat, hasSqsQueues: bool, totalSqsQueues: nat, summary: string)
    ensures totalEndpoints == EndpointCount(handlers)
    ensures totalSqsQueues == QueueCount(handlers)
    ensures hasSqsQueues <==> exists i :: 0 <= i < |handlers| && |handlers[i].sqs| > 0
    ensures summary == EndpointLine(totalEndpoints)
  {
    hasSqsQueues := false;
    for i := 0 to |handlers|
      invariant hasSqsQueues <==> exists j :: 0 <= j < i && |handlers[j].sqs| > 0
    {
      if |handlers[i].sqs| > 0 {
        hasSqsQueues := true;
        break;
      }
    }
    totalEndpoints := 0;
    for i := 0 to |handlers|
      invariant totalEndpoints == EndpointCount(handlers[..i])
    {
      assert handlers[..i + 1][..i] == handlers[..i];
      var todo := handlers[i].http.Keys;
      var counted := 0;
      while todo != {}
        invariant counted + |todo| == |handlers[i].http.Keys|
        decreases |todo|
      {
        var verb :| verb in todo;
        counted := counted + 1;
        todo := todo - {verb};
      }
      totalEndpoints := totalEndpoints + counted;
    }
    assert handlers[..|handlers|] == handlers;
    totalSqsQueues := 0;
    for i := 0 to |handlers|
      invariant totalSqsQueues == QueueCount(handlers[..i])
    {
      assert handlers[..i + 1][..i] == handlers[..i];
      totalSqsQueues := totalSqsQueues + |handlers[i].sqs|;
    }
    assert handlers[..|handlers|] == handlers;
    var endpointMessage := "Endpoint to prepare...";
    if totalEndpoints != 1 {
      endpointMessage := "Endpoints to prepare...";
    }
    summary := NatToDecimal(totalEndpoints) + " " + endpointMessage + "\n\n";
  }

  /** The SQS section is shown exactly when there is at least one queue. */
  lemma {:induction false} HasQueuesIffCount(hs: seq<HandlerMapping>)
    ensures QueueCount(hs) > 0 <==> exists i :: 0 <= i < |hs| && |hs[i].sqs| > 0
  {
    if hs != [] {
      var init := hs[..|hs| - 1];
      HasQueuesIffCount(init);
      if exists i :: 0 <= i < |init| && |init[i].sqs| > 0 {
        var i :| 0 <= i < |init| && |init[i].sqs| > 0;
        assert hs[i] == init[i];
      }
      if exists i :: 0 <= i < |hs| && |hs[i].sqs| > 0 {
        var i :| 0 <= i < |hs| && |hs[i].sqs| > 0;
        if i < |init| {
          assert init[i] == hs[i];
        }
      }
    }
  }

  /** The singular wording appears exactly when there is one route. */
  lemma SingularIffOne(total: nat)
    ensures HasPrefix(EndpointLine(total), NatToDecimal(total) + " Endpoint to") <==> total == 1
  {
    var d := NatToDecimal(total);
    var line := EndpointLine(total);
    if total != 1 {
      assert line[|d| + 9] == 's';
      assert (d + " Endpoint to")[|d| + 9] == ' ';
    } else {
      assert line[..|d + " Endpoint to"|] == d + " Endpoint to";
    }
  }

  // ---------------------------------------------------------------- not found

  /** The body of the not-found response. */
  const NotFoundBody := "{\"message\": \"Not Found\"}"

  /** What both the not-found and the method-not-allowed handlers do. */
  const NotFoundOps: seq<WriteOp> :=
    [SetHeader("Content-Type", "application/json"), WriteHeader(404), Write(NotFoundBody)]

  /** The client receives a JSON 404 with the not-found message. */
  lemma NotFoundResponse()
    ensures Sent(NotFoundOps) == Some(Response(404, map["Content-Type" := "application/json"], NotFoundBody))
  {
    var a := SetHeader("Content-Type", "application/json");
    ContentTypeCanonical();
    RunSnoc([], a);
    assert Run([a]) == Writer(map["Content-Type" := "application/json"], None, "", false);
    StatusThenBody([a], 404, NotFoundBody);
    assert [a] + [WriteHeader(404), Write(NotFoundBody)] == NotFoundOps;
  }
}
