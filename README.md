# terrable offline core, in Dafny

terrable runs AWS Lambda handlers declared in a Terraform module on the
developer's machine. This project models the parts of it that do the real
work:

- **Configuration** (`utils/terraform.go`, `utils/normalise_path.go`,
  `terrable_build.go`). Find the `module` block and read its timeouts, its
  environment variables (with `SSM:` references looked up) and its handlers.
  Make each handler's source path absolute. Normalise route paths. Read the
  embedded `key=value` build file.
- **Start-up checks** (`offline/offline.go`). Route-prefix validation, the
  layered environment of each handler, the `.env` reader, the port choice,
  the start-up summary counts and the 404 responses.
- **Request round trip** (`offline/handler_server.go`,
  `offline/node_process.go`):
  - the event record built from an HTTP request;
  - the collection of the interpreter's output;
  - recovery of the result framed by `TERRABLE_RESULT_START:` …
    `:TERRABLE_RESULT_END`;
  - the HTTP response written from it;
  - the long-lived interpreter's write-then-read-until-`CODE_EXECUTION_COMPLETE` protocol.
- **Compilation bookkeeping** (`offline/handler_instance.go`):
  - metafile inputs and the bundle path;
  - the build-error report;
  - the file watcher's write filter and its one-shot, re-armed recompile gate.

Each source file has its own module: `Terraform`, `NormalisePath`,
`TerrableBuild`, `Offline`, `HandlerServer`, `ResultProtocol`,
`NodeRuntime` and `Compilation`. Five helper modules support them:
- `Wrappers`: Option and Result;
- `Strings`: Go's `strings` functions as used here, with `unicode.IsSpace` for trimming, and `%d` formatting;
- `FilePath`: `path/filepath` for a platform whose separator is `/`;
- `KeyValue`: the fold shared by the two `key=value` readers;
- `HttpResponse`: `net/http`'s rules for a response writer: header-key canonicalisation, when status and headers are sent, the panic on an invalid status code, informational codes, and statuses that forbid a body.

State the source changes in place is modelled as classes or imperative
methods:
- the handler instance, as `Compilation.HandlerInstance`;
- the interpreter's pipes, as `NodeRuntime.NodeProcess`;
- the map-building loops, as methods with loop invariants proved against specification functions.

Go map iteration order is random. Where a result depends on it, the model
states it up to that order: the order of one handler's validation messages,
the order of handlers, which of several failing entries is reported, and
which of several header keys with one canonical form is sent. For example,
`ParseModuleConfiguration` may return any error in `ModuleErrors`.

External inputs are parameters: the SSM lookup, the working directory,
net.Listen, os.Executable, esbuild's result, JSON decoding and the file
events. Decoded HCL attributes arrive as `Terraform.Value`s.

The environment of a handler layers three maps. The code at
`offline/offline.go:83` lets the `.env` file win over the handler's
variables, and the handler's variables win over the global map; the model
follows it (`Offline.HandlerEnvironment`).

## Model

| member | source | states |
|---|---|---|
| HandlerServer.LastValues | offline/handler_server.go:50-54 | every query key is kept, mapped to the last of its values |
| HandlerServer.FirstValues | offline/handler_server.go:56-60 | every header key is kept, mapped to the first of its values |
| HandlerServer.EventFor | offline/handler_server.go:46-96 | body is null exactly when the request body is empty and otherwise the body unchanged; queryStringParameters is null exactly when there is no query key and otherwise holds the last value per key; headers hold the first value per key; pathParameters is null exactly when no route variable matched; httpMethod and path are the request's |
| HandlerServer.ProcessOutput | offline/handler_server.go:153-166 | the buffer is every line concatenated without separators; the echoed lines are the lines not starting with the result marker, in order |
| HandlerServer.EchoedLines | offline/handler_server.go:156-165 | a line is echoed if and only if it was read and does not start with `TERRABLE_RESULT_START:` |
| HandlerServer.BufferHoldsLine | offline/handler_server.go:156-165 | every line read appears unchanged inside the buffer |
| HandlerServer.ResultLineRecovered | offline/handler_server.go:153-178 | a result line printed by the snippet passes through the buffer and extraction gives back its payload, provided no marker is printed before it |
| HandlerServer.ExtractResult | offline/handler_server.go:168-189 | when a framed payload exists the result is exactly its decoding, success or error; when none exists the error is the "no TERRABLE_RESULT markers" message |
| HandlerServer.WriteResult | offline/handler_server.go:26-42 | on failure: WriteHeader(500) then an empty Write, so the client receives 500 with no header and no body; on success: Header().Set calls taken from the result's headers, then WriteHeader(status), then Write(body); the client then receives no response when the status is outside 100..999 (WriteHeader panics), and otherwise status 200 for an informational code and the result's status for any other, a header map holding the result's headers under their canonical keys (before net/http filters it for the wire), and the body unless that status forbids one |
| HandlerServer.SetHeaders | offline/handler_server.go:33-36 | exactly one call per result header (as many calls as headers, no key twice), each setting a result header to its value; together they leave every header under its canonical key with the value of one of the keys of that form, nothing sent and no body |
| HandlerServer.Respond | offline/handler_server.go:20-43 | the response is 500 with no header and no body when extraction or decoding fails, and otherwise what WriteResult delivers for the decoded result |
| HttpResponse.CanonicalHeaderKeyIgnoresCase | offline/handler_server.go:33-36 | header keys that differ only in letter case are stored under the same key |
| HttpResponse.CanonicalHeaderKeyIdempotent | offline/handler_server.go:33-36 | canonicalising a key twice is canonicalising it once |
| HttpResponse.CanonicalHeaderKeyWithSpace | offline/handler_server.go:33-36 | a key holding a non-token character such as a space is stored as it is |
| HttpResponse.CanonicalKeyUnchanged | offline/handler_server.go:33-36 | a key already in canonical form is stored as it is |
| HttpResponse.CanonicalOfDistinct | offline/handler_server.go:33-36 | when no two result keys share a canonical form, every header arrives with its own value and none is lost |
| HttpResponse.CanonicalOfCanonical | offline/handler_server.go:33-36 | when every result key is already canonical, the header map sent is exactly the result's headers |
| HttpResponse.StatusThenBody | offline/handler_server.go:38-42 | WriteHeader(code) then Write(body) on a fresh writer: no response for a code outside 100..999; otherwise the final status (200 after an informational code), the headers set so far, and the body only where that status allows one |
| ResultProtocol.ExtractPayloadAsWritten | offline/handler_server.go:168-178 | the start index, the marker's position plus its length, is never negative; a failure is the missing-markers error |
| ResultProtocol.MissingStartMarkerAccepted | offline/handler_server.go:169-177 | as written, 22 characters followed by the end marker yield a one-character payload although there is no start marker; the corrected extraction reports the error |
| ResultProtocol.ExtractPayload | offline/handler_server.go:168-178 | success if and only if the start marker occurs and the first end marker lies beyond it; the payload is non-empty and is framed by the markers at the first start marker's position; a failure is the missing-markers error |
| ResultProtocol.ExtractAgreesWithStartMarker | offline/handler_server.go:169-177 | whenever the start marker is present, the code as written and the corrected extraction agree |
| ResultProtocol.ExtractPayloadFramed | offline/handler_server.go:168-178 | a payload framed by the markers is recovered from any surrounding text with no earlier start marker and no earlier end marker, and an empty payload is reported as missing markers |
| NodeRuntime.NodeProcess.Execute | offline/node_process.go:51-75 | a failed write returns ("", err) and reads nothing; otherwise exactly code + "\n" is written and the outcome and the new read position are those of reading until the first line that trims to CODE_EXECUTION_COMPLETE; a read error returns ("", err) |
| NodeRuntime.CompletedShape | offline/node_process.go:62-72 | a completed read stopped at the first completion line: every line before it is not one, and the output is the lines read concatenated, each with its newline, the completion line included |
| NodeRuntime.CompletesAt | offline/node_process.go:62-72 | conversely, non-completion lines followed by a completion line always complete there, with that output |
| NodeRuntime.FailedShape | offline/node_process.go:62-66 | a failed read stopped at the first read error, or at the end of the stream, with only non-completion lines before it |
| NodeRuntime.LaterReadsIgnored | offline/node_process.go:69-71 | nothing after the completion line is consumed: appending more input does not change the outcome |
| NodeRuntime.OutputEndsWithLastLine | offline/node_process.go:68-74 | a successful output ends with the completion line |
| Offline.RouteErrorsEmpty | offline/offline.go:99-115 | there is no route message if and only if every route path of every handler starts with "/" |
| Offline.CheckHandlerRoutes | offline/offline.go:103-107 | the messages are one per route of the handler whose path lacks the "/" prefix, each route once, in the order the map iteration visits them, each naming the handler, method and path |
| Offline.RouteMessagesOf | offline/offline.go:103-107 | the messages of any listing of a handler's offending routes are exactly that handler's route messages |
| Offline.RouteErrorListOf | offline/offline.go:101-109 | the messages listed handler by handler are exactly the messages of all offending routes |
| Offline.ValidateConfig | offline/offline.go:99-115 | no error if and only if every route is prefixed; otherwise the error is the newline-join of the messages handler by handler in configuration order, each handler's offending routes once each in its map iteration order |
| Offline.PutAll | offline/offline.go:227-233 | one copy loop: the keys are the union; copied entries overwrite; other entries are kept |
| Offline.MergeEnvMaps | offline/offline.go:224-236 | the keys are the union of both maps; local wins on a conflict; keys only in global keep their value |
| Offline.HandlerEnvironment | offline/offline.go:81-84 | a variable is set if and only if one of the three maps sets it; its value comes from the `.env` file first, then the handler, then the global map |
| Offline.EnvFileEntry | offline/offline.go:250-258 | a line gives an entry if and only if it is not blank, does not start with "#" untrimmed, and contains "="; key and value come back trimmed |
| Offline.CollectEnvLines | offline/offline.go:247-260 | the map is the fold of the line entries in file order |
| Offline.ReadEnvFile | offline/offline.go:238-266 | an open error or a scanner error is returned as is; otherwise the map the lines define |
| Offline.EnvFileKeys | offline/offline.go:248-258 | a variable is set if and only if some line of the file gives an entry for it |
| Offline.EnvFileLastWins | offline/offline.go:253-258 | the value of a variable is the one from the last line that sets it |
| Offline.IndentedHashIsEntry | offline/offline.go:250-257 | an indented "#" line is not a comment here: "  #a=b" defines the key "#a" |
| Offline.GetListener | offline/offline.go:117-139 | the first address is 127.0.0.1 with the given port, or 8080 when none is given; the fallback to port 0 is tried if and only if no port was given and the first attempt failed; a failure on a specified port is an error naming that port |
| Offline.EndpointLine | offline/offline.go:206-212 | the summary line starts with the route count followed by " Endpoint" |
| Offline.PrintConfig | offline/offline.go:141-212 | the endpoint total is the number of method-to-path entries across handlers; the queue total is the number of queues; the SQS section is shown if and only if some handler has a queue; the summary line uses the total |
| Offline.HasQueuesIffCount | offline/offline.go:150-202 | the queue count is positive if and only if some handler has a queue |
| Offline.SingularIffOne | offline/offline.go:206-210 | the singular "Endpoint to prepare..." is printed if and only if the count is exactly 1 |
| Offline.NotFoundResponse | offline/offline.go:62-72 | the client receives a response with status 404, only the Content-Type header set to application/json, and the body {"message": "Not Found"} |
| Compilation.ExtractMetafileInputs | offline/handler_instance.go:70-87 | an unparsable metafile gives no files; otherwise every input key exactly once and nothing else |
| Compilation.ArtifactInOutDir | offline/handler_instance.go:43-65 | the recorded execution path lies directly in `.terrable` beside the executable and is named `<name>.js` |
| Compilation.ArtifactPathAbsolute | offline/handler_instance.go:43-65 | an absolute executable path gives an absolute bundle path |
| Compilation.CaretLineAsWritten | offline/handler_instance.go:106 | the caret line as written is missing (strings.Repeat panics) if and only if the column is 0, and otherwise has the caret at indent + column - 1 |
| Compilation.CaretLine | offline/handler_instance.go:106 | the corrected caret line: column spaces after the indent, then the caret |
| Compilation.CaretAtColumnZeroPanics | offline/handler_instance.go:103-107 | an error with code text at column 0 makes the report panic as written |
| Compilation.CaretUnderColumn | offline/handler_instance.go:103-107 | when the text before the column is ASCII (so esbuild's byte column is a character index), the corrected caret stands under the offending character of the printed code line; as written it stands one to the left |
| Compilation.ErrorHead | offline/handler_instance.go:98-101 | the four header lines of an error are non-empty and none starts with "-" |
| Compilation.CodeLines | offline/handler_instance.go:103-107 | the code lines are non-empty and none starts with "-" |
| Compilation.PrintError | offline/handler_instance.go:97-112 | one loop iteration prints the error's block: header, code, and a separator unless the error is the last |
| Compilation.PrintBuildErrors | offline/handler_instance.go:93-116 | the whole report: the heading, each error's block in order, the closing rule and the total |
| Compilation.BlockSeparators | offline/handler_instance.go:109-111 | an error's block holds one separator rule if the error is not the last, and none otherwise |
| Compilation.SeparatorCount | offline/handler_instance.go:97-112 | the blocks of all the errors together hold one dash separator fewer than there are errors (none for no errors) |
| Compilation.ReportSeparators | offline/handler_instance.go:93-116 | the report holds exactly one separator between each two consecutive errors and none after the last |
| Compilation.ReportTotal | offline/handler_instance.go:114-115 | the report's last line gives the number of errors |
| Compilation.WriteBitExamples | offline/handler_instance.go:132 | an event counts as a write exactly when its Op has the Write bit, whatever other bits it has |
| Compilation.AnyCleanWriteIff | offline/handler_instance.go:131-137 | an event sequence holds a clean recompile if and only if some event has the Write bit and a build without errors |
| Compilation.HandlerInstance.SetExecutionPath | offline/handler_instance.go:29-34 | the execution path becomes the given path |
| Compilation.HandlerInstance.CompileHandler | offline/handler_instance.go:36-68 | a missing executable location or a build with errors leaves the execution path unchanged and returns no inputs (a build with errors produces the report); a clean build sets the path to `<outDir>/<name>.js` and returns each metafile input once |
| Compilation.HandlerInstance.OnFileEvent | offline/handler_instance.go:131-137 | only an event with the Write bit, arriving while the gate is armed, runs a compile (exactly one); the gate is re-armed after it; other events change nothing |
| Compilation.HandlerInstance.WatchForChanges | offline/handler_instance.go:118-143 | every input file is watched; the compile count grows by the number of write events; the execution path stays as it was or becomes the bundle path; it stays unchanged when no write event brings a clean build, and is the bundle path when the executable is known and some write event brings a clean build |
| NormalisePath.NormalisePath | utils/normalise_path.go:5-11 | the result starts with "/"; a path already starting with "/" is unchanged; otherwise exactly one "/" is prepended; the length grows by at most one |
| NormalisePath.NormalisePathIdempotent | utils/normalise_path.go:5-11 | normalising twice is normalising once |
| NormalisePath.NormalisePathExamples | utils/normalise_path_test.go:11-35 | the five cases of the test table |
| TerrableBuild.ConfigEntry | terrable_build.go:17-29 | a line gives an entry if and only if, once trimmed, it is non-empty, does not start with "#" and contains "="; the key contains no "="; key and value are trimmed |
| TerrableBuild.Config | terrable_build.go:11-33 | the settings are the fold of the entries of the lines split at "\n", in order |
| TerrableBuild.ConfigKeys | terrable_build.go:16-30 | a key is set if and only if some line gives an entry for it |
| TerrableBuild.ConfigLastWins | terrable_build.go:26-28 | a later line with the same key overwrites an earlier one |
| TerrableBuild.ConfigEntryRoundTrip | terrable_build.go:23-28 | writing `k=v` and reading the line back gives (k, v), for any trimmed key without "=" or a leading "#" and any trimmed value, which may itself contain "=" |
| TerrableBuild.IndentedCommentSkipped | terrable_build.go:17-21 | an indented "#" line is a comment, because the line is trimmed before the test |
| KeyValue.CollectKeys | terrable_build.go:16-30 | in the shared line fold, a key is present if and only if some line defines it |
| KeyValue.CollectLastWins | offline/offline.go:253-258 | in the shared line fold, the value of a key comes from the last line that defines it |
| Terraform.FindTargetModule | utils/terraform.go:68-82 | success if and only if some block is a module whose first label is the name; the result is the first such block; otherwise the error "target module '<name>' not found" |
| Terraform.EnvErrors | utils/terraform.go:207-227 | there is no possible error if and only if every variable resolves (a null input always does) |
| Terraform.ResolvedEnv | utils/terraform.go:207-227 | the resolved variables have exactly the input's keys, and a null input gives no variables |
| Terraform.ParseEnvironmentVariables | utils/terraform.go:207-228 | success if and only if every variable resolves; the map is the resolved variables; a failure is one of the variables' errors |
| Terraform.NullEnvEmpty | utils/terraform.go:210-212 | a null value gives an empty map |
| Terraform.PlainValuesCopied | utils/terraform.go:222-224 | values without the `SSM:` prefix are copied verbatim |
| Terraform.SsmValueLookedUp | utils/terraform.go:216-221 | a value `SSM:<name>` becomes the value of parameter `<name>` |
| Terraform.SsmFailureReported | utils/terraform.go:217-220 | a failed lookup is an error naming the variable and the lookup's error |
| Terraform.GlobalTimeoutChoice | utils/terraform.go:84-123 | without an attribute the timeout is 3; a number replaces it; a string is an error; success if and only if the attribute is absent or evaluates cleanly to a number |
| Terraform.HandlerTimeoutChoice | utils/terraform.go:159-169 | a missing or null handler timeout inherits the global one; a number overrides it; it fails if and only if the value is present, not null and not a number |
| Terraform.AbsoluteSourcePath | utils/terraform.go:190-205 | an absolute source is returned unchanged; with an absolute working directory the result is absolute; a failure can only come from the working directory and carries the conversion message |
| Terraform.SourceBesideConfig | utils/terraform.go:190-204 | a relative source file name is found in the configuration file's directory |
| Terraform.CopyRoutes | utils/terraform.go:143-149 | the copy succeeds if and only if every path is a string, and then maps each method to its path |
| Terraform.SettingsErrors | utils/terraform.go:143-174 | the routes, queues, timeout and source-path stages produce no error if and only if they all succeed |
| Terraform.HandlerErrors | utils/terraform.go:129-174 | reading a handler produces no error if and only if the handler reads successfully |
| Terraform.BuiltHandler | utils/terraform.go:176-183 | the mapping built for a handler carries the entry's name |
| Terraform.BuiltHandlerDefaults | utils/terraform.go:134-183 | missing or null `http`, `sqs` or `environment_variables` give empty maps; an absolute source is kept |
| Terraform.ReadSettings | utils/terraform.go:143-183 | success if and only if the routes, queues, timeout and source path all read; the result is the mapping built from them; a failure is one of their errors |
| Terraform.ParseHandler | utils/terraform.go:129-183 | success if and only if the handler reads; the result is the built mapping; a failure is one of the handler's errors |
| Terraform.HandlersErrors | utils/terraform.go:129-184 | the handlers produce no error if and only if every handler reads |
| Terraform.HandlerErrorReported | utils/terraform.go:129-174 | any failing handler's error may be the one reported |
| Terraform.ModuleErrors | utils/terraform.go:86-188 | the module produces no error if and only if it reads successfully |
| Terraform.ParseModuleConfiguration | utils/terraform.go:86-188 | success if and only if the global environment, the global timeout and every handler read; a failure is one of their errors; on success the timeout and the global variables are those read, and the handlers are one mapping per entry of `handlers`, built from it and carrying its name (none when there is no attribute) |
| Terraform.AllHandlersRead | utils/terraform.go:129-185 | once every entry has been read, each entry has exactly one mapping and every handler reads successfully |
| Terraform.ReadHandlers | utils/terraform.go:125-185 | the loop succeeds if and only if every handler reads, producing one mapping per entry; a failure is one of the handlers' errors |
| Terraform.TimeoutDefault | utils/terraform_test.go:20-35 | with no timeout anywhere the module is read and both the module and the handler get 3 seconds |
| Terraform.TimeoutFromModule | utils/terraform_test.go:38-54 | a module `timeout = 5` gives 5 to the module and to its handler |
| Terraform.TimeoutHandlerOverrides | utils/terraform_test.go:57-74 | a handler's `timeout = 10` overrides the module's 5 |
| Terraform.TimeoutInvalid | utils/terraform_test.go:77-91 | a module `timeout = "invalid"` makes reading fail with exactly "global timeout must be a number" |

## Left out

- I/O, processes and the network are not modelled:
  - spawning `node`, `executeNodeCode` and its pipes;
  - `NewNodeProcess` and `Close`;
  - the HTTP server, the router and `net.Listen` (a parameter of `Offline.GetListener`);
  - opening files (`readEnvFile`'s file is given as its lines or the open error);
  - `ParseTerraformFile`, `ReadFile` and `ParseHCL`;
  - AWS SSM (a lookup parameter).
  - offline/sqs.go, config/terrable_toml.go, main.go, the CLI package and the sample handlers are not part of this model.
- Concurrency is not modelled:
  - mutexes, goroutines and WaitGroups are left out;
  - the recompile gate is a sequential two-state machine (`Compilation.Gate`), not `sync.Once`'s atomicity;
  - `WatchForChanges` is modelled over a given sequence of file events.
- Foreign libraries are modelled as data:
  - esbuild's build result, the decoded metafile, fsnotify events and `os.Executable` are parameters;
  - JSON decoding of the handler result is a `decode` parameter of `HandlerServer.ExtractResult`;
  - the JavaScript template and JSON encoding of the event are left out, and `HandlerServer.EventFor` builds the record;
  - HCL parsing and cty evaluation are left out: a module block arrives with its attributes evaluated to `Terraform.Value`.
- Terraform.Value: numbers are integers, so `AsBigFloat().Int64()` truncation of fractional or out-of-range timeouts is not modelled.
- Terraform.ParseModuleConfiguration:
  - the handler order is given only up to permutation, and which failing entry is reported only as a member of `ModuleErrors`, because Go map iteration order is random;
  - cty panics (AsString on a non-string, AsValueMap on a non-object, a missing `source`) are the `Panicked` error rather than a crash;
  - a null `handlers` attribute is treated as such a panic;
  - the diagnostics of `handlers` and `global_environment_variables` are ignored, as the source ignores them.
- Terraform.ParseEnvironmentVariables: which failing variable is reported depends on map order, so the error is specified as a member of `EnvErrors`.
- Terraform.AbsoluteSourcePath and Compilation.ArtifactPath:
  - the separator is '/' and `filepath.ToSlash` is the identity;
  - `filepath.Clean` is not applied, so "." and ".." elements stay in the result.
- Offline.ValidateConfig and Offline.CheckHandlerRoutes: within one handler the order of the messages follows map iteration, so it is specified as some order of that handler's offending routes.
- Compilation.ExtractMetafileInputs and HandlerServer.SetHeaders: their order follows map iteration, so it is not specified; for SetHeaders this means that of several result keys with one canonical form, which value is sent is not specified.
- HandlerServer.ExtractResult: it uses the corrected extraction `ResultProtocol.ExtractPayload`. As written, `Index` gives -1 for a missing start marker, so the start index is 21; output with no start marker but with the end marker at offset 22 or later gives the slice from offset 21 to the end marker, not the missing-markers error (see Findings).
- HandlerServer.Respond: through `ExtractResult` it follows the corrected extraction; as written, the output just described is answered with that slice decoded, which differs from the modelled 500 only when the slice happens to decode.
- ResultProtocol.ExtractPayloadAsWritten: the source's offsets (the marker length 22 and `Index` results) count UTF-8 bytes, the model counts characters; they agree when the text before the end marker is ASCII.
- Compilation.CodeLines: it uses the corrected caret line `Compilation.CaretLine`. As written, code text at column 0 panics in `strings.Repeat`, and at any other column the caret stands one character left (see Findings).
- Compilation.PrintError: through `CodeLines` it prints the corrected caret line; the as-written panic at column 0 is not modelled.
- Compilation.PrintBuildErrors: through `PrintError` it prints the corrected caret line; the as-written panic at column 0 is not modelled.
- Compilation.HandlerInstance.CompileHandler: its report is the corrected one; as written, a build error with code text at column 0, or without a location, panics while the report is printed, so the call never returns.
- Compilation.Message: every build error carries a location. The source dereferences `err.Location` at offline/handler_instance.go:99-100 without a nil check, so an esbuild error without a location panics; that panic is not modelled.
- Compilation.CaretUnderColumn: esbuild's `Column` counts UTF-8 bytes; with non-ASCII text before the column the caret position in characters is not modelled.
- HttpResponse.Sent: the response is the writer's header map, not what goes on the wire. net/http's `Header.writeSubset` skips names that are not valid header field names (a key with a space, such as "x key", is stored but never sent) and replaces CR and LF in values with spaces and trims them; neither filter is modelled, so `HandlerServer.WriteResult` and `HandlerServer.Respond` state the header map the writer holds.
- HttpResponse: interim 1xx responses are not recorded (only the final response is), the headers net/http adds itself (Date, Content-Length, a sniffed Content-Type) are left out, and so is the empty body of a response to HEAD.
- HandlerServer.ProcessOutput: the output is given as the lines `bufio.Scanner` yields; its splitting (a trailing '\r' dropped, the 64 KiB token limit) is not modelled.
- Offline.PrintConfig: the table rows, the colours and the port in the URLs are presentation and are left out; only the counts and the summary wording are modelled.
- Nil maps and empty maps are not distinguished (reading either gives nothing).
- config/terrable_config.go is not part of this model. It lacks the `Sqs` and `Timeout` fields and types the global variables differently. The model follows what utils/terraform.go assigns.
- utils/terraform.go calls `FetchSSMParameter`, which utils/ssm.go does not define (it defines `GetSsmParameter`); both are the lookup parameter.
- Two test expectations the code does not meet are not modelled: the "Endpoint(s)" wording expected by offline/offline_test.go, and the struct-typed `Http` of utils/terraform_http_test.go.

## Findings

| source | as written | input that shows it | evidently intended | confidence | as-written member | corrected member |
|---|---|---|---|---|---|---|
| offline/handler_server.go:169-177 | the start index is `Index(output, "TERRABLE_RESULT_START:") + 22`, so it is never negative and the `startIndex >= 0` test cannot detect a missing start marker | 22 characters followed by `:TERRABLE_RESULT_END` and no start marker: a one-character slice instead of the "no TERRABLE_RESULT markers found" error | report the error whenever the start marker is absent | not executed | ResultProtocol.MissingStartMarkerAccepted | ResultProtocol.ExtractPayload |
| offline/handler_instance.go:106 | the caret line pads with `strings.Repeat(" ", Column-1)`, but esbuild's `Column` is 0-based | an error with code text at column 0: `strings.Repeat` panics on the count -1 (at any other column the caret lands one character left of the error) | pad with `Column` spaces, putting the caret under the offending character | not executed | Compilation.CaretAtColumnZeroPanics | Compilation.CaretUnderColumn |
