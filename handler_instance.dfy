/**
 * offline/handler_instance.go: compiling a handler's source with esbuild,
 * recording where the bundle was written, reporting build errors, and
 * recompiling when one of the bundle's input files is written.
 *
 * esbuild, os.Executable and fsnotify are not modelled: their results are
 * given as parameters (a BuildResult, the executable's path or error, the
 * file events).
 */
module Compilation {

  import opened Wrappers
  import opened Strings
  import FilePath

  /** Where esbuild locates a message: line is 1-based, column 0-based (in bytes). */
  datatype Location = Location(file: string, line: int, column: nat, lineText: string)

  /** An esbuild api.Message. */
  datatype Message = Message(text: string, location: Location)

  /** The metafile esbuild writes, as decoded: its "inputs" keys, or a decoding failure. */
  datatype Metafile = Unparsable(err: string) | Parsed(inputs: set<string>)

  /** What api.Build returns that the handler uses. */
  datatype BuildResult = BuildResult(errors: seq<Message>, metafile: Metafile)

  // ---------------------------------------------------------------- metafile

  /** `extractMetafileInputs`: the input file paths the bundle was built from. */
  method ExtractMetafileInputs(meta: Metafile) returns (inputFiles: seq<string>)
    ensures meta.Unparsable? ==> inputFiles == []
    ensures meta.Parsed? ==> forall f :: f in inputFiles <==> f in meta.inputs
    ensures forall i, j :: 0 <= i < j < |inputFiles| ==> inputFiles[i] != inputFiles[j]
  {
    if meta.Unparsable? {
      return [];
    }
    inputFiles := [];
    var todo := meta.inputs;
    while todo != {}
      invariant todo <= meta.inputs
      invariant forall f :: f in inputFiles <==> f in meta.inputs && f !in todo
      invariant forall i, j :: 0 <= i < j < |inputFiles| ==> inputFiles[i] != inputFiles[j]
      decreases |todo|
    {
      var key :| key in todo;
      inputFiles := inputFiles + [key];
      todo := todo - {key};
    }
  }

  // ---------------------------------------------------------------- artifact path

  /** The output directory: `.terrable` beside the executable. */
  function OutDir(executable: string): string {
    FilePath.Join(FilePath.Dir(executable), ".terrable")
  }

  /**
   * The execution path recorded after a clean build: `<outDir>/<name>.js`.
   * esbuild itself names its output after the entry file.
   */
  function ArtifactPath(executable: string, name: string): string {
    FilePath.Join(OutDir(executable), name + ".js")
  }

  /**
   * The recorded execution path lies directly in the output directory and
   * is named after the handler, for any handler name without a separator.
   */
  lemma ArtifactInOutDir(executable: string, name: string)
    requires '/' !in name
    ensures FilePath.Dir(ArtifactPath(executable, name)) == OutDir(executable)
    ensures FilePath.Base(ArtifactPath(executable, name)) == name + ".js"
  {
    var d := OutDir(executable);
    var dir := FilePath.Dir(executable);
    if d == dir + ".terrable" {
      assert d[|d| - 1] == ".terrable"[8];
    } else {
      assert d == dir + "/.terrable";
      assert d[|d| - 1] == "/.terrable"[9];
    }
    assert (name + ".js")[|name|] == '.';
    FilePath.DirOfJoin(d, name + ".js");
  }

  /** An executable given by an absolute path puts its bundles at absolute paths. */
  lemma ArtifactPathAbsolute(executable: string, name: string)
    requires FilePath.IsAbs(executable)
    ensures FilePath.IsAbs(ArtifactPath(executable, name))
  {
    var i := FilePath.LastSlash(executable);
    assert i >= 0;
    var dir := FilePath.Dir(executable);
    assert dir[0] == '/';
    assert OutDir(executable)[0] == '/';
  }

  // ---------------------------------------------------------------- build errors

  /** strings.Repeat("=", 50) and strings.Repeat("-", 50), each on its own line. */
  const EqualsRule := Equals10 + Equals10 + Equals10 + Equals10 + Equals10 + "\n"
  const DashRule := Dashes10 + Dashes10 + Dashes10 + Dashes10 + Dashes10 + "\n"
  const Equals10 := "=========="
  const Dashes10 := "----------"

  /**
   * The caret line under the offending code, as written: `Column-1`
   * spaces, where strings.Repeat panics on a negative count (None).
   */
  function CaretLineAsWritten(column: nat): (r: Option<string>)
    ensures r.None? <==> column == 0
    ensures r.Some? ==> |r.value| == 4 + (column - 1) + 2 && r.value[4 + column - 1] == '^'
  {
    if column - 1 < 0 then None
    else
      var pad := RepeatChar(' ', column - 1);
      assert ("    " + pad + "^\n")[4 + column - 1] == '^';
      Some("    " + pad + "^\n")
  }

  /** The caret line, with the caret under the 0-based column. */
  function CaretLine(column: nat): (r: string)
    ensures |r| == 4 + column + 2
    ensures r[4 + column] == '^'
    ensures forall i :: 0 <= i < 4 + column ==> r[i] == ' '
  {
    var pad := RepeatChar(' ', column);
    assert forall i :: 0 <= i < 4 + column ==> ("    " + pad + "^\n")[i] == ' ';
    "    " + pad + "^\n"
  }

  /** An error in the first column of a line makes the report panic as written. */
  lemma CaretAtColumnZeroPanics(m: Message)
    requires m.location.column == 0 && m.location.lineText != ""
    ensures CaretLineAsWritten(m.location.column).None?
  {
  }

  /**
   * The corrected caret stands under the offending character of the code
   * line (both lines indented by four spaces); as written it stands one
   * character to the left. esbuild counts the column in bytes, so the text
   * before it is taken to be ASCII, where bytes and characters agree.
   */
  lemma CaretUnderColumn(lineText: string, column: nat)
    requires column < |lineText| && IsAscii(lineText[..column])
    ensures var code := "    " + lineText + "\n";
      code[4 + column] == lineText[column] && CaretLine(column)[4 + column] == '^'
    ensures column > 0 ==> CaretLineAsWritten(column).value[4 + column - 1] == '^'
  {
  }

  /** The first lines printed for error number `number` (counting from 1). */
  function ErrorHead(e: Message, number: nat): (lines: seq<string>)
    ensures forall k :: 0 <= k < |lines| ==> |lines[k]| > 0 && lines[k][0] != '-'
  {
    var loc := e.location;
    var lines := [
      "Error #" + NatToDecimal(number) + ":\n",
      "  File: " + loc.file + "\n",
      "  Line: " + IntToDecimal(loc.line) + ", Column: " + NatToDecimal(loc.column) + "\n",
      "  Message: " + e.text + "\n"];
    assert lines[0][0] == 'E' && lines[1][0] == ' ' && lines[2][0] == ' ' && lines[3][0] == ' ';
    lines
  }

  /** The offending code and the caret under it, when esbuild gives the line's text. */
  function CodeLines(loc: Location): (lines: seq<string>)
    ensures forall k :: 0 <= k < |lines| ==> |lines[k]| > 0 && lines[k][0] != '-'
  {
    if loc.lineText == "" then []
    else
      var lines := ["  Code:\n", "    " + loc.lineText + "\n", CaretLine(loc.column)];
      assert lines[0][0] == ' ' && lines[1][0] == ' ' && lines[2][0] == ' ';
      lines
  }

  /** The lines `printBuildErrors` prints for the error at index `i` of `errs`. */
  function ErrorBlock(errs: seq<Message>, i: nat): seq<string>
    requires i < |errs|
  {
    ErrorHead(errs[i], i + 1) + CodeLines(errs[i].location) + if i < |errs| - 1 then [DashRule] else []
  }

  /** The block of every error, in order. */
  function ErrorBlocks(errs: seq<Message>): (bs: seq<seq<string>>)
    ensures |bs| == |errs|
  {
    seq(|errs|, i requires 0 <= i < |errs| => ErrorBlock(errs, i))
  }

  /** Blocks of lines printed one after the other. */
  function Flatten(bs: seq<seq<string>>): seq<string> {
    if bs == [] then [] else Flatten(bs[..|bs| - 1]) + bs[|bs| - 1]
  }

  /** The two lines that open the report. */
  const ReportHead: seq<string> := ["\n\U{1F6A8} Build Errors:\n", EqualsRule]

  /** The two lines that close the report of `total` errors. */
  function ReportTail(total: nat): seq<string> {
    [EqualsRule, "\nTotal Errors: " + NatToDecimal(total) + "\n"]
  }

  /** Everything `printBuildErrors` prints, line by line. */
  function BuildErrorReport(errs: seq<Message>): seq<string> {
    ReportHead + Flatten(ErrorBlocks(errs)) + ReportTail(|errs|)
  }

  /** One iteration of `printBuildErrors`' loop: the lines for the error at index `i`. */
  method PrintError(errs: seq<Message>, i: nat) returns (lines: seq<string>)
    requires i < |errs|
    ensures lines == ErrorBlock(errs, i)
  {
    var err := errs[i];
    lines := ErrorHead(err, i + 1);
    lines := lines + CodeLines(err.location);
    if i < |errs| - 1 {
      lines := lines + [DashRule];
    }
  }

  /** `printBuildErrors`, with the corrected caret line. */
  method PrintBuildErrors(errs: seq<Message>) returns (out: seq<string>)
    ensures out == BuildErrorReport(errs)
  {
    var blocks: seq<string> := [];
    for i := 0 to |errs|
      invariant blocks == Flatten(ErrorBlocks(errs)[..i])
    {
      var lines := PrintError(errs, i);
      assert ErrorBlocks(errs)[..i + 1][..i] == ErrorBlocks(errs)[..i];
      blocks := blocks + lines;
    }
    assert ErrorBlocks(errs)[..|errs|] == ErrorBlocks(errs);
    out := ReportHead + blocks;
    out := out + ReportTail(|errs|);
  }

  /** The rules are told apart by their first character. */
  lemma RuleFirstChars()
    ensures DashRule[0] == '-' && EqualsRule[0] == '='
  {
  }

  /** How many of `lines` are exactly `x`. */
  function Occurrences(lines: seq<string>, x: string): nat {
    if lines == [] then 0
    else Occurrences(lines[..|lines| - 1], x) + if lines[|lines| - 1] == x then 1 else 0
  }

  lemma {:induction false} OccurrencesAppend(a: seq<string>, b: seq<string>, x: string)
    ensures Occurrences(a + b, x) == Occurrences(a, x) + Occurrences(b, x)
  {
    if b == [] {
      assert a + b == a;
    } else {
      OccurrencesAppend(a, b[..|b| - 1], x);
      assert (a + b)[..|a + b| - 1] == a + b[..|b| - 1];
      assert (a + b)[|a + b| - 1] == b[|b| - 1];
    }
  }

  /** Lines none of which starts with '-' hold no separator rule. */
  lemma {:induction false} NoRuleAmong(lines: seq<string>)
    requires forall k :: 0 <= k < |lines| ==> |lines[k]| > 0 && lines[k][0] != '-'
    ensures Occurrences(lines, DashRule) == 0
  {
    if lines != [] {
      NoRuleAmong(lines[..|lines| - 1]);
      RuleFirstChars();
    }
  }

  /** A block holds a separator exactly when its error is not the last. */
  lemma BlockSeparators(errs: seq<Message>, i: nat)
    requires i < |errs|
    ensures Occurrences(ErrorBlock(errs, i), DashRule) == if i < |errs| - 1 then 1 else 0
  {
    var h, c := ErrorHead(errs[i], i + 1), CodeLines(errs[i].location);
    NoRuleAmong(h);
    NoRuleAmong(c);
    var tail: seq<string> := if i < |errs| - 1 then [DashRule] else [];
    OccurrencesAppend(h, c, DashRule);
    OccurrencesAppend(h + c, tail, DashRule);
    if tail != [] {
      assert tail[..0] == [];
    }
  }

  /** Blocks holding one separator rule each hold, printed together, one per block. */
  lemma {:induction false} OneRuleEach(bs: seq<seq<string>>)
    requires forall i :: 0 <= i < |bs| ==> Occurrences(bs[i], DashRule) == 1
    ensures Occurrences(Flatten(bs), DashRule) == |bs|
  {
    if bs != [] {
      OneRuleEach(bs[..|bs| - 1]);
      OccurrencesAppend(Flatten(bs[..|bs| - 1]), bs[|bs| - 1], DashRule);
    }
  }

  /** Consecutive errors are separated by one rule each, with none after the last. */
  lemma SeparatorCount(errs: seq<Message>)
    ensures Occurrences(Flatten(ErrorBlocks(errs)), DashRule) == if |errs| == 0 then 0 else |errs| - 1
  {
    var bs := ErrorBlocks(errs);
    if bs != [] {
      var init, last := bs[..|bs| - 1], bs[|bs| - 1];
      forall i | 0 <= i < |init| ensures Occurrences(init[i], DashRule) == 1 {
        BlockSeparators(errs, i);
      }
      OneRuleEach(init);
      BlockSeparators(errs, |errs| - 1);
      OccurrencesAppend(Flatten(init), last, DashRule);
    }
  }

  /** The report ends with the number of errors. */
  lemma ReportTotal(errs: seq<Message>)
    ensures var r := BuildErrorReport(errs);
      |r| >= 2 && r[|r| - 1] == "\nTotal Errors: " + NatToDecimal(|errs|) + "\n"
  {
  }

  /** Neither the opening nor the closing lines hold a separator rule. */
  lemma FramingHasNoRule(total: nat)
    ensures Occurrences(ReportHead, DashRule) == 0
    ensures Occurrences(ReportTail(total), DashRule) == 0
  {
    RuleFirstChars();
    assert ReportHead[0][0] == '\n';
    NoRuleAmong(ReportHead);
    assert ReportTail(total)[1][0] == '\n';
    NoRuleAmong(ReportTail(total));
  }

  /** The report holds one separator rule between each two consecutive errors. */
  lemma ReportSeparators(errs: seq<Message>)
    ensures Occurrences(BuildErrorReport(errs), DashRule) == if |errs| == 0 then 0 else |errs| - 1
  {
    var blocks := Flatten(ErrorBlocks(errs));
    SeparatorCount(errs);
    FramingHasNoRule(|errs|);
    OccurrencesAppend(ReportHead, blocks, DashRule);
    OccurrencesAppend(ReportHead + blocks, ReportTail(|errs|), DashRule);
  }

  // ---------------------------------------------------------------- the handler

  /** fsnotify.Write. */
  const WriteOp: bv32 := 2

  /** Whether a file event's Op has the Write bit set. */
  predicate IsWrite(op: bv32) {
    op & WriteOp == WriteOp
  }

  /** Events combining Write with other bits count; events without it do not. */
  lemma WriteBitExamples()
    ensures IsWrite(2) && IsWrite(1 | 2) && IsWrite(2 | 16)
    ensures !IsWrite(1) && !IsWrite(4) && !IsWrite(8) && !IsWrite(16)
  {
  }

  /**
   * The recompile gate (the `recompileSyncLock` sync.Once): Armed until a
   * write starts a recompile, Running while it runs, re-armed with a fresh
   * gate when it ends.
   */
  datatype Gate = Armed | Running

  /** A file event, with the result esbuild gives if it triggers a recompile. */
  datatype FileEvent = FileEvent(op: bv32, build: BuildResult)

  /** The number of events with the Write bit. */
  function WriteCount(events: seq<FileEvent>): nat {
    if events == [] then 0
    else WriteCount(events[..|events| - 1]) + if IsWrite(events[|events| - 1].op) then 1 else 0
  }

  /** An event that recompiles cleanly: it has the Write bit and its build has no errors. */
  predicate CleanWrite(e: FileEvent) {
    IsWrite(e.op) && e.build.errors == []
  }

  /** Whether some event recompiles cleanly. */
  function AnyCleanWrite(events: seq<FileEvent>): bool {
    events != [] && (AnyCleanWrite(events[..|events| - 1]) || CleanWrite(events[|events| - 1]))
  }

  lemma {:induction false} AnyCleanWriteIff(events: seq<FileEvent>)
    ensures AnyCleanWrite(events) <==> exists i :: 0 <= i < |events| && CleanWrite(events[i])
  {
    if events != [] {
      var init := events[..|events| - 1];
      AnyCleanWriteIff(init);
      if AnyCleanWrite(init) {
        var i :| 0 <= i < |init| && CleanWrite(init[i]);
        assert events[i] == init[i];
      }
      if exists i :: 0 <= i < |events| && CleanWrite(events[i]) {
        var i :| 0 <= i < |events| && CleanWrite(events[i]);
        if i < |init| {
          assert init[i] == events[i];
        }
      }
    }
  }

  class HandlerInstance {
    /** The handler's name and source file (handlerConfig). */
    const name: string
    const source: string
    /** handlerTranspiledPath: the bundle to execute. */
    var executionPath: string
    /** recompileSyncLock. */
    var gate: Gate
    /** The files the watcher was told to watch. */
    var watched: set<string>
    /** The number of compilations run so far. */
    ghost var compiles: nat

    constructor (name: string, source: string)
      ensures this.name == name && this.source == source
      ensures executionPath == "" && gate == Armed && watched == {} && compiles == 0
    {
      this.name := name;
      this.source := source;
      executionPath := "";
      gate := Armed;
      watched := {};
      compiles := 0;
    }

    /** `SetExecutionPath`. */
    method SetExecutionPath(path: string)
      modifies this`executionPath
      ensures executionPath == path
    {
      executionPath := path;
    }

    /**
     * `CompileHandler`: without the executable's location nothing happens;
     * a build with errors reports them and leaves the execution path as it
     * was; a clean build records the bundle's path and returns its inputs.
     */
    method CompileHandler(executable: Result<string, string>, build: BuildResult)
      returns (inputFiles: seq<string>, report: seq<string>)
      modifies this`executionPath, this`compiles
      ensures compiles == old(compiles) + 1
      ensures executable.Failure? || build.errors != [] ==>
        inputFiles == [] && executionPath == old(executionPath)
      ensures executable.Success? && build.errors != [] ==> report == BuildErrorReport(build.errors)
      ensures executable.Failure? || build.errors == [] ==> report == []
      ensures executable.Success? && build.errors == [] ==>
        && executionPath == ArtifactPath(executable.value, name)
        && (build.metafile.Unparsable? ==> inputFiles == [])
        && (build.metafile.Parsed? ==> forall f :: f in inputFiles <==> f in build.metafile.inputs)
        && (forall i, j :: 0 <= i < j < |inputFiles| ==> inputFiles[i] != inputFiles[j])
    {
      compiles := compiles + 1;
      inputFiles, report := [], [];
      if executable.Failure? {
        return;
      }
      var outDir := FilePath.Join(FilePath.Dir(executable.value), ".terrable");
      if |build.errors| > 0 {
        report := PrintBuildErrors(build.errors);
        return;
      }
      SetExecutionPath(FilePath.Join(outDir, name + ".js"));
      inputFiles := ExtractMetafileInputs(build.metafile);
    }

    /**
     * The watcher's handling of one event: a write while the gate is armed
     * runs one recompile through the gate, which is then re-armed; any
     * other event changes nothing.
     */
    method OnFileEvent(event: FileEvent, executable: Result<string, string>)
      modifies this`gate, this`executionPath, this`compiles
      ensures gate == (if IsWrite(event.op) then Armed else old(gate))
      ensures compiles == old(compiles) + (if IsWrite(event.op) && old(gate) == Armed then 1 else 0)
      ensures !(IsWrite(event.op) && old(gate) == Armed && executable.Success? && event.build.errors == []) ==>
        executionPath == old(executionPath)
      ensures IsWrite(event.op) && old(gate) == Armed && executable.Success? && event.build.errors == [] ==>
        executionPath == ArtifactPath(executable.value, name)
    {
      if event.op & WriteOp == WriteOp {
        if gate == Armed {
          gate := Running;
          var _, _ := CompileHandler(executable, event.build);
        }
        gate := Armed;
      }
    }

    /**
     * `WatchForChanges`, over the events the watcher delivers: every input
     * file is watched, each event with the Write bit triggers exactly one
     * recompile, and the execution path only ever moves to the bundle path.
     */
    method WatchForChanges(inputFiles: seq<string>, executable: Result<string, string>, events: seq<FileEvent>)
      modifies this
      ensures watched == set f | f in inputFiles
      ensures gate == Armed
      ensures compiles == old(compiles) + WriteCount(events)
      ensures executionPath == old(executionPath) ||
        (executable.Success? && executionPath == ArtifactPath(executable.value, name))
      ensures !AnyCleanWrite(events) ==> executionPath == old(executionPath)
      ensures executable.Success? && AnyCleanWrite(events) ==> executionPath == ArtifactPath(executable.value, name)
    {
      gate := Armed;
      watched := {};
      for i := 0 to |inputFiles|
        invariant watched == set f | f in inputFiles[..i]
        invariant gate == Armed && compiles == old(compiles) && executionPath == old(executionPath)
      {
        assert inputFiles[..i + 1] == inputFiles[..i] + [inputFiles[i]];
        watched := watched + {inputFiles[i]};
      }
      assert inputFiles[..|inputFiles|] == inputFiles;
      for i := 0 to |events|
        invariant gate == Armed && watched == set f | f in inputFiles
        invariant compiles == old(compiles) + WriteCount(events[..i])
        invariant executionPath == old(executionPath) ||
          (executable.Success? && executionPath == ArtifactPath(executable.value, name))
        invariant !AnyCleanWrite(events[..i]) ==> executionPath == old(executionPath)
        invariant executable.Success? && AnyCleanWrite(events[..i]) ==> executionPath == ArtifactPath(executable.value, name)
      {
        assert events[..i + 1][..i] == events[..i];
        OnFileEvent(events[i], executable);
      }
      assert events[..|events|] == events;
    }
  }
}
