/**
 * offline/node_process.go: the long-lived interpreter process. `Execute`
 * writes one snippet followed by a newline to the interpreter's stdin, then
 * reads its stdout line by line up to and including the first line that
 * trims to CODE_EXECUTION_COMPLETE.
 *
 * The pipes are modelled as values: what was written to stdin is a
 * sequence of strings, and stdout is the sequence of results that
 * successive `ReadString('\n')` calls return, consumed from a cursor.
 */
module NodeRuntime {

  import opened Wrappers
  import opened Strings

  const CompletionToken := "CODE_EXECUTION_COMPLETE"

  /** One `ReadString('\n')` call: the line read (with its '\n') or the error returned. */
  datatype Read = Line(text: string) | ReadFailed(err: string)

  /** Whether a line ends the snippet's output. */
  predicate IsCompletion(text: string) {
    TrimSpace(text) == CompletionToken
  }

  /** How reading one snippet's output ends, and the position of the next unread entry. */
  datatype Outcome = Completed(output: string, next: nat) | Failed(err: string, next: nat)

  /**
   * The reading loop of `Execute`, from position `pos` with `acc` read so
   * far, stopping after the first line that `isLast` accepts (for `Execute`,
   * `IsCompletion`). Reading past the end of the stream reports io.EOF.
   */
  function ReadUntil(src: seq<Read>, pos: nat, acc: string, isLast: string -> bool): Outcome
    decreases |src| - pos
  {
    if pos >= |src| then Failed("EOF", pos)
    else match src[pos]
      case ReadFailed(e) => Failed(e, pos + 1)
      case Line(t) =>
        if isLast(t) then Completed(acc + t, pos + 1)
        else ReadUntil(src, pos + 1, acc + t, isLast)
  }

  /** A line read that does not end the output. */
  predicate PlainLine(r: Read, isLast: string -> bool) {
    r.Line? && !isLast(r.text)
  }

  /** The text of the lines in `rs`, concatenated without separators. */
  function Texts(rs: seq<Read>): string {
    if rs == [] then ""
    else (if rs[0].Line? then rs[0].text else "") + Texts(rs[1..])
  }

  /**
   * A completed read stopped at the first line `isLast` accepts: every entry
   * before it is a plain line, and the output is what was accumulated
   * followed by the text of every line read, the last one included.
   */
  lemma {:induction false} CompletedShape(src: seq<Read>, pos: nat, acc: string, isLast: string -> bool)
    ensures var o := ReadUntil(src, pos, acc, isLast);
      o.Completed? ==>
        && pos < o.next <= |src|
        && (forall k :: pos <= k < o.next - 1 ==> PlainLine(src[k], isLast))
        && src[o.next - 1].Line? && isLast(src[o.next - 1].text)
        && o.output == acc + Texts(src[pos..o.next])
    decreases |src| - pos
  {
    if pos < |src| && src[pos].Line? {
      var t := src[pos].text;
      if isLast(t) {
        assert src[pos..pos + 1][1..] == [];
      } else {
        CompletedShape(src, pos + 1, acc + t, isLast);
        var o := ReadUntil(src, pos + 1, acc + t, isLast);
        if o.Completed? {
          assert src[pos..o.next][1..] == src[pos + 1..o.next];
        }
      }
    }
  }

  /**
   * Conversely, when plain lines lead from `pos` to a last line at `n - 1`,
   * the read completes there and consumes nothing after it.
   */
  lemma {:induction false} CompletesAt(src: seq<Read>, pos: nat, n: nat, acc: string, isLast: string -> bool)
    requires pos < n <= |src|
    requires forall k :: pos <= k < n - 1 ==> PlainLine(src[k], isLast)
    requires src[n - 1].Line? && isLast(src[n - 1].text)
    ensures ReadUntil(src, pos, acc, isLast) == Completed(acc + Texts(src[pos..n]), n)
    decreases n - pos
  {
    var t := src[pos].text;
    if pos == n - 1 {
      assert src[pos..n][1..] == [];
    } else {
      assert PlainLine(src[pos], isLast);
      CompletesAt(src, pos + 1, n, acc + t, isLast);
      assert src[pos..n][1..] == src[pos + 1..n];
    }
  }

  /**
   * A failed read stopped at the first error, with only plain lines before
   * it, or ran off the end of the stream without meeting a last line.
   */
  lemma {:induction false} FailedShape(src: seq<Read>, pos: nat, acc: string, isLast: string -> bool)
    ensures var o := ReadUntil(src, pos, acc, isLast);
      o.Failed? ==>
        || (&& pos < o.next <= |src|
            && (forall k :: pos <= k < o.next - 1 ==> PlainLine(src[k], isLast))
            && src[o.next - 1] == ReadFailed(o.err))
        || (&& o.err == "EOF" && o.next >= |src|
            && (forall k :: pos <= k < |src| ==> PlainLine(src[k], isLast)))
    decreases |src| - pos
  {
    if pos < |src| && src[pos].Line? && !isLast(src[pos].text) {
      FailedShape(src, pos + 1, acc + src[pos].text, isLast);
    }
  }

  /** What follows the last line does not change the outcome. */
  lemma {:induction false} LaterReadsIgnored(src: seq<Read>, more: seq<Read>, pos: nat, acc: string, isLast: string -> bool)
    requires ReadUntil(src, pos, acc, isLast).Completed?
    ensures ReadUntil(src + more, pos, acc, isLast) == ReadUntil(src, pos, acc, isLast)
    decreases |src| - pos
  {
    assert (src + more)[pos] == src[pos];
    if !isLast(src[pos].text) {
      LaterReadsIgnored(src, more, pos + 1, acc + src[pos].text, isLast);
    }
  }

  lemma {:induction false} TextsEndsWithLast(rs: seq<Read>)
    requires rs != [] && rs[|rs| - 1].Line?
    ensures var t := rs[|rs| - 1].text;
      |t| <= |Texts(rs)| && Texts(rs)[|Texts(rs)| - |t|..] == t
  {
    var t := rs[|rs| - 1].text;
    if |rs| == 1 {
      assert rs[1..] == [];
      assert Texts(rs) == t + "";
    } else {
      var rest := rs[1..];
      assert rest[|rest| - 1] == rs[|rs| - 1];
      TextsEndsWithLast(rest);
      SuffixKept(if rs[0].Line? then rs[0].text else "", Texts(rest), t);
    }
  }

  /** A suffix of `x` is still a suffix once something is put in front. */
  lemma SuffixKept<T>(h: seq<T>, x: seq<T>, t: seq<T>)
    requires |t| <= |x| && x[|x| - |t|..] == t
    ensures (h + x)[|h + x| - |t|..] == t
  {
    assert (h + x)[|h + x| - |t|..] == x[|x| - |t|..];
  }

  /**
   * A completed output ends with the text of the line that ended it (for
   * `Execute`, the line that trims to the completion token).
   */
  lemma OutputEndsWithLastLine(src: seq<Read>, pos: nat, isLast: string -> bool)
    ensures var o := ReadUntil(src, pos, "", isLast);
      o.Completed? ==>
        && 0 < o.next <= |src| && src[o.next - 1].Line? && isLast(src[o.next - 1].text)
        && var last := src[o.next - 1].text;
          |last| <= |o.output| && o.output[|o.output| - |last|..] == last
  {
    CompletedShape(src, pos, "", isLast);
    var o := ReadUntil(src, pos, "", isLast);
    if o.Completed? {
      TextsEndsWithLast(src[pos..o.next]);
      assert src[pos..o.next][|src[pos..o.next]| - 1] == src[o.next - 1];
    }
  }

  /** The interpreter process, as `Execute` sees it. */
  class NodeProcess {
    /** The error a write to stdin fails with (a closed pipe), if any. */
    var stdinError: Option<string>
    /** Everything written to the interpreter's stdin, write by write. */
    var stdin: seq<string>
    /** What successive reads of the interpreter's stdout return. */
    var stdout: seq<Read>
    /** How many of those reads have been made. */
    var cursor: nat

    constructor (stdout: seq<Read>, stdinError: Option<string>)
      ensures this.stdout == stdout && this.stdinError == stdinError
      ensures stdin == [] && cursor == 0
    {
      this.stdout := stdout;
      this.stdinError := stdinError;
      stdin := [];
      cursor := 0;
    }

    /**
     * `Execute`: a failed write returns ("", err) and reads nothing; otherwise
     * the snippet and one newline are written and the output is read as
     * `ReadUntil` with `IsCompletion` describes, a read error discarding what was read.
     */
    method Execute(code: string) returns (output: string, err: Option<string>)
      modifies this`stdin, this`cursor
      ensures old(stdinError).Some? ==>
        output == "" && err == old(stdinError) && stdin == old(stdin) && cursor == old(cursor)
      ensures old(stdinError).None? ==> stdin == old(stdin) + [code + "\n"]
      ensures old(stdinError).None? ==>
        match ReadUntil(stdout, old(cursor), "", IsCompletion)
        case Completed(o, n) => output == o && err == None && cursor == n
        case Failed(e, n) => output == "" && err == Some(e) && cursor == n
    {
      if stdinError.Some? {
        return "", stdinError;
      }
      stdin := stdin + [code + "\n"];
      output := "";
      while true
        invariant stdin == old(stdin) + [code + "\n"]
        invariant ReadUntil(stdout, old(cursor), "", IsCompletion) == ReadUntil(stdout, cursor, output, IsCompletion)
        decreases |stdout| - cursor
      {
        if cursor >= |stdout| {
          return "", Some("EOF");
        }
        var r := stdout[cursor];
        cursor := cursor + 1;
        match r
        case ReadFailed(e) =>
          return "", Some(e);
        case Line(line) =>
          output := output + line;
          if TrimSpace(line) == CompletionToken {
            return output, None;
          }
      }
    }
  }
}
