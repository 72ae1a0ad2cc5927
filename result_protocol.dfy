/**
 * The result framing of offline/handler_server.go: the generated snippet
 * prints the handler's JSON result between TERRABLE_RESULT_START: and
 * :TERRABLE_RESULT_END, and `extractResult` slices it back out of the
 * collected output.
 */
module ResultProtocol {

  import opened Wrappers
  import opened Strings

  const ResultStart := "TERRABLE_RESULT_START:"
  const ResultEnd := ":TERRABLE_RESULT_END"
  const NoMarkersError := "no TERRABLE_RESULT markers found. Unable to parse result"

  /**
   * `extractResult`'s slice exactly as written: the start index is the
   * marker's position plus its length, so it is never negative, even when
   * the start marker is absent.
   */
  function ExtractPayloadAsWritten(output: string): (r: Result<string, string>)
    ensures IndexOf(output, ResultStart) + |ResultStart| >= 0
    ensures r.Failure? ==> r.error == NoMarkersError
  {
    var startIndex := IndexOf(output, ResultStart) + |ResultStart|;
    var endIndex := IndexOf(output, ResultEnd);
    if startIndex >= 0 && endIndex >= 0 && endIndex > startIndex then
      Success(output[startIndex..endIndex])
    else
      Failure(NoMarkersError)
  }

  /**
   * As written, an output with no start marker but an end marker past
   * offset 21 yields a slice instead of the "no markers" error.
   */
  lemma MissingStartMarkerAccepted()
    ensures var out := RepeatChar('x', 22) + ResultEnd;
      && !IsInfix(ResultStart, out)
      && ExtractPayloadAsWritten(out) == Success("x")
      && ExtractPayload(out) == Failure(NoMarkersError)
  {
    var out := RepeatChar('x', 22) + ResultEnd;
    forall j | 0 <= j <= |out| - |ResultStart| ensures !OccursAt(out, ResultStart, j) {
      assert out[j] == 'x' != ResultStart[0];
    }
    assert OccursAt(out, ResultEnd, 22);
    forall j | 0 <= j < 22 ensures !OccursAt(out, ResultEnd, j) {
      assert out[j] == 'x' != ResultEnd[0];
    }
    assert IndexOf(out, ResultEnd) == 22;
    assert out[21..22] == "x";
  }

  /** A start marker at `i` and an end marker at `e` frame the text between them. */
  lemma FrameAt(s: string, i: nat, e: nat)
    requires OccursAt(s, ResultStart, i) && OccursAt(s, ResultEnd, e)
    requires i + |ResultStart| <= e
    ensures OccursAt(s, ResultStart + s[i + |ResultStart|..e] + ResultEnd, i)
  {
    var p := s[i + |ResultStart|..e];
    assert s[i..e + |ResultEnd|] == s[i..i + |ResultStart|] + p + s[e..e + |ResultEnd|];
  }

  /**
   * The payload between the first start marker and the first end marker;
   * the corrected `extractResult` slice, which reports the missing-markers
   * error whenever the start marker is absent.
   */
  function ExtractPayload(output: string): (r: Result<string, string>)
    ensures r.Success? <==>
      IsInfix(ResultStart, output) && IndexOf(output, ResultEnd) > IndexOf(output, ResultStart) + |ResultStart|
    ensures r.Success? ==>
      r.value != "" && OccursAt(output, ResultStart + r.value + ResultEnd, IndexOf(output, ResultStart))
    ensures r.Failure? ==> r.error == NoMarkersError
  {
    var i := IndexOf(output, ResultStart);
    var endIndex := IndexOf(output, ResultEnd);
    if i >= 0 && endIndex > i + |ResultStart| then
      FrameAt(output, i, endIndex);
      Success(output[i + |ResultStart|..endIndex])
    else
      Failure(NoMarkersError)
  }

  /** Whenever the start marker is present the two readings agree. */
  lemma ExtractAgreesWithStartMarker(output: string)
    requires IsInfix(ResultStart, output)
    ensures ExtractPayloadAsWritten(output) == ExtractPayload(output)
  {
  }

  /** ':' occurs in the start marker only as its last character. */
  lemma StartMarkerColon(i: nat)
    requires i < |ResultStart| - 1
    ensures ResultStart[i] != ':'
  {
  }

  /** ':' occurs in the end marker only as its first character. */
  lemma EndMarkerColon(i: nat)
    requires 0 < i < |ResultEnd|
    ensures ResultEnd[i] != ':'
  {
  }

  /** A start marker at `a` with none wholly before it is the first one. */
  lemma StartMarkerFirst(out: string, a: nat)
    requires OccursAt(out, ResultStart, a)
    requires !IsInfix(ResultStart, out[..a])
    ensures IndexOf(out, ResultStart) == a
  {
    forall j | 0 <= j < a ensures !OccursAt(out, ResultStart, j) {
      if j + |ResultStart| <= a {
        assert out[j..j + |ResultStart|] == out[..a][j..j + |ResultStart|];
        assert !OccursAt(out[..a], ResultStart, j);
      } else {
        var k := j + |ResultStart| - 1;
        StartMarkerColon(k - a);
        assert out[k] == ResultStart[k - a] != ':';
      }
    }
  }

  /** An end marker at `b` with none wholly before it is the first one. */
  lemma EndMarkerFirst(out: string, b: nat)
    requires OccursAt(out, ResultEnd, b)
    requires !IsInfix(ResultEnd, out[..b])
    ensures IndexOf(out, ResultEnd) == b
  {
    forall j | 0 <= j < b ensures !OccursAt(out, ResultEnd, j) {
      if j + |ResultEnd| <= b {
        assert out[j..j + |ResultEnd|] == out[..b][j..j + |ResultEnd|];
        assert !OccursAt(out[..b], ResultEnd, j);
      } else {
        EndMarkerColon(b - j);
        assert out[b] == ResultEnd[0] != ResultEnd[b - j];
      }
    }
  }

  /**
   * A framed payload is recovered from any surrounding text, provided the
   * text before it holds no start marker and no end marker precedes the
   * frame's own.
   */
  lemma ExtractPayloadFramed(pre: string, p: string, post: string)
    requires !IsInfix(ResultStart, pre)
    requires !IsInfix(ResultEnd, pre + ResultStart + p)
    ensures ExtractPayload(pre + (ResultStart + p + ResultEnd) + post) ==
      if p == "" then Failure(NoMarkersError) else Success(p)
  {
    var out := pre + (ResultStart + p + ResultEnd) + post;
    var a := |pre|;
    var b := a + |ResultStart| + |p|;
    assert out[..a] == pre;
    assert out[a..a + |ResultStart|] == ResultStart;
    StartMarkerFirst(out, a);
    assert out[..b] == pre + ResultStart + p;
    assert out[b..b + |ResultEnd|] == ResultEnd;
    EndMarkerFirst(out, b);
    assert out[a + |ResultStart|..b] == p;
  }
}
