/**
 * What a handler does to Go's http.ResponseWriter, as a sequence of calls,
 * and the response the client receives from it under net/http's rules:
 *  - `Header().Set` stores its value under the canonical form of the key;
 *  - the status and the header map are sent at the first final WriteHeader
 *    (or at the first Write, with status 200); later WriteHeader calls and
 *    header changes have no effect, and a handler that writes nothing
 *    sends 200;
 *  - WriteHeader with a code outside 100..999 panics: the server recovers
 *    and closes the connection, so the client receives no response;
 *  - an informational code (1xx other than 101) goes out ahead of the
 *    final response and does not fix its status;
 *  - a status that forbids a body (1xx, 204, 304) makes Write drop its data.
 */
module HttpResponse {

  import opened Wrappers

  datatype WriteOp =
    | SetHeader(key: string, value: string)  // w.Header().Set(key, value)
    | WriteHeader(code: int)                 // w.WriteHeader(code)
    | Write(data: string)                    // w.Write(data)

  datatype Response = Response(status: int, headers: map<string, string>, body: string)

  /**
   * The writer's state: its header map, the status and headers sent with the
   * status line, the body so far, and whether the handler has panicked.
   */
  datatype Writer = Writer(header: map<string, string>, sent: Option<(int, map<string, string>)>, body: string, panicked: bool)

  // ---------------------------------------------------------------- header keys

  /** A character textproto accepts in a header name: a token character of RFC 7230. */
  predicate IsTokenChar(c: char) {
    || ('a' <= c <= 'z') || ('A' <= c <= 'Z') || ('0' <= c <= '9')
    || c in {'!', '#', '$', '%', '&', '\'', '*', '+', '-', '.', '^', '_', '`', '|', '~'}
  }

  predicate IsToken(s: string) {
    forall i :: 0 <= i < |s| ==> IsTokenChar(s[i])
  }

  /** One character of a canonical key: upper case where `upper`, lower case elsewhere. */
  function CaseAt(c: char, upper: bool): char {
    if upper && 'a' <= c <= 'z' then (c as int - 32) as char
    else if !upper && 'A' <= c <= 'Z' then (c as int + 32) as char
    else c
  }

  /** Letters upper-cased at the start and after each '-', lower-cased everywhere else. */
  function CanonicalCase(s: string): (r: string)
    ensures |r| == |s|
    ensures forall i {:trigger r[i]} :: 0 <= i < |s| ==> r[i] == CaseAt(s[i], i == 0 || s[i - 1] == '-')
  {
    seq(|s|, i requires 0 <= i < |s| => CaseAt(s[i], i == 0 || s[i - 1] == '-'))
  }

  /**
   * textproto.CanonicalMIMEHeaderKey, which `Header().Set` applies to its key:
   * a key holding anything but token characters is kept as it is.
   */
  function CanonicalHeaderKey(k: string): string {
    if IsToken(k) then CanonicalCase(k) else k
  }

  /** Canonicalising twice is canonicalising once. */
  lemma CanonicalHeaderKeyIdempotent(k: string)
    ensures CanonicalHeaderKey(CanonicalHeaderKey(k)) == CanonicalHeaderKey(k)
  {
    if IsToken(k) {
      var r := CanonicalCase(k);
      assert IsToken(r);
      assert forall i :: 0 <= i < |k| ==> (r[i] == '-' <==> k[i] == '-');
      assert CanonicalCase(r) == r;
    }
  }

  /** ASCII lower case of one character. */
  function Lower(c: char): char {
    if 'A' <= c <= 'Z' then (c as int + 32) as char else c
  }

  /**
   * Keys that differ only in the case of their letters collide: `Header().Set`
   * stores both under one key.
   */
  lemma CanonicalHeaderKeyIgnoresCase(a: string, b: string)
    requires |a| == |b| && IsToken(a)
    requires forall i :: 0 <= i < |a| ==> Lower(a[i]) == Lower(b[i])
    ensures CanonicalHeaderKey(a) == CanonicalHeaderKey(b)
  {
    forall i | 0 <= i < |a|
      ensures IsTokenChar(b[i]) && (a[i] == '-' <==> b[i] == '-')
      ensures forall u :: CaseAt(a[i], u) == CaseAt(b[i], u)
    {
      SameLower(a[i], b[i]);
    }
  }

  lemma SameLower(c: char, d: char)
    requires IsTokenChar(c) && Lower(c) == Lower(d)
    ensures IsTokenChar(d) && (c == '-' <==> d == '-')
    ensures forall u :: CaseAt(c, u) == CaseAt(d, u)
  {
  }

  /** A key already in canonical form: its own canonical key. */
  predicate IsCanonical(k: string) {
    forall i :: 0 <= i < |k| ==>
      if i == 0 || k[i - 1] == '-' then !('a' <= k[i] <= 'z') else !('A' <= k[i] <= 'Z')
  }

  lemma CanonicalKeyUnchanged(k: string)
    requires IsToken(k) && IsCanonical(k)
    ensures CanonicalHeaderKey(k) == k
  {
  }

  lemma ContentTypeCanonical()
    ensures CanonicalHeaderKey("Content-Type") == "Content-Type"
  {
    CanonicalKeyUnchanged("Content-Type");
  }

  /** A key with a space in it is left as it is. */
  lemma CanonicalHeaderKeyWithSpace()
    ensures CanonicalHeaderKey("x key") == "x key"
  {
    assert !IsTokenChar("x key"[1]);
  }

  /**
   * `h` is what `Header().Set` leaves after setting every entry of `headers`
   * in some order: a key for each canonical form of a key there, holding the
   * value of one of the keys with that form.
   */
  ghost predicate CanonicalOf(h: map<string, string>, headers: map<string, string>) {
    && (forall k :: k in headers ==> CanonicalHeaderKey(k) in h)
    && (forall key :: key in h ==>
          exists k :: k in headers && CanonicalHeaderKey(k) == key && headers[k] == h[key])
  }

  lemma CanonicalOfSet(h: map<string, string>, headers: map<string, string>, k: string, v: string)
    requires CanonicalOf(h, headers)
    ensures CanonicalOf(h[CanonicalHeaderKey(k) := v], headers[k := v])
  {
    var h', headers' := h[CanonicalHeaderKey(k) := v], headers[k := v];
    forall key | key in h'
      ensures exists k' :: k' in headers' && CanonicalHeaderKey(k') == key && headers'[k'] == h'[key]
    {
      if key == CanonicalHeaderKey(k) {
        assert headers'[k] == h'[key];
      } else {
        var k' :| k' in headers && CanonicalHeaderKey(k') == key && headers[k'] == h[key];
        assert headers'[k'] == h'[key];
      }
    }
  }

  /** When no two keys share a canonical form, each value arrives under its key's canonical form. */
  lemma CanonicalOfDistinct(h: map<string, string>, headers: map<string, string>)
    requires CanonicalOf(h, headers)
    requires forall k1, k2 :: k1 in headers && k2 in headers && CanonicalHeaderKey(k1) == CanonicalHeaderKey(k2) ==> k1 == k2
    ensures forall k :: k in headers ==> h[CanonicalHeaderKey(k)] == headers[k]
    ensures |h| == |headers|
  {
    assert h.Keys == set k | k in headers :: CanonicalHeaderKey(k);
    InjectiveImage(headers.Keys);
  }

  lemma {:induction false} InjectiveImage(keys: set<string>)
    requires forall k1, k2 :: k1 in keys && k2 in keys && CanonicalHeaderKey(k1) == CanonicalHeaderKey(k2) ==> k1 == k2
    ensures |set k | k in keys :: CanonicalHeaderKey(k)| == |keys|
  {
    if keys != {} {
      var k :| k in keys;
      InjectiveImage(keys - {k});
      assert (set k' | k' in keys :: CanonicalHeaderKey(k')) ==
        (set k' | k' in keys - {k} :: CanonicalHeaderKey(k')) + {CanonicalHeaderKey(k)};
    }
  }

  /** Keys already in canonical form arrive unchanged, with their own values. */
  lemma CanonicalOfCanonical(h: map<string, string>, headers: map<string, string>)
    requires CanonicalOf(h, headers)
    requires forall k :: k in headers ==> CanonicalHeaderKey(k) == k
    ensures h == headers
  {
  }

  // ---------------------------------------------------------------- status codes

  /** The codes WriteHeader accepts; any other makes it panic. */
  predicate ValidCode(c: int) { 100 <= c <= 999 }

  /** An informational code: sent ahead of the final response (101 excepted). */
  predicate Informational(c: int) { 100 <= c <= 199 && c != 101 }

  /** Whether a response with status `c` may carry a body. */
  predicate BodyAllowed(c: int) { !(100 <= c <= 199) && c != 204 && c != 304 }

  /** The status of the final response after WriteHeader(c) and a Write. */
  function FinalStatus(c: int): (s: int)
    ensures ValidCode(c) ==> ValidCode(s) && !Informational(s)
    ensures !Informational(c) ==> s == c
  {
    if Informational(c) then 200 else c
  }

  // ---------------------------------------------------------------- the writer

  function Step(w: Writer, op: WriteOp): Writer {
    if w.panicked then w
    else match op
    case SetHeader(k, v) => w.(header := w.header[CanonicalHeaderKey(k) := v])
    case WriteHeader(c) =>
      if w.sent.Some? then w
      else if !ValidCode(c) then w.(panicked := true)
      else if Informational(c) then w
      else w.(sent := Some((c, w.header)))
    case Write(d) =>
      var w' := if w.sent.None? then w.(sent := Some((200, w.header))) else w;
      if BodyAllowed(w'.sent.value.0) then w'.(body := w'.body + d) else w'
  }

  function Run(ops: seq<WriteOp>): Writer {
    if ops == [] then Writer(map[], None, "", false) else Step(Run(ops[..|ops| - 1]), ops[|ops| - 1])
  }

  lemma RunSnoc(ops: seq<WriteOp>, op: WriteOp)
    ensures Run(ops + [op]) == Step(Run(ops), op)
  {
    assert (ops + [op])[..|ops|] == ops;
  }

  /**
   * The response the client receives, with the header map the writer held
   * when it was sent (before the filtering for the wire); none once the
   * handler has panicked.
   */
  function Sent(ops: seq<WriteOp>): Option<Response> {
    var w := Run(ops);
    if w.panicked then None
    else match w.sent
    case Some((c, h)) => Some(Response(c, h, w.body))
    case None => Some(Response(200, w.header, w.body))
  }

  /**
   * Header map set, then WriteHeader(c), then Write(body): no response for a
   * code net/http refuses; otherwise the final status, those headers, and the
   * body when that status allows one.
   */
  lemma StatusThenBody(ops: seq<WriteOp>, c: int, body: string)
    requires Run(ops).sent.None? && !Run(ops).panicked && Run(ops).body == ""
    ensures !ValidCode(c) ==> Sent(ops + [WriteHeader(c), Write(body)]).None?
    ensures ValidCode(c) ==>
      Sent(ops + [WriteHeader(c), Write(body)]) ==
        Some(Response(FinalStatus(c), Run(ops).header, if BodyAllowed(FinalStatus(c)) then body else ""))
  {
    var w := Run(ops);
    RunSnoc(ops, WriteHeader(c));
    RunSnoc(ops + [WriteHeader(c)], Write(body));
    assert ops + [WriteHeader(c)] + [Write(body)] == ops + [WriteHeader(c), Write(body)];
    var w1 := Step(w, WriteHeader(c));
    if ValidCode(c) {
      var s := FinalStatus(c);
      assert w1 == if Informational(c) then w else w.(sent := Some((c, w.header)));
      var w2 := Step(w1, Write(body));
      assert w2 == Writer(w.header, Some((s, w.header)), if BodyAllowed(s) then body else "", false);
    }
  }
}
