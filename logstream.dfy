/**
 * The log streaming session: one fetch of an NDJSON resource read chunk by
 * chunk, with the parsed entries accumulated in order, the byte progress,
 * the error state and the loading flag.
 *
 * Transport is taken as data: a fetch either fails, is aborted by the user
 * while pending, or produces a response whose body is a sequence of decoded
 * chunks (text with its byte length) followed by how the reading ended.
 * The chunk parser and JSON.parse are foreign; a session is constructed
 * with both as uninterpreted functions and only what the session does with
 * their results is modelled.
 */
module LogStream {
  import opened Types

  /** An Error object: its name and its message. */
  datatype Error = Error(name: string, message: string)

  /** A thrown value: an Error object, or anything else that can be thrown. */
  datatype Thrown = ErrorValue(err: Error) | NonErrorValue

  /** The chunk parser's answer: the complete entries and the unfinished tail. */
  datatype ParseResult = ParseResult(results: seq<LogEntry>, newBuffer: string)

  /** One decoded chunk of the body and the number of bytes it was decoded from. */
  datatype Chunk = Chunk(text: string, byteLength: nat)

  /**
   * How reading the body ended: the stream was exhausted, a read threw,
   * or the user aborted while a read was pending.
   */
  datatype StreamEnd = Done | ReadFails(thrown: Thrown) | UserAbort

  datatype Body = Body(chunks: seq<Chunk>, end: StreamEnd)

  /** What fetch resolves to: status, body (absent when null) and the Content-Length header. */
  datatype Response = Response(ok: bool, status: nat, body: Option<Body>, contentLength: Option<string>)

  /** What awaiting fetch gives: a response, a rejection, or a user abort while it was pending. */
  datatype FetchOutcome = Responds(response: Response) | Rejects(thrown: Thrown) | AbortedWhileFetching

  /** The result of the response checks: a reader over the body, or the Error they throw. */
  datatype Checked = Reader(body: Body) | Throws(err: Error)

  /**
   * Number(text) on a Content-Length value: the integer a decimal numeral
   * denotes, or the (trimmed) text when it is not a plain decimal numeral.
   */
  datatype JsNumber = Num(value: nat) | NonDecimal(text: string)

  /** The calls the session makes into the timing helpers. */
  datatype PerfCall = PerfStart | PerfFirstByte

  /** The rejection that an aborted fetch or read produces. */
  const AbortErrorValue: Thrown := ErrorValue(Error("AbortError", "This operation was aborted"))

  /** An `Error` whose name is "AbortError": the one failure that is not reported. */
  predicate IsAbortError(t: Thrown)
    ensures IsAbortError(t) <==> t.ErrorValue? && t.err.name == AbortErrorValue.err.name
  {
    t.ErrorValue? && t.err.name == "AbortError"
  }

  // ---------------------------------------------------------------------
  // Error classification
  // ---------------------------------------------------------------------

  /**
   * The error a failure leaves in the session: nothing for an abort, the
   * thrown Error itself otherwise, and a generic Error for a thrown value
   * that is not an Error.
   */
  function Classify(t: Thrown): (r: Option<Error>)
    ensures r.None? <==> IsAbortError(t)
    ensures t.ErrorValue? && !IsAbortError(t) ==> r == Some(t.err)
    ensures t.NonErrorValue? ==> r == Some(Error("Error", "Unknown error occurred"))
  {
    if IsAbortError(t) then None
    else if t.ErrorValue? then Some(t.err)
    else Some(Error("Error", "Unknown error occurred"))
  }

  /** A reported error keeps the thrown Error's message; only an abort goes unreported. */
  lemma ClassifyKeepsMessage(t: Thrown, m: string)
    requires t == ErrorValue(Error("Error", m))
    ensures Classify(t).Some? && Classify(t).value.message == m
  {
    assert !IsAbortError(t) by {
      assert "Error" != "AbortError" by { assert "Error"[0] != "AbortError"[0]; }
    }
  }

  // ---------------------------------------------------------------------
  // Decimal numerals
  // ---------------------------------------------------------------------

  predicate IsDigit(c: char)
  {
    '0' <= c <= '9'
  }

  predicate AllDigits(s: string)
  {
    forall i :: 0 <= i < |s| ==> IsDigit(s[i])
  }

  /** The value of a decimal numeral, most significant digit first. */
  function DigitsValue(s: string): nat
    requires AllDigits(s)
  {
    if |s| == 0 then 0
    else DigitsValue(s[..|s| - 1]) * 10 + (s[|s| - 1] as int - '0' as int)
  }

  /** The decimal numeral of n, as a template literal writes it. */
  function NatToString(n: nat): (s: string)
    ensures |s| >= 1 && AllDigits(s)
    ensures s[0] == '0' ==> n == 0 && s == "0"
  {
    var d := ['0' + (n % 10) as char];
    if n < 10 then d else NatToString(n / 10) + d
  }

  /** Reading a numeral back gives the number it was written from. */
  lemma {:induction false} DigitsRoundTrip(n: nat)
    ensures DigitsValue(NatToString(n)) == n
  {
    var s := NatToString(n);
    if n >= 10 {
      DigitsRoundTrip(n / 10);
      assert s[..|s| - 1] == NatToString(n / 10);
    }
  }

  // ---------------------------------------------------------------------
  // String.prototype.trim
  // ---------------------------------------------------------------------

  /** The white space and line terminators that String.prototype.trim removes. */
  predicate IsJsWhitespace(c: char)
  {
    var n := c as int;
    n == 0x09 || n == 0x0A || n == 0x0B || n == 0x0C || n == 0x0D || n == 0x20
    || n == 0xA0 || n == 0x1680 || (0x2000 <= n <= 0x200A) || n == 0x2028 || n == 0x2029
    || n == 0x202F || n == 0x205F || n == 0x3000 || n == 0xFEFF
  }

  /** The first index at or after i that does not hold white space (|s| when there is none). */
  function SkipBlanks(s: string, i: nat): (j: nat)
    requires i <= |s|
    ensures i <= j <= |s|
    ensures forall k :: i <= k < j ==> IsJsWhitespace(s[k])
    ensures j < |s| ==> !IsJsWhitespace(s[j])
    decreases |s| - i
  {
    if i < |s| && IsJsWhitespace(s[i]) then SkipBlanks(s, i + 1) else i
  }

  /** Moving down from j to no lower than lo, the end of the last character that is not white space. */
  function SkipBlanksBack(s: string, lo: nat, j: nat): (k: nat)
    requires lo <= j <= |s|
    ensures lo <= k <= j
    ensures forall m :: k <= m < j ==> IsJsWhitespace(s[m])
    ensures k > lo ==> !IsJsWhitespace(s[k - 1])
    decreases j
  {
    if j > lo && IsJsWhitespace(s[j - 1]) then SkipBlanksBack(s, lo, j - 1) else j
  }

  /**
   * String.prototype.trim: s without its leading and trailing white space.
   * Only white space lies outside the result, and the result neither starts
   * nor ends with white space.
   */
  function Trim(s: string): (t: string)
    ensures var a := SkipBlanks(s, 0);
      (a + |t| <= |s| && t == s[a..a + |t|]
       && (forall i :: 0 <= i < a ==> IsJsWhitespace(s[i]))
       && (forall i :: a + |t| <= i < |s| ==> IsJsWhitespace(s[i])))
    ensures |t| > 0 ==> !IsJsWhitespace(t[0]) && !IsJsWhitespace(t[|t| - 1])
  {
    var a := SkipBlanks(s, 0);
    var b := SkipBlanksBack(s, a, |s|);
    assert a < b ==> !IsJsWhitespace(s[a]) && !IsJsWhitespace(s[b - 1]);
    s[a..b]
  }

  /** The trimmed text is empty exactly when the text is all white space. */
  lemma TrimEmptyIffBlank(s: string)
    ensures Trim(s) == "" <==> forall i :: 0 <= i < |s| ==> IsJsWhitespace(s[i])
  {
    var t := Trim(s);
    if t != "" {
      assert t[0] == s[SkipBlanks(s, 0)];
    }
  }

  /** Text that starts and ends with something other than white space is its own trim. */
  lemma TrimKeepsSolid(s: string)
    requires |s| > 0 && !IsJsWhitespace(s[0]) && !IsJsWhitespace(s[|s| - 1])
    ensures Trim(s) == s
  {
    assert SkipBlanks(s, 0) == 0;
    assert SkipBlanksBack(s, 0, |s|) == |s|;
    assert s[0..|s|] == s;
  }

  // ---------------------------------------------------------------------
  // Response checks
  // ---------------------------------------------------------------------

  /** Number(text) for a non-empty header value. */
  function ToNumber(text: string): (n: JsNumber)
    ensures n.Num? <==> AllDigits(Trim(text))
  {
    var t := Trim(text);
    if AllDigits(t) then Num(DigitsValue(t)) else NonDecimal(t)
  }

  /** totalBytes from the Content-Length header: null when it is absent or empty. */
  function ContentLengthToTotal(header: Option<string>): (total: Option<JsNumber>)
    ensures total.None? <==> header.None? || header.value == ""
  {
    if header.None? || header.value == "" then None else Some(ToNumber(header.value))
  }

  /** A Content-Length header written from a byte count gives that byte count back. */
  lemma ContentLengthRoundTrip(n: nat)
    ensures ContentLengthToTotal(Some(NatToString(n))) == Some(Num(n))
  {
    var s := NatToString(n);
    assert !IsJsWhitespace(s[0]) && !IsJsWhitespace(s[|s| - 1]) by {
      assert IsDigit(s[0]) && IsDigit(s[|s| - 1]);
    }
    TrimKeepsSolid(s);
    DigitsRoundTrip(n);
  }

  const HttpErrorPrefix: string := "HTTP error! status: "

  /**
   * The error fetchLogStream throws for a response, if any: a non-ok status
   * is reported first, with the status in the message; an ok response with
   * no body is reported next.
   */
  function ResponseError(r: Response): (e: Option<Error>)
    ensures e.None? <==> r.ok && r.body.Some?
    ensures !r.ok ==> e == Some(Error("Error", HttpErrorPrefix + NatToString(r.status)))
    ensures r.ok && r.body.None? ==> e == Some(Error("Error", "Response body is null"))
  {
    if !r.ok then Some(Error("Error", HttpErrorPrefix + NatToString(r.status)))
    else if r.body.None? then Some(Error("Error", "Response body is null"))
    else None
  }

  /** The status of a failed response can be read back from the error message. */
  lemma HttpStatusInMessage(r: Response)
    requires !r.ok
    ensures var m := ResponseError(r).value.message;
      |HttpErrorPrefix| <= |m| && AllDigits(m[|HttpErrorPrefix|..])
      && DigitsValue(m[|HttpErrorPrefix|..]) == r.status
  {
    var m := ResponseError(r).value.message;
    assert m[|HttpErrorPrefix|..] == NatToString(r.status);
    DigitsRoundTrip(r.status);
  }

  // ---------------------------------------------------------------------
  // Reading the body
  // ---------------------------------------------------------------------

  /**
   * Feeding chunks to the parser one after another, starting from a carry
   * buffer: the entries of every call in order, and the last carry.
   */
  function Fold(parse: (string, string) -> ParseResult, buffer: string, chunks: seq<Chunk>): (r: ParseResult)
    ensures |chunks| == 0 ==> r == ParseResult([], buffer)
  {
    if |chunks| == 0 then ParseResult([], buffer)
    else
      var before := Fold(parse, buffer, chunks[..|chunks| - 1]);
      var r := parse(chunks[|chunks| - 1].text, before.newBuffer);
      ParseResult(before.results + r.results, r.newBuffer)
  }

  /**
   * Reading in two parts is reading the whole: the second part starts from
   * the first part's carry, and its entries follow the first part's.
   */
  lemma {:induction false} FoldAppend(parse: (string, string) -> ParseResult, buffer: string, xs: seq<Chunk>, ys: seq<Chunk>)
    ensures var a := Fold(parse, buffer, xs);
      var b := Fold(parse, a.newBuffer, ys);
      Fold(parse, buffer, xs + ys) == ParseResult(a.results + b.results, b.newBuffer)
  {
    if |ys| == 0 {
      assert xs + ys == xs;
    } else {
      var ys' := ys[..|ys| - 1];
      FoldAppend(parse, buffer, xs, ys');
      assert (xs + ys)[..|xs + ys| - 1] == xs + ys';
      assert (xs + ys)[|xs + ys| - 1] == ys[|ys| - 1];
    }
  }

  /** Entries are only ever appended: what was read first stays a prefix. */
  lemma FoldOnlyAppends(parse: (string, string) -> ParseResult, buffer: string, xs: seq<Chunk>, ys: seq<Chunk>)
    ensures Fold(parse, buffer, xs).results <= Fold(parse, buffer, xs + ys).results
  {
    FoldAppend(parse, buffer, xs, ys);
  }

  /** The number of bytes in a sequence of chunks. */
  function SumBytes(chunks: seq<Chunk>): (n: nat)
    ensures |chunks| == 0 ==> n == 0
    ensures forall i :: 0 <= i < |chunks| ==> chunks[i].byteLength <= n
  {
    if |chunks| == 0 then 0 else SumBytes(chunks[..|chunks| - 1]) + chunks[|chunks| - 1].byteLength
  }

  /** Byte counts add up across a split of the chunks. */
  lemma {:induction false} SumBytesAppend(xs: seq<Chunk>, ys: seq<Chunk>)
    ensures SumBytes(xs + ys) == SumBytes(xs) + SumBytes(ys)
  {
    if |ys| == 0 {
      assert xs + ys == xs;
    } else {
      SumBytesAppend(xs, ys[..|ys| - 1]);
      assert (xs + ys)[..|xs + ys| - 1] == xs + ys[..|ys| - 1];
    }
  }

  /** Reading one more chunk: its bytes are added and its entries follow. */
  lemma ReadOneMore(parse: (string, string) -> ParseResult, buffer: string, chunks: seq<Chunk>, i: nat)
    requires i < |chunks|
    ensures var before := Fold(parse, buffer, chunks[..i]);
      var r := parse(chunks[i].text, before.newBuffer);
      Fold(parse, buffer, chunks[..i + 1]) == ParseResult(before.results + r.results, r.newBuffer)
    ensures SumBytes(chunks[..i + 1]) == SumBytes(chunks[..i]) + chunks[i].byteLength
  {
    assert chunks[..i + 1][..i] == chunks[..i];
  }

  /**
   * What flushing the carry buffer appends: the parsed trimmed remainder,
   * or nothing when it is blank or does not parse.
   */
  function FlushEntry(parseJson: string -> Option<LogEntry>, buffer: string): (r: seq<LogEntry>)
    ensures |r| <= 1
    ensures |r| == 1 <==> Trim(buffer) != "" && parseJson(Trim(buffer)).Some?
    ensures |r| == 1 ==> r[0] == parseJson(Trim(buffer)).value
  {
    var remaining := Trim(buffer);
    if remaining == "" then []
    else match parseJson(remaining)
      case Some(e) => [e]
      case None => []
  }

  /** A blank carry buffer adds nothing. */
  lemma FlushBlankAddsNothing(parseJson: string -> Option<LogEntry>, buffer: string)
    requires forall i :: 0 <= i < |buffer| ==> IsJsWhitespace(buffer[i])
    ensures FlushEntry(parseJson, buffer) == []
  {
    TrimEmptyIffBlank(buffer);
  }

  // ---------------------------------------------------------------------
  // A whole session, as a function of what the network did
  // ---------------------------------------------------------------------

  /** The chunks a session reads. */
  function Delivered(outcome: FetchOutcome): seq<Chunk>
  {
    if outcome.Responds? && ResponseError(outcome.response).None?
    then outcome.response.body.value.chunks
    else []
  }

  /** The failure a session ends with, if any. */
  function Failure(outcome: FetchOutcome): (f: Option<Thrown>)
    ensures outcome.AbortedWhileFetching? ==> f == Some(AbortErrorValue)
    ensures outcome.Rejects? ==> f == Some(outcome.thrown)
  {
    match outcome
    case Rejects(t) => Some(t)
    case AbortedWhileFetching => Some(AbortErrorValue)
    case Responds(r) =>
      match ResponseError(r)
      case Some(e) => Some(ErrorValue(e))
      case None =>
        match r.body.value.end
        case Done => None
        case ReadFails(t) => Some(t)
        case UserAbort => Some(AbortErrorValue)
  }

  /** The byte total a session reports. */
  function TotalFor(outcome: FetchOutcome): Option<JsNumber>
  {
    if outcome.Responds? && ResponseError(outcome.response).None?
    then ContentLengthToTotal(outcome.response.contentLength)
    else None
  }

  /** The user pressed abort during the session. */
  predicate UserAborted(outcome: FetchOutcome)
  {
    outcome.AbortedWhileFetching?
    || (outcome.Responds? && ResponseError(outcome.response).None?
        && outcome.response.body.value.end.UserAbort?)
  }

  /** What a session does with a response, by whether the response passes the checks. */
  lemma ResponseSession(r: Response)
    ensures ResponseError(r).Some? ==>
      Delivered(Responds(r)) == [] && Failure(Responds(r)) == Some(ErrorValue(ResponseError(r).value))
      && TotalFor(Responds(r)) == None && !UserAborted(Responds(r))
    ensures ResponseError(r).None? ==>
      Delivered(Responds(r)) == r.body.value.chunks
      && TotalFor(Responds(r)) == ContentLengthToTotal(r.contentLength)
      && (UserAborted(Responds(r)) <==> r.body.value.end.UserAbort?)
      && Failure(Responds(r)) == match r.body.value.end
        case Done => None
        case ReadFails(t) => Some(t)
        case UserAbort => Some(AbortErrorValue)
  {
  }

  /** A session reports an error exactly when it failed with something other than an abort. */
  lemma SessionReportsNonAbortFailures(outcome: FetchOutcome)
    ensures (Failure(outcome).Some? && Classify(Failure(outcome).value).Some?)
      <==> Failure(outcome).Some? && !IsAbortError(Failure(outcome).value)
    ensures UserAborted(outcome) ==> Failure(outcome) == Some(AbortErrorValue)
    ensures Failure(outcome) == None ==> outcome.Responds? && Delivered(outcome) == outcome.response.body.value.chunks
  {
  }

  /** A session whose body is the first chunks of another's reads the first entries of it. */
  lemma MoreChunksExtendLogs(parse: (string, string) -> ParseResult, r: Response, extra: seq<Chunk>)
    requires r.ok && r.body.Some?
    ensures var longer := r.(body := Some(r.body.value.(chunks := r.body.value.chunks + extra)));
      Fold(parse, "", Delivered(Responds(r))).results <= Fold(parse, "", Delivered(Responds(longer))).results
      && SumBytes(Delivered(Responds(longer))) == SumBytes(Delivered(Responds(r))) + SumBytes(extra)
  {
    FoldOnlyAppends(parse, "", r.body.value.chunks, extra);
    SumBytesAppend(r.body.value.chunks, extra);
  }

  // ---------------------------------------------------------------------
  // The controller and the session state
  // ---------------------------------------------------------------------

  /** The part of an AbortController the session uses: whether it has been aborted. */
  class AbortController {
    var aborted: bool

    constructor()
      ensures !aborted
    {
      aborted := false;
    }

    /** Aborting is idempotent: the signal stays aborted. */
    method Abort()
      modifies this
      ensures aborted
    {
      aborted := true;
    }
  }

  class Session {
    /** The chunk parser: (chunk, carry buffer) to complete entries and new carry. */
    const parseChunk: (string, string) -> ParseResult
    /** JSON.parse of a log line: the entry, or None when it throws. */
    const parseJson: string -> Option<LogEntry>

    var logs: seq<LogEntry>
    var isLoading: bool
    var error: Option<Error>
    var loadedBytes: nat
    var totalBytes: Option<JsNumber>
    var controller: AbortController?
    var buffer: string
    /** The calls made into the timing helpers, oldest first. */
    var perfCalls: seq<PerfCall>

    /** The state before any session: nothing loaded, not loading, no controller. */
    constructor(parseChunk: (string, string) -> ParseResult, parseJson: string -> Option<LogEntry>)
      ensures this.parseChunk == parseChunk && this.parseJson == parseJson
      ensures logs == [] && !isLoading && error == None && loadedBytes == 0 && totalBytes == None
      ensures controller == null && buffer == "" && perfCalls == []
    {
      this.parseChunk := parseChunk;
      this.parseJson := parseJson;
      logs := [];
      isLoading := false;
      error := None;
      loadedBytes := 0;
      totalBytes := None;
      controller := null;
      buffer := "";
      perfCalls := [];
    }

    /** The state a session leaves behind, given what the network did. */
    ghost predicate EndedAfter(outcome: FetchOutcome)
      reads this, controller
    {
      var delivered := Delivered(outcome);
      var parsed := Fold(parseChunk, "", delivered);
      var failure := Failure(outcome);
      && !isLoading
      && loadedBytes == SumBytes(delivered)
      && totalBytes == TotalFor(outcome)
      && error == (if failure.Some? then Classify(failure.value) else None)
      && (failure.None? ==> logs == parsed.results + FlushEntry(parseJson, parsed.newBuffer) && buffer == "")
      && (failure.Some? ==> logs == parsed.results && buffer == parsed.newBuffer)
      && controller != null && (controller.aborted <==> UserAborted(outcome))
    }

    /**
     * Start over: abort the previous controller, install a fresh one, and
     * clear everything the previous session accumulated.
     */
    method ResetForNewStream() returns (c: AbortController)
      modifies this, controller
      ensures old(controller) != null ==> old(controller).aborted
      ensures fresh(c) && controller == c && !c.aborted
      ensures isLoading && error == None && loadedBytes == 0 && totalBytes == None
      ensures logs == [] && buffer == ""
      ensures perfCalls == old(perfCalls) + [PerfStart]
    {
      if controller != null {
        controller.Abort();
      }
      c := new AbortController();
      controller := c;
      perfCalls := perfCalls + [PerfStart];
      isLoading := true;
      error := None;
      loadedBytes := 0;
      totalBytes := None;
      logs := [];
      buffer := "";
    }

    /**
     * The checks on the fetched response; on success the byte total is
     * taken from Content-Length and the body's reader is handed back.
     */
    method FetchLogStream(response: Response) returns (result: Checked)
      modifies this
      ensures result.Throws? <==> ResponseError(response).Some?
      ensures result.Throws? ==> result.err == ResponseError(response).value && totalBytes == old(totalBytes)
      ensures result.Reader? ==>
        result.body == response.body.value && totalBytes == ContentLengthToTotal(response.contentLength)
      ensures logs == old(logs) && isLoading == old(isLoading) && error == old(error)
      ensures loadedBytes == old(loadedBytes) && controller == old(controller)
      ensures buffer == old(buffer) && perfCalls == old(perfCalls)
    {
      if !response.ok {
        return Throws(Error("Error", HttpErrorPrefix + NatToString(response.status)));
      }
      if response.body.None? {
        return Throws(Error("Error", "Response body is null"));
      }
      var contentLength := response.contentLength;
      totalBytes := if contentLength.Some? && contentLength.value != "" then Some(ToNumber(contentLength.value)) else None;
      return Reader(response.body.value);
    }

    /** Parse one chunk against the carry buffer; keep the new carry and append the entries. */
    method ProcessChunk(chunk: string)
      modifies this
      ensures var r := parseChunk(chunk, old(buffer));
        buffer == r.newBuffer && logs == old(logs) + r.results
        && (r.results == [] ==> logs == old(logs))
      ensures isLoading == old(isLoading) && error == old(error) && loadedBytes == old(loadedBytes)
      ensures totalBytes == old(totalBytes) && controller == old(controller) && perfCalls == old(perfCalls)
    {
      var r := parseChunk(chunk, buffer);
      buffer := r.newBuffer;
      if |r.results| > 0 {
        logs := logs + r.results;
      }
    }

    /** At the end of the stream, parse what is left in the carry buffer, and empty it. */
    method FlushRemainingBuffer()
      modifies this
      ensures buffer == ""
      ensures logs == old(logs) + FlushEntry(parseJson, old(buffer))
      ensures isLoading == old(isLoading) && error == old(error) && loadedBytes == old(loadedBytes)
      ensures totalBytes == old(totalBytes) && controller == old(controller) && perfCalls == old(perfCalls)
    {
      var remaining := Trim(buffer);
      buffer := "";
      if remaining == "" {
        return;
      }
      var parsed := parseJson(remaining);
      if parsed.Some? {
        logs := logs + [parsed.value];
      }
    }

    /**
     * Record a failure. An abort is not an error: it answers true and
     * leaves the error as it was; anything else is recorded and answers false.
     */
    method HandleStreamError(err: Thrown) returns (wasAborted: bool)
      modifies this
      ensures wasAborted <==> IsAbortError(err)
      ensures wasAborted ==> error == old(error)
      ensures !wasAborted ==> error == Classify(err)
      ensures logs == old(logs) && isLoading == old(isLoading) && loadedBytes == old(loadedBytes)
      ensures totalBytes == old(totalBytes) && controller == old(controller)
      ensures buffer == old(buffer) && perfCalls == old(perfCalls)
    {
      if err.ErrorValue? && err.err.name == "AbortError" {
        return true;
      }
      var errorToSet := if err.ErrorValue? then err.err else Error("Error", "Unknown error occurred");
      error := Some(errorToSet);
      return false;
    }

    /**
     * The reads that deliver chunks: count the bytes of every chunk, mark
     * the first byte once, and parse every chunk.
     */
    method ReadChunks(chunks: seq<Chunk>)
      modifies this
      ensures var parsed := Fold(parseChunk, old(buffer), chunks);
        logs == old(logs) + parsed.results && buffer == parsed.newBuffer
      ensures loadedBytes == old(loadedBytes) + SumBytes(chunks)
      ensures perfCalls == old(perfCalls) + (if |chunks| > 0 then [PerfFirstByte] else [])
      ensures controller == old(controller) && error == old(error) && totalBytes == old(totalBytes)
      ensures isLoading == old(isLoading)
    {
      var isFirstChunk := true;
      var i := 0;
      while i < |chunks|
        invariant 0 <= i <= |chunks|
        invariant isFirstChunk <==> i == 0
        invariant var parsed := Fold(parseChunk, old(buffer), chunks[..i]);
          logs == old(logs) + parsed.results && buffer == parsed.newBuffer
        invariant loadedBytes == old(loadedBytes) + SumBytes(chunks[..i])
        invariant perfCalls == old(perfCalls) + (if i > 0 then [PerfFirstByte] else [])
        invariant controller == old(controller) && error == old(error) && totalBytes == old(totalBytes)
        invariant isLoading == old(isLoading)
      {
        if isFirstChunk {
          perfCalls := perfCalls + [PerfFirstByte];
          isFirstChunk := false;
        }
        ReadOneMore(parseChunk, old(buffer), chunks, i);
        loadedBytes := loadedBytes + chunks[i].byteLength;
        ProcessChunk(chunks[i].text);
        i := i + 1;
      }
      assert chunks[..i] == chunks;
    }

    /**
     * Read the body to its end: all its chunks, then the read that reports
     * the end. Answers the failure that ended the reading, if any; the
     * user's abort arrives while that last read is pending.
     */
    method ReadStream(body: Body) returns (failure: Option<Thrown>)
      modifies this, controller
      ensures var parsed := Fold(parseChunk, old(buffer), body.chunks);
        logs == old(logs) + parsed.results && buffer == parsed.newBuffer
      ensures loadedBytes == old(loadedBytes) + SumBytes(body.chunks)
      ensures perfCalls == old(perfCalls) + (if |body.chunks| > 0 then [PerfFirstByte] else [])
      ensures failure == match body.end
        case Done => None
        case ReadFails(t) => Some(t)
        case UserAbort => Some(AbortErrorValue)
      ensures controller == old(controller) && error == old(error) && totalBytes == old(totalBytes)
      ensures body.end.UserAbort? && controller != null ==> controller.aborted && !isLoading
      ensures !(body.end.UserAbort? && controller != null) ==> isLoading == old(isLoading)
      ensures controller != null && !body.end.UserAbort? ==> controller.aborted == old(controller.aborted)
    {
      ReadChunks(body.chunks);
      match body.end
      case Done =>
        failure := None;
      case ReadFails(t) =>
        failure := Some(t);
      case UserAbort =>
        Abort();
        failure := Some(AbortErrorValue);
    }

    /**
     * A whole session: reset, fetch and check the response, read the body,
     * flush the carry buffer; a failure is classified; loading ends
     * however the session ends.
     */
    method StreamLogs(outcome: FetchOutcome) returns (c: AbortController)
      modifies this, controller
      ensures EndedAfter(outcome)
      ensures controller == c && fresh(c)
      ensures old(controller) != null ==> old(controller).aborted
      ensures perfCalls == old(perfCalls) + [PerfStart] + (if |Delivered(outcome)| > 0 then [PerfFirstByte] else [])
    {
      c := ResetForNewStream();
      var failure := Attempt(outcome);
      if failure.Some? {
        var wasAborted := HandleStreamError(failure.value);
      }
      isLoading := false;
    }

    /** The state right after a reset: a fresh controller and nothing accumulated. */
    ghost predicate JustReset()
      reads this, controller
    {
      && logs == [] && buffer == "" && loadedBytes == 0 && totalBytes == None && error == None
      && controller != null && !controller.aborted
    }

    /**
     * The state after the attempt to fetch and read, before the failure is
     * classified: what was read, parsed and counted, and the failure.
     */
    ghost predicate Attempted(outcome: FetchOutcome, failure: Option<Thrown>)
      reads this, controller
    {
      var delivered := Delivered(outcome);
      var parsed := Fold(parseChunk, "", delivered);
      && failure == Failure(outcome)
      && loadedBytes == SumBytes(delivered)
      && totalBytes == TotalFor(outcome)
      && error == None
      && (failure.None? ==> logs == parsed.results + FlushEntry(parseJson, parsed.newBuffer) && buffer == "")
      && (failure.Some? ==> logs == parsed.results && buffer == parsed.newBuffer)
      && controller != null && (controller.aborted <==> UserAborted(outcome))
      && (UserAborted(outcome) ==> !isLoading)
    }

    /** The guarded part of a session: fetch, check, read and flush, stopping at the first failure. */
    method Attempt(outcome: FetchOutcome) returns (failure: Option<Thrown>)
      requires JustReset()
      modifies this, controller
      ensures Attempted(outcome, failure)
      ensures controller == old(controller)
      ensures perfCalls == old(perfCalls) + (if |Delivered(outcome)| > 0 then [PerfFirstByte] else [])
    {
      match outcome {
        case Rejects(t) =>
          failure := Some(t);
        case AbortedWhileFetching =>
          Abort();
          failure := Some(AbortErrorValue);
        case Responds(response) =>
          failure := AttemptResponse(response);
      }
    }

    /** The guarded part of a session once fetch has produced a response. */
    method AttemptResponse(response: Response) returns (failure: Option<Thrown>)
      requires JustReset()
      modifies this, controller
      ensures Attempted(Responds(response), failure)
      ensures controller == old(controller)
      ensures perfCalls == old(perfCalls) + (if |Delivered(Responds(response))| > 0 then [PerfFirstByte] else [])
    {
      ResponseSession(response);
      var checked := FetchLogStream(response);
      match checked {
        case Throws(e) =>
          failure := Some(ErrorValue(e));
        case Reader(body) =>
          failure := ReadStream(body);
          if failure.None? {
            FlushRemainingBuffer();
          }
      }
    }

    /** The user's abort: abort the current controller and stop loading. */
    method Abort()
      modifies this, controller
      ensures controller == old(controller)
      ensures controller != null ==> controller.aborted && !isLoading
      ensures controller == null ==> isLoading == old(isLoading)
      ensures logs == old(logs) && error == old(error) && loadedBytes == old(loadedBytes)
      ensures totalBytes == old(totalBytes) && buffer == old(buffer) && perfCalls == old(perfCalls)
    {
      if controller != null {
        controller.Abort();
        isLoading := false;
      }
    }

    /** Retry runs a fresh session. */
    method Retry(outcome: FetchOutcome) returns (c: AbortController)
      modifies this, controller
      ensures EndedAfter(outcome)
      ensures controller == c && fresh(c)
      ensures old(controller) != null ==> old(controller).aborted
      ensures perfCalls == old(perfCalls) + [PerfStart] + (if |Delivered(outcome)| > 0 then [PerfFirstByte] else [])
    {
      c := StreamLogs(outcome);
    }
  }
}
