/**
 * The stream consumer: the "Start Stream" click handler of the page. It
 * validates the typed count, requests the stream, reads the body chunk by
 * chunk, shows each chunk's text and records a trace of what it observed.
 *
 * A response is its status and the list of chunk texts that successive
 * `reader.read()` calls return, each decoded on its own; the end of the
 * list is the read that reports `done`. Timestamps are not modelled.
 */
module StreamPage {
  import opened Wrappers
  import opened JsText

  datatype TraceKind = Request | Response | Chunk | Complete | Error

  datatype TraceEvent = TraceEvent(kind: TraceKind, message: string)

  /** What the handler reads and writes: the shown text, the trace and the streaming flag. */
  datatype SessionState = SessionState(text: string, trace: seq<TraceEvent>, active: bool)

  /** The text whose presence in a chunk ends the read loop. */
  const Sentinel := "[DONE]"

  const InvalidInputText := "Please enter a valid positive number."
  const InvalidInputMessage := "Invalid input: number must be positive"
  const ResponseMessage := "200 OK - Stream started"
  const CompleteMessage := "Stream completed"
  const FinishedSuffix := "\nStream finished."

  /** The request trace line, for the query value `${count}` the page sends. */
  function RequestMessage(query: string): string {
    "GET /api/stream?count=" + query
  }

  function ServerErrorText(status: int): string {
    "Server error: " + IntToString(status)
  }

  function ServerErrorMessage(status: int): string {
    "Server responded with " + IntToString(status)
  }

  function ChunkMessage(text: string): string {
    "Received: \"" + Trim(text) + "\""
  }

  /** `response.ok`: the status is in the 2xx range. */
  predicate IsOk(status: int) {
    200 <= status <= 299
  }

  /** The position of the first chunk that contains the sentinel, or the number of chunks when none does. */
  function FirstDone(chunks: seq<string>): (k: nat)
    ensures k <= |chunks|
    ensures forall j :: 0 <= j < k ==> !Contains(chunks[j], Sentinel)
    ensures k < |chunks| ==> Contains(chunks[k], Sentinel)
  {
    if chunks == [] then 0
    else if Contains(chunks[0], Sentinel) then 0
    else 1 + FirstDone(chunks[1..])
  }

  /** The chunks the loop appends: those before the first one that contains the sentinel. */
  function Shown(chunks: seq<string>): seq<string> {
    chunks[..FirstDone(chunks)]
  }

  /** The loop stopped on a sentinel rather than on the end of the stream. */
  predicate Terminated(chunks: seq<string>) {
    FirstDone(chunks) < |chunks|
  }

  /** One `chunk` event per appended chunk, in order. */
  function ChunkEvents(shown: seq<string>): (evs: seq<TraceEvent>)
    ensures |evs| == |shown|
  {
    if shown == [] then []
    else ChunkEvents(shown[..|shown| - 1]) + [TraceEvent(Chunk, ChunkMessage(shown[|shown| - 1]))]
  }

  /** Event `k` reports chunk `k`. */
  lemma {:induction false} ChunkEventsAt(shown: seq<string>)
    ensures forall k :: 0 <= k < |shown| ==> ChunkEvents(shown)[k] == TraceEvent(Chunk, ChunkMessage(shown[k]))
  {
    if shown != [] {
      var init := shown[..|shown| - 1];
      ChunkEventsAt(init);
      forall k | 0 <= k < |shown| ensures ChunkEvents(shown)[k] == TraceEvent(Chunk, ChunkMessage(shown[k])) {
        if k < |init| {
          assert ChunkEvents(shown)[k] == ChunkEvents(init)[k];
        }
      }
    }
  }

  /** The kinds of a trace's events, in order. */
  function Kinds(trace: seq<TraceEvent>): (ks: seq<TraceKind>)
    ensures |ks| == |trace|
  {
    if trace == [] then [] else Kinds(trace[..|trace| - 1]) + [trace[|trace| - 1].kind]
  }

  lemma {:induction false} KindsAt(trace: seq<TraceEvent>)
    ensures forall k :: 0 <= k < |trace| ==> Kinds(trace)[k] == trace[k].kind
  {
    if trace != [] {
      var init := trace[..|trace| - 1];
      KindsAt(init);
      forall k | 0 <= k < |trace| ensures Kinds(trace)[k] == trace[k].kind {
        if k < |init| {
          assert Kinds(trace)[k] == Kinds(init)[k];
        }
      }
    }
  }

  /** What the user sees after typing something that is not a positive count. */
  function Rejected(): SessionState {
    SessionState(InvalidInputText, [TraceEvent(Error, InvalidInputMessage)], false)
  }

  /** The events the loop records for the chunks of a stream: one per shown chunk, then `complete` if a sentinel stopped it. */
  function StreamEvents(chunks: seq<string>): seq<TraceEvent> {
    ChunkEvents(Shown(chunks)) + (if Terminated(chunks) then [TraceEvent(Complete, CompleteMessage)] else [])
  }

  /**
   * The session once the request `?count=<query>` for a positive count has
   * been answered, `query` being the count's decimal text: the trace opens with the request, followed by `response` exactly when
   * the status is OK, and the session is over.
   */
  function Answered(query: string, status: int, chunks: seq<string>): (r: SessionState)
    ensures !r.active
    ensures |r.trace| >= 2 && r.trace[0] == TraceEvent(Request, RequestMessage(query))
    ensures r.trace[1].kind == Response <==> IsOk(status)
  {
    var request := TraceEvent(Request, RequestMessage(query));
    if !IsOk(status) then
      SessionState(ServerErrorText(status), [request, TraceEvent(Error, ServerErrorMessage(status))], false)
    else
      SessionState(Concat(Shown(chunks)) + FinishedSuffix,
                   [request, TraceEvent(Response, ResponseMessage)] + StreamEvents(chunks),
                   false)
  }

  /**
   * The state after one click, from the state before it: nothing while a
   * session is active; otherwise a fresh session that fails validation, or
   * one that went to the server.
   */
  function Click(s: SessionState, input: string, status: int, chunks: seq<string>): (r: SessionState)
    ensures !s.active ==> !r.active && r.trace != []
  {
    if s.active then s
    else
      match ParseInt(input)
      case None => Rejected()
      case Some(count) => if count <= 0 then Rejected() else Answered(IntToString(count), status, chunks)
  }

  /** Clicking while a session is active changes nothing. */
  lemma ActiveClickIsNoOp(s: SessionState, input: string, status: int, chunks: seq<string>)
    requires s.active
    ensures Click(s, input, status, chunks) == s
  {
  }

  /** Every click that is not a no-op starts from an empty text and trace and ends inactive: no earlier session shows through. */
  lemma ClickForgetsEarlierSession(s1: SessionState, s2: SessionState, input: string, status: int, chunks: seq<string>)
    requires !s1.active && !s2.active
    ensures Click(s1, input, status, chunks) == Click(s2, input, status, chunks)
    ensures !Click(s1, input, status, chunks).active
  {
  }

  /** Input that `parseInt` reads as NaN or as a non-positive number makes no request. */
  lemma InvalidInputMakesNoRequest(s: SessionState, input: string, status: int, chunks: seq<string>)
    requires !s.active
    requires ParseInt(input).None? || ParseInt(input).value <= 0
    ensures Click(s, input, status, chunks) == Rejected()
    ensures Click(s, input, status, chunks).text == InvalidInputText
    ensures Kinds(Click(s, input, status, chunks).trace) == [Error]
    ensures !Click(s, input, status, chunks).active
  {
  }

  /** The empty string, `0`, `-5` and `abc` are all turned away before any request. */
  lemma RejectedInputs(s: SessionState, status: int, chunks: seq<string>)
    requires !s.active
    ensures ParseInt("") == None && ParseInt("abc") == None
    ensures ParseInt("0") == Some(0) && ParseInt("-5") == Some(-5)
    ensures Click(s, "", status, chunks) == Rejected() && Click(s, "0", status, chunks) == Rejected()
    ensures Click(s, "-5", status, chunks) == Rejected() && Click(s, "abc", status, chunks) == Rejected()
  {
    assert IntToString(0) == "0";
    ParseIntOfIntToString(0, "");
    assert IntToString(-5) == "-5";
    ParseIntOfIntToString(-5, "");
    assert TrimStart("abc") == "abc";
    assert DigitRun("abc") == 0;
  }

  /** A positive count typed into an idle page leads to the request and its answer. */
  lemma ValidInputIsRequested(s: SessionState, input: string, status: int, chunks: seq<string>)
    requires !s.active
    requires ParseInt(input).Some? && ParseInt(input).value > 0
    ensures Click(s, input, status, chunks) == Answered(IntToString(ParseInt(input).value), status, chunks)
  {
  }

  /** A non-OK status records `request` then `error`, shows the status, and reads no chunk. */
  lemma ServerErrorReadsNothing(query: string, status: int, chunks: seq<string>, other: seq<string>)
    requires !IsOk(status)
    ensures Kinds(Answered(query, status, chunks).trace) == [Request, Error]
    ensures Answered(query, status, chunks).text == "Server error: " + IntToString(status)
    ensures !Answered(query, status, chunks).active
    ensures Answered(query, status, chunks) == Answered(query, status, other)
  {
  }

  /** The kinds of the chunk events: `chunk`, once per shown chunk. */
  lemma ChunkEventKinds(shown: seq<string>)
    ensures Kinds(ChunkEvents(shown)) == seq(|shown|, _ => Chunk)
  {
    KindsAt(ChunkEvents(shown));
    ChunkEventsAt(shown);
  }

  /** The text of a successful answer: every shown chunk, then the closing line. */
  lemma AnsweredText(query: string, status: int, chunks: seq<string>)
    requires IsOk(status)
    ensures Answered(query, status, chunks).text == Concat(Shown(chunks)) + FinishedSuffix
  {
  }

  /** The kinds of the events a successful answer records. */
  lemma AnsweredKinds(query: string, status: int, chunks: seq<string>)
    requires IsOk(status)
    ensures Kinds(Answered(query, status, chunks).trace)
            == [Request, Response] + seq(FirstDone(chunks), _ => Chunk) + (if Terminated(chunks) then [Complete] else [])
  {
    var opening := [TraceEvent(Request, RequestMessage(query)), TraceEvent(Response, ResponseMessage)];
    var ending := if Terminated(chunks) then [TraceEvent(Complete, CompleteMessage)] else [];
    assert Answered(query, status, chunks).trace == opening + (ChunkEvents(Shown(chunks)) + ending);
    KindsOfParts(opening, Shown(chunks), ending);
    KindsOfPair(opening);
    assert Kinds(ending) == if Terminated(chunks) then [Complete] else [];
  }

  /** The kinds of an opening, the chunk events of `shown` and an ending, joined. */
  lemma KindsOfParts(opening: seq<TraceEvent>, shown: seq<string>, ending: seq<TraceEvent>)
    ensures Kinds(opening + (ChunkEvents(shown) + ending)) == Kinds(opening) + seq(|shown|, _ => Chunk) + Kinds(ending)
  {
    KindsAppend(opening, ChunkEvents(shown) + ending);
    KindsAppend(ChunkEvents(shown), ending);
    ChunkEventKinds(shown);
  }

  /** The kinds of a two-event trace. */
  lemma KindsOfPair(pair: seq<TraceEvent>)
    requires |pair| == 2
    ensures Kinds(pair) == [pair[0].kind, pair[1].kind]
  {
    assert pair[..1] == [pair[0]];
  }

  /** The kinds of two traces joined are the kinds of each, joined. */
  lemma {:induction false} KindsAppend(a: seq<TraceEvent>, b: seq<TraceEvent>)
    ensures Kinds(a + b) == Kinds(a) + Kinds(b)
  {
    if b != [] {
      var init := b[..|b| - 1];
      assert (a + b)[..|a + b| - 1] == a + init;
      KindsAppend(a, init);
    } else {
      assert a + b == a;
    }
  }

  /** Event `2 + k` of a successful answer reports the `k`-th chunk, for every chunk before the first sentinel. */
  lemma AnsweredChunkEvent(query: string, status: int, chunks: seq<string>, k: nat)
    requires IsOk(status)
    requires k < FirstDone(chunks)
    ensures Answered(query, status, chunks).trace[2 + k] == TraceEvent(Chunk, ChunkMessage(chunks[k]))
  {
    var shown := Shown(chunks);
    var opening := [TraceEvent(Request, RequestMessage(query)), TraceEvent(Response, ResponseMessage)];
    var ending := if Terminated(chunks) then [TraceEvent(Complete, CompleteMessage)] else [];
    assert Answered(query, status, chunks).trace == opening + (ChunkEvents(shown) + ending);
    ChunkEventsAt(shown);
    assert (opening + (ChunkEvents(shown) + ending))[2 + k] == ChunkEvents(shown)[k];
  }

  /** The first chunk that holds the sentinel is the one after a run of chunks that do not. */
  lemma FirstDoneAt(pre: seq<string>, d: string, post: seq<string>)
    requires forall j :: 0 <= j < |pre| ==> !Contains(pre[j], Sentinel)
    requires Contains(d, Sentinel)
    ensures FirstDone(pre + [d] + post) == |pre|
  {
    var chunks := pre + [d] + post;
    assert chunks[|pre|] == d;
    assert forall j :: 0 <= j < |pre| ==> chunks[j] == pre[j];
  }

  /** Without a sentinel the loop shows every chunk. */
  lemma FirstDoneNone(chunks: seq<string>)
    requires forall j :: 0 <= j < |chunks| ==> !Contains(chunks[j], Sentinel)
    ensures FirstDone(chunks) == |chunks|
  {
  }

  /**
   * A stream whose first sentinel-bearing chunk is `d`: the text is the
   * chunks before it followed by the closing line, the trace is `request`,
   * `response`, one `chunk` per shown chunk and `complete`; `d` is never
   * shown and nothing after it is read.
   */
  lemma StreamStopsAtSentinel(query: string, status: int, pre: seq<string>, d: string, post: seq<string>)
    requires IsOk(status)
    requires forall j :: 0 <= j < |pre| ==> !Contains(pre[j], Sentinel)
    requires Contains(d, Sentinel)
    ensures Answered(query, status, pre + [d] + post).text == Concat(pre) + FinishedSuffix
    ensures Kinds(Answered(query, status, pre + [d] + post).trace)
            == [Request, Response] + seq(|pre|, _ => Chunk) + [Complete]
    ensures Answered(query, status, pre + [d] + post) == Answered(query, status, pre + [d])
  {
    var chunks := pre + [d] + post;
    ShownAtSentinel(pre, d, post);
    ShownAtSentinel(pre, d, []);
    assert pre + [d] + [] == pre + [d];
    AnsweredText(query, status, chunks);
    AnsweredKinds(query, status, chunks);
    SameShownSameAnswer(query, status, chunks, pre + [d]);
  }

  /** The loop shows the chunks before the first sentinel-bearing one and stops there. */
  lemma ShownAtSentinel(pre: seq<string>, d: string, post: seq<string>)
    requires forall j :: 0 <= j < |pre| ==> !Contains(pre[j], Sentinel)
    requires Contains(d, Sentinel)
    ensures Shown(pre + [d] + post) == pre && Terminated(pre + [d] + post)
  {
    FirstDoneAt(pre, d, post);
    assert (pre + [d] + post)[..|pre|] == pre;
  }

  /** The answer depends on the chunks only through what the loop showed and whether a sentinel stopped it. */
  lemma SameShownSameAnswer(query: string, status: int, c1: seq<string>, c2: seq<string>)
    requires Shown(c1) == Shown(c2) && Terminated(c1) == Terminated(c2)
    ensures Answered(query, status, c1) == Answered(query, status, c2)
  {
    assert StreamEvents(c1) == StreamEvents(c2);
  }

  /**
   * A stream that ends without a sentinel: every chunk is shown, the
   * closing line is still added, and no `complete` event is recorded.
   */
  lemma StreamEndsWithoutSentinel(query: string, status: int, chunks: seq<string>)
    requires IsOk(status)
    requires forall j :: 0 <= j < |chunks| ==> !Contains(chunks[j], Sentinel)
    ensures Answered(query, status, chunks).text == Concat(chunks) + FinishedSuffix
    ensures Kinds(Answered(query, status, chunks).trace) == [Request, Response] + seq(|chunks|, _ => Chunk)
  {
    FirstDoneNone(chunks);
    assert chunks[..|chunks|] == chunks;
    AnsweredKinds(query, status, chunks);
  }

  /** `complete` is recorded exactly when some chunk contains the sentinel. */
  lemma CompleteIffSentinel(query: string, status: int, chunks: seq<string>)
    requires IsOk(status)
    ensures Complete in Kinds(Answered(query, status, chunks).trace)
            <==> exists j :: 0 <= j < |chunks| && Contains(chunks[j], Sentinel)
  {
    AnsweredKinds(query, status, chunks);
    var ks := Kinds(Answered(query, status, chunks).trace);
    if Terminated(chunks) {
      assert Contains(chunks[FirstDone(chunks)], Sentinel);
      assert ks[|ks| - 1] == Complete;
    } else {
      assert forall k :: 0 <= k < |ks| ==> ks[k] != Complete;
    }
  }

  /**
   * The order of events in every trace: `error` alone; `request` then
   * `error`; or `request`, `response`, any number of `chunk` events, and at
   * most one `complete`, which comes last.
   */
  ghost predicate WellOrdered(kinds: seq<TraceKind>) {
    || kinds == [Error]
    || kinds == [Request, Error]
    || (&& |kinds| >= 2 && kinds[0] == Request && kinds[1] == Response
        && forall k :: 2 <= k < |kinds| ==> kinds[k] == Chunk || (kinds[k] == Complete && k == |kinds| - 1))
  }

  /** The trace of an answered request is well ordered and starts with `request`. */
  lemma AnsweredTraceWellOrdered(query: string, status: int, chunks: seq<string>)
    ensures WellOrdered(Kinds(Answered(query, status, chunks).trace))
    ensures |Kinds(Answered(query, status, chunks).trace)| >= 2 && Kinds(Answered(query, status, chunks).trace)[0] == Request
  {
    KindsAt(Answered(query, status, chunks).trace);
    if IsOk(status) {
      AnsweredKinds(query, status, chunks);
    } else {
      ServerErrorReadsNothing(query, status, chunks, chunks);
    }
  }

  /** Every trace a click leaves behind is well ordered. */
  lemma ClickTraceWellOrdered(s: SessionState, input: string, status: int, chunks: seq<string>)
    requires !s.active
    ensures WellOrdered(Kinds(Click(s, input, status, chunks).trace))
  {
    var count := ParseInt(input);
    if count.Some? && count.value > 0 {
      ValidInputIsRequested(s, input, status, chunks);
      AnsweredTraceWellOrdered(IntToString(count.value), status, chunks);
    } else {
      InvalidInputMakesNoRequest(s, input, status, chunks);
    }
  }

  /** A sentinel split across two reads is not recognised: both halves are shown and no `complete` is recorded. */
  lemma SplitSentinelIsMissed(query: string)
    ensures Answered(query, 200, ["[DO", "NE]\n"]).text == "[DONE]\n" + FinishedSuffix
    ensures Kinds(Answered(query, 200, ["[DO", "NE]\n"]).trace) == [Request, Response, Chunk, Chunk]
  {
    var chunks := ["[DO", "NE]\n"];
    TooShort(chunks[0], Sentinel);
    TooShort(chunks[1], Sentinel);
    StreamEndsWithoutSentinel(query, 200, chunks);
    assert chunks[..1] == ["[DO"];
    assert Concat(chunks) == "[DONE]\n";
  }

  /** A read that delivers a word line together with the terminator line drops the word as well. */
  lemma MergedChunkIsDropped(query: string)
    ensures Answered(query, 200, ["word\n[DONE]\n"]).text == FinishedSuffix
    ensures Kinds(Answered(query, 200, ["word\n[DONE]\n"]).trace) == [Request, Response, Complete]
  {
    assert OccursAt("word\n[DONE]\n", Sentinel, 5);
    StreamStopsAtSentinel(query, 200, [], "word\n[DONE]\n", []);
    assert [] + ["word\n[DONE]\n"] + [] == ["word\n[DONE]\n"];
  }

  /** One more chunk read: its text is appended and its event recorded. */
  lemma ShownSnoc(chunks: seq<string>, i: nat)
    requires i < |chunks|
    ensures Concat(chunks[..i + 1]) == Concat(chunks[..i]) + chunks[i]
    ensures ChunkEvents(chunks[..i + 1]) == ChunkEvents(chunks[..i]) + [TraceEvent(Chunk, ChunkMessage(chunks[i]))]
  {
    assert chunks[..i + 1][..i] == chunks[..i];
  }

  /** The read loop reaching the end of the stream has shown every chunk, and no sentinel stopped it. */
  lemma StreamRanOut(chunks: seq<string>, i: nat)
    requires i == |chunks| && i <= FirstDone(chunks)
    ensures Shown(chunks) == chunks[..i]
    ensures StreamEvents(chunks) == ChunkEvents(chunks[..i])
  {
    assert !Terminated(chunks);
    assert StreamEvents(chunks) == ChunkEvents(Shown(chunks)) + [];
  }

  /** The read loop meeting a chunk with the sentinel has shown exactly the chunks before it. */
  lemma SentinelReached(chunks: seq<string>, i: nat)
    requires i < |chunks| && i <= FirstDone(chunks) && Contains(chunks[i], Sentinel)
    ensures Shown(chunks) == chunks[..i]
    ensures StreamEvents(chunks) == ChunkEvents(chunks[..i]) + [TraceEvent(Complete, CompleteMessage)]
  {
    assert FirstDone(chunks) == i;
  }

  /** A chunk without the sentinel, read before the stop, is followed by further reads. */
  lemma NoSentinelYet(chunks: seq<string>, i: nat)
    requires i < |chunks| && i <= FirstDone(chunks) && !Contains(chunks[i], Sentinel)
    ensures i + 1 <= FirstDone(chunks)
  {
  }

  /** The page's session state, updated in place by the click handler. */
  class Session {
    var text: string
    var trace: seq<TraceEvent>
    var active: bool

    /** The initial `useState` values. */
    constructor ()
      ensures text == "" && trace == [] && !active
    {
      text, trace, active := "", [], false;
    }

    function State(): SessionState
      reads this
    {
      SessionState(text, trace, active)
    }

    /** `addTraceEvent`: append one event at the end of the trace. */
    method AddTraceEvent(kind: TraceKind, message: string)
      modifies this
      ensures trace == old(trace) + [TraceEvent(kind, message)]
      ensures text == old(text) && active == old(active)
    {
      trace := trace + [TraceEvent(kind, message)];
    }

    /** The click handler, run to its end on one response. */
    method Start(input: string, status: int, chunks: seq<string>)
      modifies this
      ensures State() == Click(old(State()), input, status, chunks)
    {
      if active {
        return;
      }
      ghost var before := State();
      active := true;
      text := "";
      trace := [];

      var count := ParseInt(input);
      if count.None? || count.value <= 0 {
        text := InvalidInputText;
        active := false;
        AddTraceEvent(Error, InvalidInputMessage);
        InvalidInputMakesNoRequest(before, input, status, chunks);
        assert State() == Rejected();
        return;
      }

      ValidInputIsRequested(before, input, status, chunks);
      Fetch(IntToString(count.value), status, chunks);
    }

    /**
     * The handler after validation, on a freshly reset session: record the
     * request, stop on a non-OK status, otherwise record the response, run
     * the read loop and add the closing line.
     */
    method Fetch(query: string, status: int, chunks: seq<string>)
      requires text == [] && trace == []
      modifies this
      ensures State() == Answered(query, status, chunks)
    {
      AddTraceEvent(Request, RequestMessage(query));
      if !IsOk(status) {
        text := ServerErrorText(status);
        active := false;
        AddTraceEvent(Error, ServerErrorMessage(status));
        return;
      }
      AddTraceEvent(Response, ResponseMessage);
      ghost var opening := trace;
      assert opening == [TraceEvent(Request, RequestMessage(query)), TraceEvent(Response, ResponseMessage)];
      ReadStream(chunks);
      active := false;
      text := text + FinishedSuffix;
      assert text == Concat(Shown(chunks)) + FinishedSuffix;
    }

    /**
     * The read loop: append each chunk's text and record a `chunk` event,
     * until a chunk contains the sentinel (record `complete`, drop that
     * chunk and read no further) or the stream ends.
     */
    method ReadStream(chunks: seq<string>)
      modifies this
      ensures text == old(text) + Concat(Shown(chunks))
      ensures trace == old(trace) + StreamEvents(chunks)
      ensures active == old(active)
    {
      ghost var text0, trace0 := text, trace;
      var i := 0;
      while true
        invariant 0 <= i <= FirstDone(chunks)
        invariant text == text0 + Concat(chunks[..i])
        invariant trace == trace0 + ChunkEvents(chunks[..i])
        invariant active == old(active)
        decreases |chunks| - i
      {
        if i == |chunks| {
          StreamRanOut(chunks, i);
          break;
        }
        var chunk := chunks[i];
        if Contains(chunk, Sentinel) {
          SentinelReached(chunks, i);
          AddTraceEvent(Complete, CompleteMessage);
          break;
        }
        NoSentinelYet(chunks, i);
        ShownSnoc(chunks, i);
        text := text + chunk;
        AddTraceEvent(Chunk, ChunkMessage(chunk));
        i := i + 1;
      }
    }
  }
}
