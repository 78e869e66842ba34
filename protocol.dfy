/**
 * The two sides together: the page requests `count=${n}`, the route frames
 * `n` words and the terminator, and every enqueued chunk arrives as its
 * own read.
 */
module Protocol {
  import opened Wrappers
  import opened JsText
  import opened StreamRoute
  import opened StreamPage

  /** Word lines never hold the sentinel; the terminator line does. */
  lemma OnlyTerminatorHoldsSentinel(words: seq<string>)
    requires forall k :: 0 <= k < |words| ==> IsLowercase(words[k])
    ensures forall k :: 0 <= k < |words| ==> !Contains(Lines(words)[k], Sentinel)
    ensures Contains(TerminatorLine, Sentinel)
  {
    LinesAt(words);
    forall k | 0 <= k < |words| ensures !Contains(Lines(words)[k], Sentinel) {
      var line := words[k] + "\n";
      assert forall j :: 0 <= j < |line| ==> line[j] == (if j < |words[k]| then words[k][j] else '\n');
      FirstCharAbsent(line, Sentinel);
    }
    assert OccursAt(TerminatorLine, Sentinel, 0);
  }

  /** On a framed body the read loop shows every word line and stops at the terminator line. */
  lemma LoopStopsAtTerminatorLine(words: seq<string>)
    requires forall k :: 0 <= k < |words| ==> IsLowercase(words[k])
    ensures Shown(Framed(words)) == Lines(words)
    ensures FirstDone(Framed(words)) == |words| && Terminated(Framed(words))
  {
    OnlyTerminatorHoldsSentinel(words);
    ShownAtSentinel(Lines(words), TerminatorLine, []);
    assert Lines(words) + [TerminatorLine] + [] == Framed(words);
  }

  /** The trace message of a word line quotes the word without its newline. */
  lemma WordLineMessage(w: string)
    requires |w| > 0 && IsLowercase(w)
    ensures ChunkMessage(w + "\n") == "Received: \"" + w + "\""
  {
    var line := w + "\n";
    assert line[0] == w[0];
    assert TrimStart(line) == line;
    assert line[..|line| - 1] == w;
    assert TrimEnd(w) == w;
  }

  /**
   * A framed body of non-empty lower-case words, each arriving as its own
   * read: the page shows every word line, then the closing line, and
   * traces `request`, `response`, one `chunk` per word quoting it, and
   * `complete`.
   */
  lemma FramedBodyAnswer(query: string, words: seq<string>)
    requires forall k :: 0 <= k < |words| ==> |words[k]| > 0 && IsLowercase(words[k])
    ensures Answered(query, 200, Framed(words)).text == Concat(Lines(words)) + FinishedSuffix
    ensures Kinds(Answered(query, 200, Framed(words)).trace) == [Request, Response] + seq(|words|, _ => Chunk) + [Complete]
    ensures forall k :: 0 <= k < |words| ==>
              Answered(query, 200, Framed(words)).trace[2 + k] == TraceEvent(Chunk, "Received: \"" + words[k] + "\"")
    ensures !Answered(query, 200, Framed(words)).active
  {
    var chunks := Framed(words);
    LoopStopsAtTerminatorLine(words);
    AnsweredText(query, 200, chunks);
    AnsweredKinds(query, 200, chunks);
    WordEventsQuoteWords(query, words);
  }

  /** The `chunk` event of word `k` quotes that word. */
  lemma WordEventsQuoteWords(query: string, words: seq<string>)
    requires forall k :: 0 <= k < |words| ==> |words[k]| > 0 && IsLowercase(words[k])
    requires FirstDone(Framed(words)) == |words|
    ensures forall k :: 0 <= k < |words| ==>
              Answered(query, 200, Framed(words)).trace[2 + k] == TraceEvent(Chunk, "Received: \"" + words[k] + "\"")
  {
    LinesAt(words);
    forall k | 0 <= k < |words|
      ensures Answered(query, 200, Framed(words)).trace[2 + k] == TraceEvent(Chunk, "Received: \"" + words[k] + "\"")
    {
      AnsweredChunkEvent(query, 200, Framed(words), k);
      assert Framed(words)[k] == Lines(words)[k] == words[k] + "\n";
      WordLineMessage(words[k]);
    }
  }

  /**
   * End to end: a positive count typed into an idle page makes the route
   * produce exactly that many words, and the page ends showing them as
   * `FramedBodyAnswer` describes.
   */
  lemma EndToEnd(s: SessionState, input: string, count: int,
                 lengthDraw: nat -> int, letterDraw: (nat, nat) -> int)
    requires !s.active
    requires ParseInt(input) == Some(count) && count > 0
    requires DrawsBelow(lengthDraw, 8)
    requires LetterDraws(letterDraw)
    ensures WordCount(Some(IntToString(count))) == count
    ensures Click(s, input, 200, Framed(Words(count, lengthDraw, letterDraw))).text
            == Concat(Lines(Words(count, lengthDraw, letterDraw))) + FinishedSuffix
    ensures Kinds(Click(s, input, 200, Framed(Words(count, lengthDraw, letterDraw))).trace)
            == [Request, Response] + seq(count, _ => Chunk) + [Complete]
  {
    WordCountOfDecimal(count);
    var words := Words(count, lengthDraw, letterDraw);
    WordsAreWordLines(count, lengthDraw, letterDraw);
    ValidInputIsRequested(s, input, 200, Framed(words));
    FramedBodyAnswer(IntToString(count), words);
  }

  /** The generated words are non-empty and lower-case. */
  lemma WordsAreWordLines(count: nat, lengthDraw: nat -> int, letterDraw: (nat, nat) -> int)
    requires DrawsBelow(lengthDraw, 8)
    requires LetterDraws(letterDraw)
    ensures forall k :: 0 <= k < count ==> |Words(count, lengthDraw, letterDraw)[k]| > 0 && IsLowercase(Words(count, lengthDraw, letterDraw)[k])
  {
    WordsAreLowercase(count, lengthDraw, letterDraw);
  }

  /** A count of zero reaching the route gives a body the page reads as an immediate, empty completion. */
  lemma EmptyStream(query: string, lengthDraw: nat -> int, letterDraw: (nat, nat) -> int)
    requires DrawsBelow(lengthDraw, 8)
    requires LetterDraws(letterDraw)
    ensures var chunks := Framed(Words(WordCount(Some("0")), lengthDraw, letterDraw));
            && chunks == [TerminatorLine]
            && Answered(query, 200, chunks).text == FinishedSuffix
            && Kinds(Answered(query, 200, chunks).trace) == [Request, Response, Complete]
  {
    WordCountOfDecimal(0);
    assert IntToString(0) == "0";
    LoopStopsAtTerminatorLine([]);
    AnsweredText(query, 200, [TerminatorLine]);
    AnsweredKinds(query, 200, [TerminatorLine]);
  }
}
