/**
 * The stream producer, `GET /api/stream?count=<n>`: it emits `n` random
 * lower-case words, each as its own newline-terminated chunk, then the
 * terminator line `[DONE]\n`, then closes the body.
 *
 * `Math.random()` becomes two integer oracles: `lengthDraw(i)` is
 * `Math.floor(Math.random() * 8)` for word `i`, and `letterDraw(i, j)` is
 * `Math.floor(Math.random() * 26)` for its character `j`. The delay between
 * words and the byte encoding of the chunks are not modelled.
 */
module StreamRoute {
  import opened Wrappers
  import opened JsText

  /** The count used when the query has no `count` parameter, or an empty one. */
  const DefaultCount := "12"

  /** The line enqueued after the last word, immediately before the body is closed. */
  const TerminatorLine := "[DONE]\n"

  /** The response headers; they configure the framework and have no behaviour here. */
  const ResponseHeaders: seq<(string, string)> := [
    ("Content-Type", "text/plain; charset=utf-8"),
    ("Cache-Control", "no-cache, no-transform"),
    ("Connection", "keep-alive"),
    ("Transfer-Encoding", "chunked")
  ]

  /** The runtime the route asks the framework for. */
  const Runtime := "nodejs"

  /** An oracle that yields `Math.floor(Math.random() * bound)` at every position. */
  ghost predicate DrawsBelow(draw: nat -> int, bound: int) {
    forall j :: 0 <= draw(j) < bound
  }

  /** An oracle that yields `Math.floor(Math.random() * 26)` for every character of every word. */
  ghost predicate LetterDraws(letterDraw: (nat, nat) -> int) {
    forall i, j :: 0 <= letterDraw(i, j) < 26
  }

  /** The per-character draws of word `i`. */
  function Row(letterDraw: (nat, nat) -> int, i: nat): nat -> int {
    (j: nat) => letterDraw(i, j)
  }

  /** `String.fromCharCode(97 + d)`. */
  function Letter(d: int): (c: char)
    requires 0 <= d < 26
    ensures 'a' <= c <= 'z'
  {
    (97 + d) as char
  }

  predicate IsLowercase(w: string) {
    forall k :: 0 <= k < |w| ==> 'a' <= w[k] <= 'z'
  }

  /** The word spelled by the first `n` letter draws. */
  function Spelled(n: nat, letterDraw: nat -> int): (w: string)
    requires forall j :: 0 <= j < n ==> 0 <= letterDraw(j) < 26
    ensures |w| == n
    ensures forall k :: 0 <= k < n ==> w[k] == Letter(letterDraw(k))
  {
    if n == 0 then "" else Spelled(n - 1, letterDraw) + [Letter(letterDraw(n - 1))]
  }

  /**
   * `generateRandomWord`: a length of 3 to 10 from one draw, then one
   * letter per position, appended with `+=`.
   */
  method GenerateRandomWord(lengthDraw: int, letterDraw: nat -> int) returns (word: string)
    requires 0 <= lengthDraw < 8
    requires DrawsBelow(letterDraw, 26)
    ensures word == Spelled(lengthDraw + 3, letterDraw)
    ensures 3 <= |word| <= 10
    ensures IsLowercase(word)
  {
    var length := lengthDraw + 3;
    word := "";
    var i := 0;
    while i < length
      invariant 0 <= i <= length
      invariant word == Spelled(i, letterDraw)
    {
      word := word + [Letter(letterDraw(i))];
      i := i + 1;
    }
  }

  /** `searchParams.get("count") || "12"`: a missing or empty parameter falls back to the default. */
  function CountParameter(param: Option<string>): (r: string)
    ensures r == DefaultCount || (param.Some? && r == param.value)
    ensures r == DefaultCount <== (param.None? || param.value == "")
    ensures param.Some? && param.value != "" ==> r == param.value
  {
    match param
    case None => DefaultCount
    case Some(v) => if v == "" then DefaultCount else v
  }

  /**
   * The number of words the emission loop runs for: `i < count` never
   * holds for a NaN or non-positive count.
   */
  function WordCount(param: Option<string>): (n: nat)
    ensures n > 0 ==> ParseInt(CountParameter(param)) == Some(n)
    ensures n == 0 <==> ParseInt(CountParameter(param)).None? || ParseInt(CountParameter(param)).value <= 0
  {
    LoopBound(ParseInt(CountParameter(param)))
  }

  /** How often `for (let i = 0; i < count; i++)` runs for a parsed count. */
  function LoopBound(count: Option<int>): (n: nat)
    ensures n > 0 ==> count == Some(n)
    ensures n == 0 <==> count.None? || count.value <= 0
  {
    match count
    case None => 0
    case Some(c) => if c < 0 then 0 else c
  }

  /** The words the generator produces for the first `n` iterations. */
  function Words(n: nat, lengthDraw: nat -> int, letterDraw: (nat, nat) -> int): (ws: seq<string>)
    requires DrawsBelow(lengthDraw, 8)
    requires LetterDraws(letterDraw)
    ensures |ws| == n
  {
    if n == 0 then []
    else Words(n - 1, lengthDraw, letterDraw) + [Spelled(lengthDraw(n - 1) + 3, Row(letterDraw, n - 1))]
  }

  /** Each word as the newline-terminated chunk the loop enqueues. */
  function Lines(words: seq<string>): (ls: seq<string>)
    ensures |ls| == |words|
  {
    if words == [] then [] else Lines(words[..|words| - 1]) + [words[|words| - 1] + "\n"]
  }

  /** Line `k` is word `k` followed by a newline. */
  lemma {:induction false} LinesAt(words: seq<string>)
    ensures forall k :: 0 <= k < |words| ==> Lines(words)[k] == words[k] + "\n"
  {
    if words != [] {
      var init := words[..|words| - 1];
      LinesAt(init);
      forall k | 0 <= k < |words| ensures Lines(words)[k] == words[k] + "\n" {
        if k < |init| {
          assert Lines(words)[k] == Lines(init)[k];
        }
      }
    }
  }

  /** One more word adds one more line at the end. */
  lemma LinesSnoc(words: seq<string>, w: string)
    ensures Lines(words + [w]) == Lines(words) + [w + "\n"]
  {
    assert (words + [w])[..|words|] == words;
  }

  /** Each word's row of letter draws is in range. */
  lemma RowDrawsBelow(letterDraw: (nat, nat) -> int, i: nat)
    requires LetterDraws(letterDraw)
    ensures DrawsBelow(Row(letterDraw, i), 26)
  {
    forall j: nat ensures 0 <= Row(letterDraw, i)(j) < 26 {
      assert Row(letterDraw, i)(j) == letterDraw(i, j);
    }
  }

  /** The chunks of a body: one line per word, then the terminator line. */
  function Framed(words: seq<string>): (cs: seq<string>)
    ensures |cs| == |words| + 1 && cs[|words|] == TerminatorLine
  {
    Lines(words) + [TerminatorLine]
  }

  /**
   * `GET`: parse the count, enqueue one word line per iteration, then the
   * terminator; returning the chunks stands for `controller.close()`.
   */
  method Get(countParam: Option<string>, lengthDraw: nat -> int, letterDraw: (nat, nat) -> int)
    returns (chunks: seq<string>)
    requires DrawsBelow(lengthDraw, 8)
    requires LetterDraws(letterDraw)
    ensures chunks == Framed(Words(WordCount(countParam), lengthDraw, letterDraw))
  {
    var count := ParseInt(CountParameter(countParam));
    ghost var n := LoopBound(count);
    chunks := [];
    var i := 0;
    while count.Some? && i < count.value
      invariant 0 <= i <= n
      invariant chunks == Lines(Words(i, lengthDraw, letterDraw))
    {
      RowDrawsBelow(letterDraw, i);
      var word := GenerateRandomWord(lengthDraw(i), Row(letterDraw, i));
      assert Words(i + 1, lengthDraw, letterDraw) == Words(i, lengthDraw, letterDraw) + [word];
      LinesSnoc(Words(i, lengthDraw, letterDraw), word);
      chunks := chunks + [word + "\n"];
      i := i + 1;
    }
    assert i == n;
    assert chunks == Lines(Words(n, lengthDraw, letterDraw));
    assert i == n == WordCount(countParam);
    chunks := chunks + [TerminatorLine];
  }

  /** A missing or empty `count` parameter gives the default of twelve words. */
  lemma DefaultIsTwelve()
    ensures WordCount(None) == 12 && WordCount(Some("")) == 12
  {
    assert IntToString(12) == DefaultCount;
    ParseIntOfIntToString(12, "");
  }

  /** A count the server printed as `${c}` gives `max(c, 0)` words. */
  lemma WordCountOfDecimal(c: int)
    ensures WordCount(Some(IntToString(c))) == if c < 0 then 0 else c
  {
    ParseIntOfIntToString(c, "");
    assert IntToString(c) + "" == IntToString(c);
  }

  /** Every generated word has 3 to 10 letters, all lower case. */
  lemma {:induction false} WordsAreLowercase(n: nat, lengthDraw: nat -> int, letterDraw: (nat, nat) -> int)
    requires DrawsBelow(lengthDraw, 8)
    requires LetterDraws(letterDraw)
    ensures forall k :: 0 <= k < n ==>
      3 <= |Words(n, lengthDraw, letterDraw)[k]| <= 10 && IsLowercase(Words(n, lengthDraw, letterDraw)[k])
  {
    if n > 0 {
      WordsAreLowercase(n - 1, lengthDraw, letterDraw);
      RowDrawsBelow(letterDraw, n - 1);
      var w := Spelled(lengthDraw(n - 1) + 3, Row(letterDraw, n - 1));
      assert forall k :: 0 <= k < |w| ==> w[k] == Letter(Row(letterDraw, n - 1)(k));
    }
  }

  /** A lower-case word line is never the terminator line. */
  lemma WordLineIsNotTerminator(w: string)
    requires IsLowercase(w)
    ensures w + "\n" != TerminatorLine
  {
    if |w| == 6 {
      assert (w + "\n")[0] == w[0] != '[';
    } else {
      assert |w + "\n"| != |TerminatorLine|;
    }
  }

  /**
   * The body holds the terminator line exactly once, as its last chunk,
   * after one line per word in order.
   */
  lemma TerminatorOnlyLast(words: seq<string>)
    requires forall k :: 0 <= k < |words| ==> IsLowercase(words[k])
    ensures |Framed(words)| == |words| + 1
    ensures forall k :: 0 <= k < |words| ==> Framed(words)[k] == words[k] + "\n"
    ensures forall k :: 0 <= k < |Framed(words)| ==> (Framed(words)[k] == TerminatorLine <==> k == |words|)
  {
    LinesAt(words);
    forall k | 0 <= k < |words| ensures Framed(words)[k] != TerminatorLine {
      WordLineIsNotTerminator(words[k]);
    }
  }

  /** The wire body is the word lines followed by `[DONE]\n`. */
  lemma BodyOfFramed(words: seq<string>)
    ensures Concat(Framed(words)) == Concat(Lines(words)) + TerminatorLine
  {
    ConcatSnoc(Lines(words), TerminatorLine);
  }

  /** A NaN or non-positive count gives the body `[DONE]\n` and nothing else. */
  lemma NonPositiveCountBody(countParam: Option<string>, lengthDraw: nat -> int, letterDraw: (nat, nat) -> int)
    requires DrawsBelow(lengthDraw, 8)
    requires LetterDraws(letterDraw)
    requires ParseInt(CountParameter(countParam)).None? || ParseInt(CountParameter(countParam)).value <= 0
    ensures Concat(Framed(Words(WordCount(countParam), lengthDraw, letterDraw))) == TerminatorLine
  {
    BodyOfFramed(Words(WordCount(countParam), lengthDraw, letterDraw));
  }
}
