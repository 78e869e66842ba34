/**
 * The few JavaScript string and number primitives both sides of the stream
 * rely on: white space, `trim`, `includes`, `parseInt(s, 10)`, the decimal
 * formatting of an integer in a template literal, and string concatenation
 * of a list of chunks.
 */
module JsText {
  import opened Wrappers

  /** The characters JavaScript's `trim` and `parseInt` skip: WhiteSpace and LineTerminator. */
  predicate IsWhitespace(c: char) {
    c == '\t' || c == '\n' || c == '\U{000B}' || c == '\U{000C}' || c == '\r' || c == ' '
    || c == '\U{00A0}' || c == '\U{1680}' || ('\U{2000}' <= c <= '\U{200A}')
    || c == '\U{2028}' || c == '\U{2029}' || c == '\U{202F}' || c == '\U{205F}'
    || c == '\U{3000}' || c == '\U{FEFF}'
  }

  /** `s` with its leading white space removed. */
  function TrimStart(s: string): string {
    if s != [] && IsWhitespace(s[0]) then TrimStart(s[1..]) else s
  }

  /** `s` with its trailing white space removed. */
  function TrimEnd(s: string): string {
    if s != [] && IsWhitespace(s[|s| - 1]) then TrimEnd(s[..|s| - 1]) else s
  }

  /** JavaScript's `s.trim()`. */
  function Trim(s: string): string {
    TrimEnd(TrimStart(s))
  }

  /** `TrimStart` removes exactly the white space at the front: what it returns is a suffix starting with something else. */
  lemma {:induction false} TrimStartRemovesLeadingWhitespace(s: string)
    ensures |TrimStart(s)| <= |s| && TrimStart(s) == s[|s| - |TrimStart(s)|..]
    ensures TrimStart(s) == [] || !IsWhitespace(TrimStart(s)[0])
    ensures forall j :: 0 <= j < |s| - |TrimStart(s)| ==> IsWhitespace(s[j])
  {
    if s != [] && IsWhitespace(s[0]) {
      var t := s[1..];
      TrimStartRemovesLeadingWhitespace(t);
      var r := TrimStart(t);
      assert TrimStart(s) == r;
      assert s[|s| - |r|..] == t[|t| - |r|..];
      forall j | 0 <= j < |s| - |r| ensures IsWhitespace(s[j]) {
        if j > 0 {
          assert s[j] == t[j - 1];
        }
      }
    }
  }

  /** `TrimEnd` removes exactly the white space at the back: what it returns is a prefix ending with something else. */
  lemma {:induction false} TrimEndRemovesTrailingWhitespace(s: string)
    ensures |TrimEnd(s)| <= |s| && TrimEnd(s) == s[..|TrimEnd(s)|]
    ensures TrimEnd(s) == [] || !IsWhitespace(TrimEnd(s)[|TrimEnd(s)| - 1])
    ensures forall j :: |TrimEnd(s)| <= j < |s| ==> IsWhitespace(s[j])
  {
    if s != [] && IsWhitespace(s[|s| - 1]) {
      var t := s[..|s| - 1];
      TrimEndRemovesTrailingWhitespace(t);
      var r := TrimEnd(t);
      assert TrimEnd(s) == r;
      assert s[..|r|] == t[..|r|];
      forall j | |r| <= j < |s| ensures IsWhitespace(s[j]) {
        if j < |s| - 1 {
          assert s[j] == t[j];
        }
      }
    }
  }

  /** `trim` leaves a string that neither starts nor ends with white space, and leaves such a string alone. */
  lemma TrimBothEnds(s: string)
    ensures |Trim(s)| <= |s|
    ensures Trim(s) == [] || (!IsWhitespace(Trim(s)[0]) && !IsWhitespace(Trim(s)[|Trim(s)| - 1]))
    ensures s == [] || (!IsWhitespace(s[0]) && !IsWhitespace(s[|s| - 1])) ==> Trim(s) == s
  {
    var t := TrimStart(s);
    TrimStartRemovesLeadingWhitespace(s);
    TrimEndRemovesTrailingWhitespace(t);
    var r := TrimEnd(t);
    if r != [] {
      assert r[0] == t[0];
    }
  }

  /** Trimming twice is trimming once. */
  lemma TrimIdempotent(s: string)
    ensures Trim(Trim(s)) == Trim(s)
  {
    TrimBothEnds(s);
    TrimBothEnds(Trim(s));
  }

  /** `part` starts at position `i` of `s`. */
  predicate OccursAt(s: string, part: string, i: int) {
    0 <= i && i + |part| <= |s| && s[i..i + |part|] == part
  }

  /** JavaScript's `s.includes(part)`: only a string at least as long as `part` can contain it, and every string contains the empty one. */
  predicate Contains(s: string, part: string)
    ensures Contains(s, part) ==> |part| <= |s|
    ensures part == [] ==> Contains(s, part)
  {
    assert part == [] ==> OccursAt(s, part, 0);
    exists i :: 0 <= i <= |s| - |part| && OccursAt(s, part, i)
  }

  /** A string none of whose characters is the first character of `part` does not contain `part`. */
  lemma FirstCharAbsent(s: string, part: string)
    requires |part| > 0
    requires forall j :: 0 <= j < |s| ==> s[j] != part[0]
    ensures !Contains(s, part)
  {
    forall i | 0 <= i <= |s| - |part| ensures !OccursAt(s, part, i) {
      assert s[i..i + |part|][0] == s[i] != part[0];
    }
  }

  /** A string shorter than `part` cannot contain it. */
  lemma TooShort(s: string, part: string)
    requires |s| < |part|
    ensures !Contains(s, part)
  {
  }

  predicate IsDigit(c: char) {
    '0' <= c <= '9'
  }

  predicate AllDigits(d: string) {
    forall j :: 0 <= j < |d| ==> IsDigit(d[j])
  }

  /** The value of a decimal digit; only ever applied to digits. */
  function DigitValue(c: char): (v: nat)
    ensures v < 10
  {
    if IsDigit(c) then (c as int) - ('0' as int) else 0
  }

  /** The character of a decimal digit value. */
  function DigitChar(v: nat): (c: char)
    requires v < 10
    ensures IsDigit(c) && DigitValue(c) == v
  {
    ('0' as int + v) as char
  }

  /** The length of the longest run of decimal digits at the start of `s`. */
  function DigitRun(s: string): (k: nat)
    ensures k <= |s|
  {
    if s != [] && IsDigit(s[0]) then 1 + DigitRun(s[1..]) else 0
  }

  /** The number a run of decimal digits denotes, most significant digit first. */
  function DigitsValue(d: string): nat {
    if d == [] then 0 else 10 * DigitsValue(d[..|d| - 1]) + DigitValue(d[|d| - 1])
  }

  /**
   * `parseInt(s, 10)`: skip leading white space, take an optional sign and
   * the longest run of decimal digits after it; NaN (here `None`) when that
   * run is empty. What follows the digits is ignored.
   */
  function ParseInt(s: string): (r: Option<int>)
    ensures TrimStart(s) == [] ==> r.None?
    ensures r.Some? && r.value < 0 ==> TrimStart(s) != [] && TrimStart(s)[0] == '-'
  {
    ParseSigned(TrimStart(s))
  }

  /** `parseInt` once the white space is skipped: an optional sign, then digits. */
  function ParseSigned(t: string): Option<int> {
    if |t| > 0 && t[0] == '-' then Negate(ParseDigits(t[1..]))
    else if |t| > 0 && t[0] == '+' then ParseDigits(t[1..])
    else ParseDigits(t)
  }

  /** The value of the leading digit run of `u`, or `None` when `u` does not start with a digit. */
  function ParseDigits(u: string): (r: Option<int>)
    ensures r.Some? ==> r.value >= 0 && |u| > 0 && IsDigit(u[0])
    ensures r.None? ==> u == [] || !IsDigit(u[0])
  {
    var k := DigitRun(u);
    if k == 0 then None else Some(DigitsValue(u[..k]))
  }

  function Negate(o: Option<int>): Option<int> {
    match o
    case None => None
    case Some(v) => Some(-v)
  }

  /** The decimal digits of `n` without leading zeros, as a template literal prints it. */
  function NatToString(n: nat): (r: string)
    ensures |r| > 0 && AllDigits(r)
    ensures DigitsValue(r) == n
    ensures n > 0 ==> r[0] != '0'
    ensures n < 10 ==> |r| == 1
  {
    if n < 10 then [DigitChar(n)] else NatToString(n / 10) + [DigitChar(n % 10)]
  }

  /** `${i}` for an integer `i`. */
  function IntToString(i: int): (r: string)
    ensures |r| > 0
    ensures i < 0 <==> r[0] == '-'
    ensures i >= 0 ==> AllDigits(r) && DigitsValue(r) == i && (i > 0 ==> r[0] != '0') && (i < 10 ==> |r| == 1)
    ensures i < 0 ==> |r| > 1 && AllDigits(r[1..]) && DigitsValue(r[1..]) == -i && r[1] != '0'
  {
    if i < 0 then
      var d := NatToString(-i);
      assert ("-" + d)[1..] == d;
      "-" + d
    else NatToString(i)
  }

  /** A digit run followed by something that does not start with a digit is read in full. */
  lemma {:induction false} DigitRunOfDigits(d: string, rest: string)
    requires AllDigits(d)
    requires rest == [] || !IsDigit(rest[0])
    ensures DigitRun(d + rest) == |d|
  {
    if d != [] {
      assert (d + rest)[1..] == d[1..] + rest;
      DigitRunOfDigits(d[1..], rest);
    }
  }

  /** The leading digit run is the longest prefix made of digits. */
  lemma {:induction false} DigitRunIsLongest(s: string)
    ensures forall j :: 0 <= j < DigitRun(s) ==> IsDigit(s[j])
    ensures DigitRun(s) < |s| ==> !IsDigit(s[DigitRun(s)])
  {
    if s != [] && IsDigit(s[0]) {
      DigitRunIsLongest(s[1..]);
    }
  }

  /** The digits of `d` are read in full when what follows them does not start with a digit. */
  lemma {:induction false} ParseDigitsOfDigits(d: string, rest: string)
    requires |d| > 0 && AllDigits(d)
    requires rest == [] || !IsDigit(rest[0])
    ensures ParseDigits(d + rest) == Some(DigitsValue(d))
  {
    DigitRunOfDigits(d, rest);
    assert (d + rest)[..|d|] == d;
  }

  /**
   * `parseInt` reads back what a template literal printed, also when
   * non-digit text follows it: `parseInt("-5abc")` is `-5`.
   */
  lemma ParseIntOfIntToString(i: int, rest: string)
    requires rest == [] || !IsDigit(rest[0])
    ensures ParseInt(IntToString(i) + rest) == Some(i)
  {
    if i < 0 {
      NegativeRoundTrip(-i, rest);
    } else {
      NatRoundTrip(i, rest);
    }
  }

  /** The round trip for a natural number. */
  lemma NatRoundTrip(n: nat, rest: string)
    requires rest == [] || !IsDigit(rest[0])
    ensures ParseInt(NatToString(n) + rest) == Some(n)
  {
    var d := NatToString(n);
    var t := d + rest;
    assert t[0] == d[0];
    NoLeadingWhitespace(t);
    ParseDigitsOfDigits(d, rest);
    assert ParseSigned(t) == ParseDigits(t);
  }

  /** The round trip for a negative number `-n`. */
  lemma NegativeRoundTrip(n: nat, rest: string)
    requires n > 0
    requires rest == [] || !IsDigit(rest[0])
    ensures ParseInt("-" + NatToString(n) + rest) == Some(-(n as int))
  {
    var d := NatToString(n);
    var t := "-" + d + rest;
    assert t[0] == '-';
    NoLeadingWhitespace(t);
    assert t == "-" + (d + rest);
    NegativeParses(d, rest);
  }

  /** A string that starts with a minus sign or a digit has no white space to skip. */
  lemma NoLeadingWhitespace(t: string)
    requires t != [] && (t[0] == '-' || IsDigit(t[0]))
    ensures TrimStart(t) == t
  {
    assert !IsWhitespace(t[0]);
  }

  /** A minus sign followed by digits reads as the negated value of the digits. */
  lemma {:induction false} NegativeParses(d: string, rest: string)
    requires |d| > 0 && AllDigits(d)
    requires rest == [] || !IsDigit(rest[0])
    ensures ParseSigned("-" + (d + rest)) == Some(-(DigitsValue(d) as int))
  {
    var t := "-" + (d + rest);
    assert t[0] == '-' && t[1..] == d + rest;
    ParseDigitsOfDigits(d, rest);
  }

  /** Leading white space does not change what `parseInt` reads. */
  lemma {:induction false} ParseIntSkipsWhitespace(ws: string, s: string)
    requires forall j :: 0 <= j < |ws| ==> IsWhitespace(ws[j])
    ensures ParseInt(ws + s) == ParseInt(s)
  {
    TrimStartSkips(ws, s);
  }

  /** Skipping white space in front of `s` reaches what skipping white space in `s` alone reaches. */
  lemma {:induction false} TrimStartSkips(ws: string, s: string)
    requires forall j :: 0 <= j < |ws| ==> IsWhitespace(ws[j])
    ensures TrimStart(ws + s) == TrimStart(s)
  {
    if ws != [] {
      var t := ws + s;
      assert t[0] == ws[0] && IsWhitespace(t[0]);
      assert t[1..] == ws[1..] + s;
      TrimStartSkips(ws[1..], s);
    } else {
      assert ws + s == s;
    }
  }

  /** The string concatenation of a list of chunks, in order. */
  function Concat(chunks: seq<string>): string {
    if chunks == [] then "" else Concat(chunks[..|chunks| - 1]) + chunks[|chunks| - 1]
  }

  /** Appending one chunk appends its text. */
  lemma ConcatSnoc(chunks: seq<string>, c: string)
    ensures Concat(chunks + [c]) == Concat(chunks) + c
  {
    assert (chunks + [c])[..|chunks|] == chunks;
  }

  /** Concatenation distributes over joining two lists of chunks. */
  lemma {:induction false} ConcatAppend(a: seq<string>, b: seq<string>)
    ensures Concat(a + b) == Concat(a) + Concat(b)
  {
    if b == [] {
      assert a + b == a;
    } else {
      var b' := b[..|b| - 1];
      assert a + b == (a + b') + [b[|b| - 1]];
      ConcatSnoc(a + b', b[|b| - 1]);
      ConcatAppend(a, b');
      ConcatSnoc(b', b[|b| - 1]);
      assert b == b' + [b[|b| - 1]];
    }
  }
}
