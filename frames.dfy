/**
 * The per-line frame handling of `processStream` (public/main.js): which lines
 * are event frames, what a frame contributes to the running response text, and
 * the text a whole sequence of received chunks accumulates.
 *
 * JSON.parse is not modelled: every member takes the parser as a parameter
 * `parse`, which yields None where JSON.parse throws and the decoded value
 * otherwise, so all results hold for every parser.
 */
module Frames {
  import opened Options
  import opened Lines

  /** The prefix a line must start with to be a frame. */
  const DataPrefix: string := "data: "
  /** The payload that marks the end of the upstream answer. */
  const DoneSentinel: string := "[DONE]"

  /** The part of a parsed payload the consumer looks at: `choices[0].delta.content`. */
  datatype Delta = Delta(content: Option<string>)
  datatype Choice = Choice(delta: Option<Delta>)
  /** A parsed payload; `choices` is None when the field is absent or falsy. */
  datatype Payload = Payload(choices: Option<seq<Choice>>)

  type Parser = string -> Option<Payload>

  predicate StartsWith(s: string, prefix: string)
  {
    |prefix| <= |s| && s[..|prefix|] == prefix
  }

  /** The payload of a frame line: the line with its 6-character prefix cut off. */
  function PayloadText(line: string): string
    requires StartsWith(line, DataPrefix)
  {
    line[|DataPrefix|..]
  }

  /**
   * The value of `parsed.choices && parsed.choices[0].delta.content` when it is
   * truthy. A missing first choice or a missing delta throws a TypeError that the
   * per-line catch swallows, so they give None just as an absent or empty content.
   */
  function DeltaContent(p: Payload): (c: Option<string>)
    ensures c.Some? ==> c.value != ""
    ensures c.Some? <==> p.choices.Some? && |p.choices.value| > 0
                         && p.choices.value[0].delta.Some?
                         && p.choices.value[0].delta.value.content.Some?
                         && p.choices.value[0].delta.value.content.value != ""
    ensures c.Some? ==> c.value == p.choices.value[0].delta.value.content.value
  {
    match p.choices
    case None => None
    case Some(cs) =>
      if |cs| == 0 then None
      else
        match cs[0].delta
        case None => None
        case Some(d) =>
          match d.content
          case None => None
          case Some(text) => if text == "" then None else Some(text)
  }

  /** What the loop body does with one line. */
  datatype LineKind =
    | NotData          // does not start with "data: "
    | Sentinel         // the payload is exactly [DONE]: `continue`
    | Unparsable       // JSON.parse threw: the error is swallowed
    | NoContent        // parsed, but no truthy choices[0].delta.content
    | Content(text: string)

  function Classify(line: string, parse: Parser): LineKind
  {
    if !StartsWith(line, DataPrefix) then NotData
    else
      var data := PayloadText(line);
      if data == DoneSentinel then Sentinel
      else
        match parse(data)
        case None => Unparsable
        case Some(p) =>
          match DeltaContent(p)
          case None => NoContent
          case Some(text) => Content(text)
  }

  /** The text one line appends to `fullResponse`. */
  function LineDelta(line: string, parse: Parser): string
  {
    match Classify(line, parse)
    case Content(text) => text
    case _ => ""
  }

  /** Appends `f(x)` for each `x` of `xs`, first to last. */
  function Accumulate(xs: seq<string>, f: string -> string): string
  {
    if xs == [] then "" else Accumulate(xs[..|xs| - 1], f) + f(xs[|xs| - 1])
  }

  /** The text the lines of one chunk append, taken in split order. */
  function LinesText(ls: seq<string>, parse: Parser): string
  {
    Accumulate(ls, line => LineDelta(line, parse))
  }

  /** The text one received chunk appends to `fullResponse`. */
  function ChunkText(chunk: string, parse: Parser): string
  {
    LinesText(SplitLines(chunk), parse)
  }

  /** `fullResponse` after the chunks `cs` have been read, in arrival order. */
  function StreamText(cs: seq<string>, parse: Parser): string
  {
    Accumulate(cs, chunk => ChunkText(chunk, parse))
  }

  // ---------------------------------------------------------------------------
  // An independent description of the result: filter the contributing lines,
  // then concatenate their contents.

  /** The four conditions a line must meet to contribute text. */
  predicate Contributes(line: string, parse: Parser)
  {
    && StartsWith(line, DataPrefix)
    && PayloadText(line) != DoneSentinel
    && parse(PayloadText(line)).Some?
    && DeltaContent(parse(PayloadText(line)).value).Some?
  }

  function ContentOf(line: string, parse: Parser): string
    requires Contributes(line, parse)
  {
    DeltaContent(parse(PayloadText(line)).value).value
  }

  /** The contents of the contributing lines, in order. */
  function Contributions(ls: seq<string>, parse: Parser): seq<string>
  {
    if ls == [] then []
    else if Contributes(ls[0], parse) then [ContentOf(ls[0], parse)] + Contributions(ls[1..], parse)
    else Contributions(ls[1..], parse)
  }

  function Concat(ss: seq<string>): string
  {
    if ss == [] then "" else ss[0] + Concat(ss[1..])
  }

  /** Every line of every chunk, chunk after chunk, each chunk split on its own. */
  function AllLines(cs: seq<string>): seq<string>
  {
    if cs == [] then [] else SplitLines(cs[0]) + AllLines(cs[1..])
  }

  // ---------------------------------------------------------------------------
  // Lemmas

  /**
   * A line adds text exactly when it meets all four conditions, and then it adds
   * its content; every other line (not a frame, the sentinel, unparsable, no
   * content) adds nothing.
   */
  lemma LineDeltaCharacterization(line: string, parse: Parser)
    ensures LineDelta(line, parse) != "" <==> Contributes(line, parse)
    ensures Contributes(line, parse) ==> LineDelta(line, parse) == ContentOf(line, parse)
    ensures !Contributes(line, parse) ==> LineDelta(line, parse) == ""
  {
  }

  /** The sentinel line never contributes. */
  lemma SentinelContributesNothing(parse: Parser)
    ensures Classify(DataPrefix + DoneSentinel, parse) == Sentinel
    ensures LineDelta(DataPrefix + DoneSentinel, parse) == ""
    ensures ChunkText(DataPrefix + DoneSentinel, parse) == ""
  {
    var line := DataPrefix + DoneSentinel;
    assert line[..|DataPrefix|] == DataPrefix;
    assert PayloadText(line) == DoneSentinel;
    assert '\n' !in line;
    assert SplitLines(line) == [line];
    LinesTextSingleton(line, parse);
  }

  /** Accumulating two runs one after the other. */
  lemma {:induction false} AccumulateAppend(a: seq<string>, b: seq<string>, f: string -> string)
    ensures Accumulate(a + b, f) == Accumulate(a, f) + Accumulate(b, f)
    decreases |b|
  {
    if b == [] {
      assert a + b == a;
    } else {
      var init, last := b[..|b| - 1], b[|b| - 1];
      var ab := a + b;
      assert ab[..|ab| - 1] == a + init;
      assert ab[|ab| - 1] == last;
      AccumulateAppend(a, init, f);
      var x, y, z := Accumulate(a, f), Accumulate(init, f), f(last);
      calc {
        Accumulate(ab, f);
        Accumulate(a + init, f) + z;
        (x + y) + z;
        x + (y + z);
        x + Accumulate(b, f);
      }
    }
  }

  lemma AccumulateSingleton(x: string, f: string -> string)
    ensures Accumulate([x], f) == f(x)
  {
    var none: seq<string> := [];
    assert [x][..0] == none;
  }

  lemma LinesTextSingleton(line: string, parse: Parser)
    ensures LinesText([line], parse) == LineDelta(line, parse)
  {
    AccumulateSingleton(line, l => LineDelta(l, parse));
  }

  lemma StreamTextSingleton(chunk: string, parse: Parser)
    ensures StreamText([chunk], parse) == ChunkText(chunk, parse)
  {
    AccumulateSingleton(chunk, c => ChunkText(c, parse));
  }

  lemma LinesTextAppend(a: seq<string>, b: seq<string>, parse: Parser)
    ensures LinesText(a + b, parse) == LinesText(a, parse) + LinesText(b, parse)
  {
    AccumulateAppend(a, b, line => LineDelta(line, parse));
  }

  lemma StreamTextAppend(a: seq<string>, b: seq<string>, parse: Parser)
    ensures StreamText(a + b, parse) == StreamText(a, parse) + StreamText(b, parse)
  {
    AccumulateAppend(a, b, chunk => ChunkText(chunk, parse));
  }

  /** Reading one more line appends its delta. */
  lemma LinesTextStep(lines: seq<string>, j: nat, parse: Parser)
    requires j < |lines|
    ensures LinesText(lines[..j + 1], parse) == LinesText(lines[..j], parse) + LineDelta(lines[j], parse)
  {
    assert lines[..j + 1] == lines[..j] + [lines[j]];
    LinesTextAppend(lines[..j], [lines[j]], parse);
    LinesTextSingleton(lines[j], parse);
  }

  /** Reading one more chunk appends its text. */
  lemma StreamTextStep(cs: seq<string>, chunk: string, parse: Parser)
    ensures StreamText(cs + [chunk], parse) == StreamText(cs, parse) + ChunkText(chunk, parse)
  {
    StreamTextAppend(cs, [chunk], parse);
    StreamTextSingleton(chunk, parse);
  }

  lemma {:induction false} ConcatAppend(a: seq<string>, b: seq<string>)
    ensures Concat(a + b) == Concat(a) + Concat(b)
  {
    if a == [] {
      assert a + b == b;
    } else {
      assert (a + b)[0] == a[0];
      assert (a + b)[1..] == a[1..] + b;
      ConcatAppend(a[1..], b);
    }
  }

  lemma {:induction false} ContributionsAppend(a: seq<string>, b: seq<string>, parse: Parser)
    ensures Contributions(a + b, parse) == Contributions(a, parse) + Contributions(b, parse)
  {
    if a == [] {
      assert a + b == b;
    } else {
      assert (a + b)[0] == a[0];
      assert (a + b)[1..] == a[1..] + b;
      ContributionsAppend(a[1..], b, parse);
    }
  }

  /** The text of a chunk's lines is the concatenation of the contributing contents. */
  lemma {:induction false} LinesTextIsConcat(ls: seq<string>, parse: Parser)
    ensures LinesText(ls, parse) == Concat(Contributions(ls, parse))
  {
    if ls != [] {
      var init, last := ls[..|ls| - 1], ls[|ls| - 1];
      assert ls == init + [last];
      LinesTextIsConcat(init, parse);
      ContributionsAppend(init, [last], parse);
      ConcatAppend(Contributions(init, parse), Contributions([last], parse));
      LineDeltaCharacterization(last, parse);
      assert Contributions([last], parse) ==
        (if Contributes(last, parse) then [ContentOf(last, parse)] else []);
    }
  }

  lemma {:induction false} AllLinesAppend(a: seq<string>, b: seq<string>)
    ensures AllLines(a + b) == AllLines(a) + AllLines(b)
  {
    if a == [] {
      assert a + b == b;
    } else {
      assert (a + b)[0] == a[0];
      assert (a + b)[1..] == a[1..] + b;
      AllLinesAppend(a[1..], b);
    }
  }

  /**
   * `fullResponse` after a stream is the in-order concatenation of the contents
   * of every line, across all chunks in arrival order and within a chunk in split
   * order, that starts with "data: ", is not [DONE], parses and has content.
   */
  lemma {:induction false} StreamTextIsConcatOfContributions(cs: seq<string>, parse: Parser)
    ensures StreamText(cs, parse) == Concat(Contributions(AllLines(cs), parse))
  {
    if cs != [] {
      var init, last := cs[..|cs| - 1], cs[|cs| - 1];
      assert cs == init + [last];
      StreamTextIsConcatOfContributions(init, parse);
      AllLinesAppend(init, [last]);
      assert AllLines([last]) == SplitLines(last) by {
        assert [last][1..] == [];
        assert SplitLines(last) + [] == SplitLines(last);
      }
      ContributionsAppend(AllLines(init), SplitLines(last), parse);
      ConcatAppend(Contributions(AllLines(init), parse), Contributions(SplitLines(last), parse));
      LinesTextIsConcat(SplitLines(last), parse);
    }
  }

  /**
   * `fullResponse` only grows: its value after the first `n` chunks is a prefix of
   * its value after any later chunk; nothing is removed or reordered.
   */
  lemma {:induction false} StreamTextGrows(cs: seq<string>, n: nat, m: nat, parse: Parser)
    requires n <= m <= |cs|
    ensures StreamText(cs[..n], parse) <= StreamText(cs[..m], parse)
  {
    assert cs[..m] == cs[..n] + cs[n..m];
    StreamTextAppend(cs[..n], cs[n..m], parse);
  }

  /**
   * A chunk holding only the sentinel line changes nothing, and the chunks after
   * it still contribute: [DONE] is skipped, it does not end accumulation.
   */
  lemma SentinelChunkIsSkipped(before: seq<string>, after: seq<string>, parse: Parser)
    ensures StreamText(before + [DataPrefix + DoneSentinel] + after, parse)
         == StreamText(before, parse) + StreamText(after, parse)
  {
    var done := DataPrefix + DoneSentinel;
    StreamTextAppend(before + [done], after, parse);
    StreamTextAppend(before, [done], parse);
    SentinelContributesNothing(parse);
    StreamTextSingleton(done, parse);
  }

  /**
   * Lines are split per chunk: reading `x` and then `y` yields, at the seam,
   * the contributions of the last line of `x` and of the first line of `y`
   * separately, where the single chunk `x + y` would yield that of their
   * concatenation.
   */
  lemma ChunkSeam(x: string, y: string, parse: Parser)
    ensures var sx, sy := SplitLines(x), SplitLines(y);
      var head, tail := LinesText(sx[..|sx| - 1], parse), LinesText(sy[1..], parse);
      && StreamText([x, y], parse)
         == head + LineDelta(sx[|sx| - 1], parse) + LineDelta(sy[0], parse) + tail
      && StreamText([x + y], parse)
         == head + LineDelta(sx[|sx| - 1] + sy[0], parse) + tail
  {
    TwoChunks(x, y, parse);
    OneChunk(x, y, parse);
  }

  lemma LinesTextAround(a: seq<string>, u: string, b: seq<string>, parse: Parser)
    ensures LinesText(a + [u] + b, parse) == LinesText(a, parse) + LineDelta(u, parse) + LinesText(b, parse)
  {
    LinesTextAppend(a + [u], b, parse);
    LinesTextAppend(a, [u], parse);
    LinesTextSingleton(u, parse);
  }

  /** A chunk's text, with its last line set apart. */
  lemma ChunkTextLast(x: string, parse: Parser)
    ensures var sx := SplitLines(x);
      ChunkText(x, parse) == LinesText(sx[..|sx| - 1], parse) + LineDelta(sx[|sx| - 1], parse)
  {
    var sx := SplitLines(x);
    var none: seq<string> := [];
    assert sx == sx[..|sx| - 1] + [sx[|sx| - 1]] + none;
    LinesTextAround(sx[..|sx| - 1], sx[|sx| - 1], none, parse);
  }

  /** A chunk's text, with its first line set apart. */
  lemma ChunkTextFirst(y: string, parse: Parser)
    ensures var sy := SplitLines(y);
      ChunkText(y, parse) == LineDelta(sy[0], parse) + LinesText(sy[1..], parse)
  {
    var sy := SplitLines(y);
    var none: seq<string> := [];
    assert sy == none + [sy[0]] + sy[1..];
    LinesTextAround(none, sy[0], sy[1..], parse);
  }

  lemma TwoChunks(x: string, y: string, parse: Parser)
    ensures var sx, sy := SplitLines(x), SplitLines(y);
      StreamText([x, y], parse)
      == LinesText(sx[..|sx| - 1], parse) + LineDelta(sx[|sx| - 1], parse)
         + LineDelta(sy[0], parse) + LinesText(sy[1..], parse)
  {
    assert [x, y] == [x] + [y];
    StreamTextAppend([x], [y], parse);
    StreamTextSingleton(x, parse);
    StreamTextSingleton(y, parse);
    ChunkTextLast(x, parse);
    ChunkTextFirst(y, parse);
  }

  lemma OneChunk(x: string, y: string, parse: Parser)
    ensures var sx, sy := SplitLines(x), SplitLines(y);
      StreamText([x + y], parse)
      == LinesText(sx[..|sx| - 1], parse) + LineDelta(sx[|sx| - 1] + sy[0], parse)
         + LinesText(sy[1..], parse)
  {
    var sx, sy := SplitLines(x), SplitLines(y);
    SplitConcat(x, y);
    LinesTextAround(sx[..|sx| - 1], sx[|sx| - 1] + sy[0], sy[1..], parse);
    StreamTextSingleton(x + y, parse);
  }

  /**
   * A frame broken across two chunks is lost: when the first half's payload does
   * not parse and the second half does not start with "data: ", neither half
   * contributes, while the same text received as one chunk yields whatever the
   * rejoined line contributes.
   */
  lemma BrokenFrameIsLost(x: string, y: string, parse: Parser)
    requires var sx := SplitLines(x);
      StartsWith(sx[|sx| - 1], DataPrefix) && parse(PayloadText(sx[|sx| - 1])).None?
    requires !StartsWith(SplitLines(y)[0], DataPrefix)
    ensures var sx, sy := SplitLines(x), SplitLines(y);
      var head, tail := LinesText(sx[..|sx| - 1], parse), LinesText(sy[1..], parse);
      && StreamText([x, y], parse) == head + tail
      && StreamText([x + y], parse) == head + LineDelta(sx[|sx| - 1] + sy[0], parse) + tail
  {
    ChunkSeam(x, y, parse);
  }
}
