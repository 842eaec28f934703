/**
 * The busy/idle state of the chat page and the message element being streamed
 * into (public/main.js): `toggleButtons`, `finalizeMessage`, the read loop of
 * `processStream` and the outcome handling of `fetchAIResponse`.
 *
 * The markdown renderer is not modelled: a displayed message is the markup the
 * renderer produces from a source text, followed or not by the blinking cursor
 * element.
 */
module Session {
  import opened Options
  import opened Lines
  import opened Frames
  import opened Reads

  /** Shown in place of the message when a read of the stream rejects. */
  const ReadErrorText: string := "读取数据流时发生错误。"
  /** Shown in place of the message when the request itself fails. */
  const ConnectionErrorText: string := "抱歉，连接服务器时发生错误。"

  /** The content of a message element. */
  datatype Display =
    | Markup(source: string, cursor: bool)   // innerHTML = render(source), plus the cursor element
    | PlainText(text: string)                // text set directly, no markup

  predicate HasCursor(d: Display)
  {
    d.Markup? && d.cursor
  }

  /** The display once `finalizeMessage` has removed the cursor element, if any. */
  function WithoutCursor(d: Display): (r: Display)
    ensures !HasCursor(r)
    ensures HasCursor(d) ==> r == Markup(d.source, false)
    ensures !HasCursor(d) ==> r == d
  {
    match d
    case Markup(source, _) => Markup(source, false)
    case PlainText(_) => d
  }

  /** Finalizing twice is the same as finalizing once. */
  lemma FinalizeIdempotent(d: Display)
    ensures WithoutCursor(WithoutCursor(d)) == WithoutCursor(d)
  {
  }

  /** The steps of the page the model keeps a record of. */
  datatype UiEvent =
    | ShowBusy                 // toggleButtons(true)
    | ShowIdle                 // toggleButtons(false)
    | Rendered(source: string) // the message re-rendered as `source` plus the cursor
    | Finalized                // finalizeMessage ran

  /**
   * The re-renders the read loop performs for the chunks `cs`: one per chunk, the
   `k`-th showing the text accumulated from the first `k + 1` chunks.
   */
  function RenderEvents(cs: seq<string>, parse: Parser): (r: seq<UiEvent>)
  {
    seq(|cs|, k requires 0 <= k < |cs| => Rendered(StreamText(cs[..k + 1], parse)))
  }

  /** One more chunk adds one more re-render, showing the whole text so far. */
  lemma RenderEventsSnoc(cs: seq<string>, chunk: string, parse: Parser)
    ensures RenderEvents(cs + [chunk], parse)
         == RenderEvents(cs, parse) + [Rendered(StreamText(cs + [chunk], parse))]
  {
    var ext := cs + [chunk];
    forall k | 0 <= k < |cs|
      ensures RenderEvents(ext, parse)[k] == RenderEvents(cs, parse)[k]
    {
      assert ext[..k + 1] == cs[..k + 1];
    }
    assert ext[..|cs| + 1] == ext;
  }

  /** Successive re-renders only extend the displayed text. */
  lemma RendersOnlyGrow(cs: seq<string>, parse: Parser, i: nat, j: nat)
    requires i <= j < |cs|
    ensures var r := RenderEvents(cs, parse);
      r[i].Rendered? && r[j].Rendered? && r[i].source <= r[j].source
  {
    StreamTextGrows(cs, i + 1, j + 1, parse);
  }

  /** The number of occurrences of `e` in `events`. */
  function Occurrences(events: seq<UiEvent>, e: UiEvent): nat
  {
    if events == [] then 0
    else (if events[0] == e then 1 else 0) + Occurrences(events[1..], e)
  }

  lemma {:induction false} OccurrencesAppend(a: seq<UiEvent>, b: seq<UiEvent>, e: UiEvent)
    ensures Occurrences(a + b, e) == Occurrences(a, e) + Occurrences(b, e)
  {
    if a == [] {
      assert a + b == b;
    } else {
      assert (a + b)[0] == a[0];
      assert (a + b)[1..] == a[1..] + b;
      OccurrencesAppend(a[1..], b, e);
    }
  }

  /** Re-renders are neither finalizations nor switches to idle. */
  lemma {:induction false} NoExitStepInRenders(events: seq<UiEvent>)
    requires forall k :: 0 <= k < |events| ==> events[k].Rendered?
    ensures Occurrences(events, Finalized) == 0
    ensures Occurrences(events, ShowIdle) == 0
  {
    if events != [] {
      NoExitStepInRenders(events[1..]);
    }
  }

  /**
   * The steps `processStream` adds for the chunks `cs`: the re-renders, then the
   * finalization and the switch back to idle, each exactly once and in that order.
   */
  lemma ExitStepsRunOnce(cs: seq<string>, parse: Parser)
    ensures var steps := RenderEvents(cs, parse) + [Finalized, ShowIdle];
      && Occurrences(steps, Finalized) == 1
      && Occurrences(steps, ShowIdle) == 1
      && steps[|steps| - 2..] == [Finalized, ShowIdle]
  {
    var renders := RenderEvents(cs, parse);
    NoExitStepInRenders(renders);
    OccurrencesAppend(renders, [Finalized, ShowIdle], Finalized);
    OccurrencesAppend(renders, [Finalized, ShowIdle], ShowIdle);
  }

  /**
   * The body of the read loop for one chunk: split it on newlines and append the
   * content of every frame line to `fullResponse`, skipping [DONE], unparsable
   * payloads and payloads without content.
   */
  method AppendFrames(fullResponse: string, chunk: string, parse: Parser) returns (r: string)
    ensures r == fullResponse + ChunkText(chunk, parse)
  {
    r := fullResponse;
    var lines := SplitLines(chunk);
    for j := 0 to |lines|
      invariant r == fullResponse + LinesText(lines[..j], parse)
    {
      var line := lines[j];
      LinesTextStep(lines, j, parse);
      ghost var delta := LineDelta(line, parse);
      if StartsWith(line, DataPrefix) {
        var data := line[|DataPrefix|..];
        if data == DoneSentinel {
          assert delta == "";
          continue;
        }
        match parse(data) {
          case Some(parsed) =>
            var content := DeltaContent(parsed);
            if content.Some? {
              assert delta == content.value;
              r := r + content.value;
            } else {
              assert delta == "";
            }
          case None =>
            assert delta == "";
        }
      } else {
        assert delta == "";
      }
    }
    assert lines[..|lines|] == lines;
  }

  /** A message element (`.message-content`). */
  class MessageContent {
    var display: Display

    /** A new element showing the rendering of `source`, as `appendMessage` builds it. */
    constructor (source: string)
      ensures display == Markup(source, false)
    {
      display := Markup(source, false);
    }
  }

  /** How the `fetch` of `/chat` settles. */
  datatype FetchOutcome =
    | Responded(ok: bool, outcomes: seq<ReadOutcome>) // a response, with the reads of its body
    | FetchAborted                                    // rejected with AbortError (stop clicked)
    | FetchFailed                                     // rejected otherwise

  /** The chat page: the stop and submit buttons and the current abort controller. */
  class ChatPage {
    var stopShown: bool
    var submitShown: bool
    /** Counts the abort controllers created so far; the current one is the last. */
    var controller: nat
    /** The page's steps so far. */
    ghost var trace: seq<UiEvent>

    /** The page as loaded: idle, with the controller created at start-up. */
    constructor ()
      ensures !stopShown && submitShown
      ensures controller == 1 && trace == []
    {
      stopShown, submitShown := false, true;
      controller := 1;
      trace := [];
    }

    /** `toggleButtons(isLoading)`: stop shown exactly when loading, submit otherwise. */
    method ToggleButtons(isLoading: bool)
      modifies this`stopShown, this`submitShown, this`trace
      ensures stopShown == isLoading && submitShown == !isLoading
      ensures trace == old(trace) + [if isLoading then ShowBusy else ShowIdle]
    {
      stopShown := isLoading;
      submitShown := !isLoading;
      trace := trace + [if isLoading then ShowBusy else ShowIdle];
    }

    /** `finalizeMessage(contentElement)`: removes the cursor element when there is one. */
    method FinalizeMessage(content: MessageContent)
      modifies content, this`trace
      ensures content.display == WithoutCursor(old(content.display))
      ensures trace == old(trace) + [Finalized]
    {
      if HasCursor(content.display) {
        content.display := Markup(content.display.source, false);
      }
      trace := trace + [Finalized];
    }

    /**
     * The `try` block of `processStream`: reads until the reader reports done or
     * a read rejects, accumulating the text of the frames and re-rendering the
     * message, with the cursor, after every chunk. `failed` tells whether the
     * loop left through a rejected read.
     */
    method ReadLoop(content: MessageContent, outcomes: seq<ReadOutcome>, parse: Parser)
      returns (fullResponse: string, failed: bool)
      requires Ends(outcomes)
      modifies content, this`trace
      ensures fullResponse == StreamText(Received(outcomes), parse)
      ensures failed == Failed(outcomes)
      ensures content.display ==
        if Received(outcomes) == [] then old(content.display) else Markup(fullResponse, true)
      ensures trace == old(trace) + RenderEvents(Received(outcomes), parse)
    {
      fullResponse := "";
      failed := false;
      var i := 0;
      ghost var received: seq<string> := [];
      while true
        invariant i <= FirstEnd(outcomes)
        invariant AllChunks(outcomes[..i]) && received == Texts(outcomes[..i])
        invariant fullResponse == StreamText(received, parse)
        invariant content.display == if i == 0 then old(content.display) else Markup(fullResponse, true)
        invariant trace == old(trace) + RenderEvents(received, parse)
        decreases FirstEnd(outcomes) - i
      {
        var r := outcomes[i];
        if !r.Chunk? {
          failed := r.ReadFailed?;
          StopsAtFirstEnd(outcomes, i);
          break;
        }
        fullResponse := AppendFrames(fullResponse, r.text, parse);
        TextsStep(outcomes, i);
        StreamTextStep(received, r.text, parse);
        RenderEventsSnoc(received, r.text, parse);
        ghost var renders := RenderEvents(received, parse);
        received := received + [r.text];
        content.display := Markup(fullResponse, true);
        trace := trace + [Rendered(fullResponse)];
        assert trace == old(trace) + (renders + [Rendered(fullResponse)]);
        i := i + 1;
      }
    }

    /**
     * `processStream(stream, contentElement)`: the read loop, then, when a read
     * rejected, the read-error text in place of the message; on every exit the
     * message is finalized and the page returns to idle, once each.
     * `fullResponse` is returned so that its final value can be stated.
     */
    method ProcessStream(content: MessageContent, outcomes: seq<ReadOutcome>, parse: Parser)
      returns (fullResponse: string)
      requires Ends(outcomes)
      modifies content, this`stopShown, this`submitShown, this`trace
      ensures fullResponse == StreamText(Received(outcomes), parse)
      ensures content.display ==
        if Failed(outcomes) then PlainText(ReadErrorText)
        else if Received(outcomes) == [] then WithoutCursor(old(content.display))
        else Markup(fullResponse, false)
      ensures !stopShown && submitShown
      ensures trace == old(trace) + RenderEvents(Received(outcomes), parse) + [Finalized, ShowIdle]
    {
      var failed;
      fullResponse, failed := ReadLoop(content, outcomes, parse);
      if failed {
        content.display := PlainText(ReadErrorText);
      }
      ghost var before := trace;
      FinalizeMessage(content);
      ToggleButtons(false);
      assert trace == before + [Finalized, ShowIdle];
    }

    /**
     * `fetchAIResponse(message)`: enters busy mode, installs a fresh abort
     * controller, adds an empty AI message and settles the request. A rejected or
     * non-ok request shows the connection-error text and returns to idle; an abort
     * before the response finalizes the message and returns to idle; an ok
     * response is handed to `processStream`.
     */
    method FetchAIResponse(outcome: FetchOutcome, parse: Parser) returns (content: MessageContent)
      requires outcome.Responded? && outcome.ok ==> Ends(outcome.outcomes)
      modifies this
      ensures fresh(content)
      ensures controller == old(controller) + 1
      ensures !stopShown && submitShown
      ensures match outcome
        case Responded(true, outcomes) =>
          && content.display ==
               (if Failed(outcomes) then PlainText(ReadErrorText)
                else Markup(StreamText(Received(outcomes), parse), false))
          && trace == old(trace) + [ShowBusy] + RenderEvents(Received(outcomes), parse) + [Finalized, ShowIdle]
        case FetchAborted =>
          && content.display == Markup("", false)
          && trace == old(trace) + [ShowBusy, Finalized, ShowIdle]
        case _ =>
          && content.display == PlainText(ConnectionErrorText)
          && trace == old(trace) + [ShowBusy, ShowIdle]
    {
      ToggleButtons(true);
      controller := controller + 1;
      content := new MessageContent("");
      match outcome {
        case Responded(ok, outcomes) =>
          if !ok {
            // the thrown "HTTP error" is not an AbortError
            content.display := PlainText(ConnectionErrorText);
            ToggleButtons(false);
          } else {
            var _ := ProcessStream(content, outcomes, parse);
            if Received(outcomes) == [] {
              assert StreamText([], parse) == "";
            }
          }
        case FetchAborted =>
          FinalizeMessage(content);
          ToggleButtons(false);
        case FetchFailed =>
          content.display := PlainText(ConnectionErrorText);
          ToggleButtons(false);
      }
    }
  }
}
