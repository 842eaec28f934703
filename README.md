# Streaming chat client — a Dafny model

This project models the browser side of a small chat page (`public/main.js`).
The page sends the user's message to `/chat` and reads the reply as a stream of
server-sent-event text. Each line `data: {json}` may carry a piece of the answer
in `choices[0].delta.content`. The page appends every piece to a running text,
`fullResponse`, and re-renders the AI message after each received chunk, with a
blinking cursor at its end. When the stream ends, the page removes the cursor and
switches the buttons back from "stop" to "submit".

Modules:

- `Lines`: `chunk.split('\n')` as `SplitLines`, with its inverse `JoinLines`.
- `Frames`: what one line contributes (`Classify`, `LineDelta`). It also holds
  the text a sequence of chunks accumulates (`StreamText`) and an independent
  filter-then-concatenate description of the same text (`Contributions`,
  `Concat`, `AllLines`).
- `Reads`: the outcomes of `reader.read()`, which are a decoded chunk, the end
  of the stream, or a rejected read.
- `Session`: the page object with its two buttons, the message element and the
  page's record of steps (`trace`). It holds `toggleButtons`, `finalizeMessage`,
  `processStream` (split into its `try` block `ReadLoop` and the rest), the
  per-chunk loop body `AppendFrames`, and the outcome handling of
  `fetchAIResponse`.
- `Forms`: the trim rule of the two submit handlers and the tab placeholder
  lookup.

`JSON.parse` is a parameter `parse: string -> Option<Payload>`. It yields `None`
where `JSON.parse` would throw, and every result holds for every parser. The
markdown renderer is not modelled. A rendered message is
`Markup(source, cursor)`: the markup of `source`, followed or not by the cursor
element. Text set through `innerHTML`/`textContent` without markup is
`PlainText`. The reads of the response body are a given sequence of
`ReadOutcome`s. A click on the stop button appears as a rejected read
(`ReadFailed`) during streaming, and as `FetchAborted` before the response
arrives.

Three behaviours of the code worth knowing:

- Frames are not buffered across chunks. Each chunk is split on its own, so a
  frame split between two chunks is lost (`BrokenFrameIsLost`).
- The page shows the busy state before the request is answered. A non-ok
  response (such as 401) therefore passes through busy and then shows the
  connection-error text (`FetchAIResponse`).
- A stop during streaming rejects the pending read. The `catch` of
  `processStream` then replaces the partial answer with the read-error text
  instead of keeping it (`ProcessStream`).

## Model

| member | source | states |
|---|---|---|
| Lines.SplitLines | public/main.js:134 | `chunk.split('\n')` always yields at least one piece |
| Lines.JoinSplit | public/main.js:134 | no piece of a split holds a newline, and joining the pieces with newlines gives back the chunk |
| Lines.SplitJoin | public/main.js:134 | splitting the newline-joined text of newline-free lines gives back those lines |
| Lines.SplitConcat | public/main.js:133-134 | splitting `x + y` equals splitting `x` and `y` separately, except that the last piece of `x` and the first piece of `y` form one line |
| Frames.DeltaContent | public/main.js:144-145 | a payload yields content exactly when `choices` is present and non-empty, its first choice has a delta, and that delta has non-empty content; the content is then `choices[0].delta.content` |
| Frames.LineDeltaCharacterization | public/main.js:136-150 | a line adds text exactly when it starts with `data: `, its payload is not `[DONE]`, parses and has content, and then it adds that content; a non-data, `[DONE]`, unparsable or content-less line adds nothing |
| Frames.SentinelContributesNothing | public/main.js:139-141 | the line `data: [DONE]` is classified as the sentinel and adds nothing, alone or as a whole chunk |
| Frames.SentinelChunkIsSkipped | public/main.js:139-141 | a `[DONE]` chunk does not stop accumulation: the chunks after it still add their text, as if it were absent |
| Frames.StreamTextIsConcatOfContributions | public/main.js:128-156 | the final `fullResponse` is the in-order concatenation of the contents of the contributing lines of all chunks, each chunk split on its own |
| Frames.StreamTextGrows | public/main.js:145 | `fullResponse` only grows: its value after `n` chunks is a prefix of its value after any `m >= n` chunks |
| Frames.ChunkSeam | public/main.js:133-134 | two chunks read separately contribute the last line of the first and the first line of the second separately; the same text as one chunk contributes their concatenation as one line |
| Frames.BrokenFrameIsLost | public/main.js:137-149 | when a frame is split so that the first half does not parse and the second half lacks the `data: ` prefix, neither half adds anything, while the one-chunk reading adds whatever the rejoined line contributes |
| Reads.FirstEnd | public/main.js:128-131 | the loop's last read is the first outcome that is not a chunk, and every read before it is a chunk |
| Reads.ReceivedAllBeforeEnd | public/main.js:128-131 | chunks followed by an end or a failure are all processed, nothing after the end is read, and the loop fails exactly when the end is a rejected read |
| Session.WithoutCursor | public/main.js:211-216 | after finalizing, no cursor is shown; a cursor is removed with the markup kept; a display without a cursor is unchanged |
| Session.FinalizeIdempotent | public/main.js:211-216 | finalizing twice is the same as finalizing once |
| Session.RenderEventsSnoc | public/main.js:154 | one more chunk adds exactly one re-render, showing the text accumulated from all chunks so far |
| Session.RendersOnlyGrow | public/main.js:145-154 | each re-render's text is a prefix of every later re-render's text |
| Session.ExitStepsRunOnce | public/main.js:160-163 | among the steps of `processStream`, finalization and the switch to idle each occur exactly once, as the last two steps and in that order |
| Session.AppendFrames | public/main.js:133-151 | the loop over one chunk's lines appends exactly that chunk's text (`ChunkText`) to `fullResponse` |
| Session.ChatPage.ToggleButtons | public/main.js:218-221 | the stop button is shown exactly when loading, the submit button exactly when not, so exactly one of them is shown |
| Session.ChatPage.FinalizeMessage | public/main.js:211-216 | the message loses its cursor, if any, and nothing else changes |
| Session.ChatPage.ReadLoop | public/main.js:127-156 | the loop processes exactly the chunks before the first end or failure; `fullResponse` is their accumulated text; after each chunk the message shows that text plus the cursor; it reports whether a read rejected |
| Session.ChatPage.ProcessStream | public/main.js:122-164 | on every exit, `fullResponse` is the accumulated text; a rejected read shows the read-error text; otherwise the message shows the text without a cursor; the page ends idle, with finalization and the idle switch each once after the re-renders |
| Session.ChatPage.FetchAIResponse | public/main.js:88-120 | busy first, with a new abort controller and an empty AI message; an ok response is streamed; an abort finalizes the empty message; a failed or non-ok request shows the connection-error text; every branch ends idle |
| Forms.SubmittedMessage | public/main.js:21-22 | nothing is sent exactly when the input is all whitespace; otherwise the sent text is the input without leading and trailing whitespace, and it starts and ends with non-whitespace |
| Forms.MessageInput.Submit | public/main.js:29-36 | the trimmed message is sent and the box cleared when it is non-empty; otherwise nothing is sent and the box is unchanged |
| Forms.Placeholder | public/main.js:52-57 | a known tab shows its own example prompt; any other tab shows the default; the placeholder is never empty |

## Left out

- The server (`server.js`) is not part of this model. The page relies only on
  its responses.
- DOM construction (`appendMessage`), `scrollToBottom`, the auto-resizing
  textarea, the quick-prompt buttons and the loading of the markdown library are
  not modelled. They are presentation only.
- `handleNewMessage` (lines 79-86) is not modelled. It hides the initial view
  and appends the user's bubble before calling `fetchAIResponse`. The request
  body (`message`) does not affect the modelled behaviour.
- `TextDecoder`: chunks are taken as already-decoded strings. The decoder's
  carry-over of a split multi-byte character is not modelled.
- Markdown rendering is abstracted as `Markup(source, cursor)`. The model
  assumes the rendered cursor `<span>` is always found by `finalizeMessage`. It
  does not capture markdown that escapes the span, for example inside an open
  code fence.
- `JSON.parse` is a parameter. Payloads whose `content` is a non-string value,
  or whose `choices` is a truthy non-array, are outside the `Payload` datatype.
- Concurrency: the stop button (lines 71-74) and the asynchronous interleaving
  of promise callbacks are represented only by the outcomes they cause
  (`ReadFailed`, `FetchAborted`). The abort controller is a counter.
  `Session.ChatPage.FetchAIResponse` states that a new one is created, not that
  an older one stops affecting the new request.
- `console.log` and `console.error` are left out.
- The placeholder lookup with a tab label naming an inherited object property
  (such as `constructor`) is not modelled. `Forms.Placeholder` treats every
  label not in the table as missing.
- Session.ChatPage.ReadLoop, Session.ChatPage.ProcessStream and
  Session.ChatPage.FetchAIResponse (for an ok response) require that the reader
  eventually reports done or a rejected read. The source has no timeout, and
  `[DONE]` is skipped rather than ending the loop. A response that stays open,
  even after `[DONE]`, therefore keeps the page busy with the cursor shown
  until stop is clicked. The model does not describe such a stream: its
  "on every exit" and "ends idle" promises hold only for streams that end.
- The buttons' visibility on page load comes from the HTML. The
  `Session.ChatPage` constructor assumes the idle state.
