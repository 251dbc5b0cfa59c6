# Chat agent transcript rules, in Dafny

This project models the logic of a small chat client for a hosted
completion API. The client has a terminal loop (`Agent.js`), a stateless
relay server (`web_server.js`) and a browser page (`docs/main.js`). Only
the transcript rules are modelled. The completion call becomes an
abstract `Gateway.Outcome`: `Ok(content)` or `Err(message)`, where
`None` stands for a JavaScript `null`/`undefined`.

- `Text`: JavaScript `trim` and the exit-phrase regular expression
  `/^(good bye|goodbye|bye|exit|quit)$/i`.
- `Transcript`: roles, turns, the shared system turn, JavaScript `slice`,
  and the `slice(-20)` window.
- `Cli`: one iteration of the terminal loop (`Step`) and a whole session
  (`Run`), with the line typed and the gateway's answer as parameters.
- `Wire` and `Server`: the `POST /api/chat` body and response, and the
  handler as a pure function `Handle(body, outcome)`.
- `Html`: `escapeHtml`, plus `Unescape`, which decodes the five entities
  `escapeHtml` writes. It is a left inverse of `EscapeHtml`, and the
  round-trip lemma proves this.
- `Client`: the submit handler, the history effect of `sendMessage`, and
  the frames `typewriterAnimate` emits (`Typewriter` is its timer loop;
  `Frames` is a closed-form reference for it).
- `Composition`: the page talking to the server.

Composing the client with the server shows a quirk. The page pushes the
user turn into `history` before it posts `{history, message}`, and the
server appends `message` again. So every window ends with the same user
turn twice (`Composition.DuplicateUserTurn`). The page's own turns then
push the system turn out of the window once the page holds 18 turns,
not 19 (`Composition.SystemTurnSurvives`).

The server keeps no state between requests. `Server.Handle` is a function
of the request body and the gateway's answer, and it has no state
argument, so this holds by construction.

Two details of the code matter here:
- The window is the last 20 entries of the list that already starts with
  the system turn. It is not 20 turns plus the system turn. So the system
  turn drops out of long conversations.
- A missing completion is recorded as `[no response]` by the terminal
  loop but returned as the empty string by the server. The page then
  shows `[no response]` for it.

## Model

| member | source | states |
|---|---|---|
| `Text.Trim` | docs/main.js:92 | The result is an infix of the input. Only whitespace lies outside it, and it has no whitespace at either end. It is empty exactly when the input is all whitespace. |
| `Text.TrimBoundsUnique` | Agent.js:37 | Any bounds that leave only whitespace outside and none at the ends give exactly `Trim`'s result, so the trim is unique. |
| `Text.TrimUnique` | Agent.js:37 | Whitespace, then a trimmed middle, then whitespace always trims to that middle. |
| `Text.TrimIdempotent` | docs/main.js:92 | Trimming twice is the same as trimming once. |
| `Text.ExitPhraseIffLowerListed` | Agent.js:44 | The exit test holds iff the ASCII-lower-cased input is one of the five phrases. |
| `Text.IsExitPhrase` | Agent.js:44 | The anchored, case-insensitive exit pattern holds iff the whole input equals one of "good bye", "goodbye", "bye", "exit", "quit" letter for letter up to ASCII case. The same pattern is used at docs/main.js:95. |
| `Text.ExitPhraseMatches` | docs/main.js:95 | "Good Bye", "QUIT" and "bYe" match. |
| `Text.ExitPhraseNearMisses` | Agent.js:44 | "good  bye" (two spaces), "byebye" and "" do not match. |
| `Transcript.Slice` | docs/main.js:81 | `slice(start, end)` with indices inside the sequence returns exactly `s[start..end]`, and never more than the whole sequence. |
| `Transcript.RelativeIndex` | docs/main.js:81 | Defined as the clamping `slice` applies to an index: a negative index counts from the end, and the result lies in `0..len`. |
| `Transcript.FromEnd` | Agent.js:54 | `slice(-n)` with `n > 0` starts `min(n, len)` entries before the end. |
| `Transcript.Window` | Agent.js:54 | `slice(-n)` returns `min(n, len)` entries, and they are a contiguous suffix. |
| `Transcript.WindowKeepsOrder` | web_server.js:32 | Entry k of the window is entry `len - |window| + k` of the whole list. |
| `Transcript.WindowEnds` | Agent.js:54 | The window ends with the last entry. It is the whole list when the list fits, and otherwise the last n entries. |
| `Transcript.WindowSystemIff` | Agent.js:54 | For a transcript with the system turn first and nowhere else, the window holds a system turn iff the transcript has at most n entries. In that case the window starts with the system turn. |
| `Cli.Step` | Agent.js:36-70 | One line only ever appends 0, 1 or 2 turns. The loop closes iff the trimmed line is an exit phrase. A call is made iff the trimmed line is neither empty nor an exit phrase. Without a call the transcript is unchanged. With a call, the trimmed line is appended as a user turn before the call, and the window is the last `min(20, len)` turns, a suffix ending there. |
| `Cli.Exchange` | Agent.js:50-69 | After the user turn is pushed, the transcript grows by 2 on success and by 1 on failure. The old turns stay in place, and the window ends with the new user turn. |
| `Cli.StepSkipsBlank` | Agent.js:37-41 | A blank line changes nothing, makes no call and does not close the loop. |
| `Cli.StepExits` | Agent.js:44-47 | An exit phrase closes the loop with no transcript change and no call. |
| `Cli.StepIgnoresUnusedOutcome` | Agent.js:39-47 | When no call is made, the gateway's answer has no effect. |
| `Cli.StepWindow` | Agent.js:50-54 | The window ends with the new user turn. It holds the system turn iff the transcript with that turn has at most 20 entries. |
| `Cli.StepSucceeds` | Agent.js:61-66 | On success the transcript grows by exactly 2. The assistant turn holds the reply, or `[no response]` only when the content is missing; an empty reply is kept. |
| `Cli.StepFails` | Agent.js:50-69 | On failure the transcript is the old one plus the user turn, with no assistant turn. |
| `Cli.StepKeepsValid` | Agent.js:50-66 | A step from a valid transcript keeps the system turn first and adds no other system turn. |
| `Transcript.ExtendKeepsValid` | Agent.js:26-70 | Appending turns with no system turn among them keeps the system turn first and unique. |
| `Cli.Run` | Agent.js:26-70 | A session only extends its starting transcript. Every window it sends holds 1 to 20 turns and ends with a user turn. A session that starts from a valid transcript keeps the system turn first and unique. |
| `Cli.FailuresAddOnlyUserTurns` | Agent.js:67-69 | When every call fails, each request adds one user turn and the number of assistant turns never changes. |
| `Cli.TwoFailures` | Agent.js:50 | Two failed lines in a row leave the system turn and two user turns and no assistant turn. Each call sent the whole transcript. |
| `Cli.HelloScenario` | Agent.js:36-66 | "hello" answered with "hi there" gives the system turn, the user turn and the assistant turn. |
| `Server.Conversation` | web_server.js:31 | The rebuilt list is the system turn, then the client history unchanged, then the user message. When the client history holds no system turn, the rebuilt list is a valid transcript: the system turn first and nowhere else. |
| `Wire.Truthy` | web_server.js:29 | A string field is truthy iff it is present, not null and not empty, so `!message` holds exactly for an absent, null or empty message. |
| `Wire.OrElse` | docs/main.js:44 | Defined as the logical-or fallback on a string field: the field when it is truthy, otherwise the fallback. docs/main.js:53 uses it the same way. |
| `Server.Handle` | web_server.js:27-46 | A missing body reads as an empty object, with neither field (`Server.Fields`). A gateway call is made iff the message is truthy, and status 400 occurs exactly when no call is made. The status is always 200, 400 or 500. The window has `min(20, len(history) + 2)` entries and is a suffix of the rebuilt list. |
| `Server.HandleRejectsMissing` | web_server.js:28-29 | An absent, null or empty message (or a missing body) gives 400 `{error: 'Missing message'}` and no call. |
| `Server.HandleNonArrayHistory` | web_server.js:28-31 | A history that is not an array, or a missing body, is handled like an empty history. |
| `Server.HandleWindow` | web_server.js:31-32 | The window ends with `user(message)`. With at most 18 history turns it is the system turn followed by the whole history. Otherwise it is the last 19 history turns plus the message. For a history without system turns, a system turn is present iff the history has at most 18 turns. |
| `Server.LongConversationWindow` | web_server.js:32 | With more than 18 history turns the window is the last 19 of them plus the message. |
| `Server.HandleSucceeds` | web_server.js:40-41 | Success gives 200 `{reply}`, with missing content as the empty string. |
| `Server.HandleFails` | web_server.js:42-44 | Failure gives 500 `{error}` with the message, or 'API error' when it is missing. |
| `Server.EmptyMessageScenario` | web_server.js:29 | `{history: [], message: ""}` gives 400 `{error: "Missing message"}`. |
| `Server.ShortHistoryScenario` | web_server.js:31-41 | A two-turn history with message "c" and reply "d" gives 200 `{reply: "d"}`, after sending system, a, b, c. |
| `Html.ReplaceAll` | docs/main.js:20-24 | A global one-character replacement leaves no pattern character when the replacement has none. It is the identity when the character is absent. With a non-empty replacement it never shortens. |
| `Html.EscapeChar` | docs/main.js:18-25 | Each character's encoding is non-empty and holds none of `<`, `>`, `"`, `'`. A non-special character encodes to itself. |
| `Html.ReplaceChainIsCharMap` | docs/main.js:19-24 | The chain of five global replacements, ampersand first, equals the per-character map `&`→`&amp;`, `<`→`&lt;`, `>`→`&gt;`, `"`→`&quot;`, `'`→`&#039;`. |
| `Html.EscapeHtml` | docs/main.js:18-25 | `escapeHtml` writes each character of its input as that character's entity, or as the character itself when it is not one of the five specials. |
| `Html.EscapeHtmlSafe` | docs/main.js:18-25 | The output has no `<`, `>`, `"` or `'`. It is at least as long as the input, and it is the identity on text without the five special characters. |
| `Html.UnescapeEscape` | docs/main.js:18-25 | Decoding the five entities recovers the original text exactly, from the per-character map and so from `escapeHtml`: `Unescape` is a left inverse of `EscapeHtml`. |
| `Html.EscapeHtmlInjective` | docs/main.js:18-25 | Two texts with the same escaping are equal. |
| `Client.AssistantText` | docs/main.js:44-64 | The animated text is never empty. On an ok response it is the reply, or `[no response]` when the reply is empty or missing. On an error response it is `Error: ` plus the error, or `Server error`. On an exception it is `Network error: ` plus the message, or the error's string form. |
| `Client.Frames` | docs/main.js:76-88 | The frames are `text[..1]`, ..., `text[..len]`, or one empty frame for empty text, and the last frame is the text. |
| `Client.Typewriter` | docs/main.js:76-88 | The timer loop emits exactly `Frames(text)`. |
| `Client.FramesExamples` | docs/main.js:76-88 | "hi" emits "h" then "hi". "" emits one "". |
| `Client.Animate` | docs/main.js:46-51 | Applying frames changes only the content of the last turn. It ends as the last frame. |
| `Client.AnimateReveals` | docs/main.js:46-51 | Animating a text over the placeholder turn leaves that turn holding the whole text, with its role unchanged, and every earlier turn as it was. |
| `Client.SendMessage` | docs/main.js:27-73 | `sendMessage` posts `Posted(history, message)`: the page history with `user(message)` already pushed, and the message. Whatever the outcome, the history gains exactly `user(message)` and then one assistant turn holding the outcome's text. Afterwards the input is empty and the controls are enabled. |
| `Client.Submit` | docs/main.js:90-103 | A submit only appends 0, 1 or 2 turns. Something is posted iff the trimmed input is neither empty nor an exit phrase. |
| `Client.SubmitBlank` | docs/main.js:92-93 | Blank input leaves the page unchanged and posts nothing. |
| `Client.SubmitExit` | docs/main.js:95-100 | An exit phrase appends exactly `assistant('Good Bye!')`, disables input and posts nothing. |
| `Client.SubmitSends` | docs/main.js:102 | Other input is posted trimmed. The history gains the user turn and the answer, and the input ends empty and enabled. |
| `Client.SubmitKeepsNoSystem` | docs/main.js:5-6 | The page history never gains a system turn. |
| `Composition.Serve` | docs/main.js:39-43 | The server is reached iff the page posts, and it handles exactly the body the page posted. The page reads the response through `Composition.ToFetch`: `ok` exactly for 2xx statuses, and `reply` or `error` from the body. |
| `Composition.DuplicateUserTurn` | web_server.js:31 | The window the server sends ends with two identical `user(message)` turns. |
| `Composition.NeverMissingMessage` | web_server.js:29 | Input the page posts is never refused with 400. |
| `Composition.SystemTurnSurvives` | docs/main.js:29 | The system turn reaches the gateway iff the page held at most 17 turns before the submit. |
| `Composition.DisplayedText` | web_server.js:40-44 | End to end, the page shows the reply, or `[no response]` for missing or empty content. A failure shows `Error: ` plus its message; `Error: API error` when it has none; `Error: Server error` when it is empty. |
| `Composition.Shown` | docs/main.js:44-53 | The text shown for a gateway outcome is never empty. On success it is the reply when the reply is non-empty, and `[no response]` otherwise. On failure it is `Error: ` followed by the gateway's message when that is non-empty, `API error` when there is none, and `Server error` when it is empty. |

## Left out

- The completion SDK call and its transport, the model name and the
  `MODEL` lookup. The call is a foreign library, so its result is the
  abstract outcome parameter.
- Loading the environment and `.env` files, the missing-API-key
  `process.exit(1)`, `PORT`, and `app.listen`. These are process
  configuration.
- readline prompting and all console output (the farewell line, the reply
  and error lines). These are I/O. A session ends at the last line given
  to `Cli.Run`, which stands for the end of the input stream.
- Express middleware and static file serving. `express.json()` parses
  the body before the route runs. It can also reject a request, which is
  what the next two lines cover. Serving the page's files is I/O.
- Composition.Serve: assumes `express.json()` accepts the posted body.
  With no options it has a 100 kB limit. The page posts its whole history
  on every submit, and the history only grows. So once a conversation
  passes about 100 kB, Express answers 413 with an HTML page and the
  route handler is never reached.
- Composition.DisplayedText: holds only for posted bodies that
  `express.json()` accepts. Past the 100 kB limit, `res.json()` throws on
  the 413 HTML page. The page then shows `Network error: ` and the parse
  error, and every later submit fails the same way.
- DOM work: `render`, `innerHTML`, the `\n` to `<br>` rewrite, scrolling
  and focus. Disabling controls is kept as the single `disabled` flag,
  covering both the input box and the send button.
- `setInterval` timing and async scheduling. The model keeps only the
  sequence of frames and the page state after the round trip ends; the
  intermediate renders are not kept.
- Non-string JSON values in the request body. A `message` that is a
  number, boolean or object is outside the model. A thrown value that is
  not an `Error` is represented as an empty message plus its string form.
- Client.Frames: frames are cut per Unicode character, while
  `text.slice(0, i)` and `text.length` count UTF-16 code units. For text
  outside the Basic Multilingual Plane, such as an emoji, the page emits
  one frame per code unit, some ending in half a surrogate pair; the model
  emits one frame per character. Strings here are sequences of characters,
  not of UTF-16 code units.
- Client.Typewriter: steps over Unicode characters, not UTF-16 code units,
  for the same reason as `Client.Frames`.
- History entries sent by the client are taken to be `{role, content}`
  objects with one of the three known roles. The server forwards any JSON
  array element unchanged, including other roles, extra fields and
  non-objects. It never inspects the entries, so the window laws hold for
  any entry.
- Full Unicode semantics. `trim` uses the ECMAScript whitespace set of
  Unicode 15. Case-insensitive matching is ASCII only, which is exact
  here: without the `u` flag, a regular expression with the `i` flag
  never folds a non-ASCII character onto an ASCII one.
- The server's statelessness has no lemma of its own, because
  `Server.Handle` has no state argument.
