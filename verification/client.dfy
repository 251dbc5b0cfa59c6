/** The browser client: the submit handler, the history effect of
    `sendMessage`, and the frames `typewriterAnimate` emits. */
module Client {
  import opened Wrappers
  import opened Text
  import opened Transcript
  import opened Wire

  const Farewell: string := "Good Bye!"
  const NoResponse: string := "[no response]"
  const ServerError: string := "Server error"

  /** What the page holds: the history (never a system turn), the text in
      the input box, and whether input and send button are disabled. */
  datatype ClientState = ClientState(history: seq<Turn>, input: string, disabled: bool)

  /** The two fields the client reads from a parsed response body; None
      when absent or null. */
  datatype ServerData = ServerData(reply: Option<string>, error: Option<string>)

  /** How the `fetch` round trip ended: a parsed JSON body with the
      response's `ok` flag, or an exception (from `fetch` or from
      `res.json()`), given by its `message` and its string form. */
  datatype FetchOutcome =
    | Answered(ok: bool, data: ServerData)
    | Threw(message: string, text: string)

  /** The text the assistant turn ends up holding. */
  function AssistantText(outcome: FetchOutcome): (t: string)
    ensures t != []
    ensures outcome.Answered? && outcome.ok ==> t == OrElse(outcome.data.reply, NoResponse)
    ensures outcome.Answered? && !outcome.ok ==> t == "Error: " + OrElse(outcome.data.error, ServerError)
    ensures outcome.Threw? ==>
              t == "Network error: " + (if outcome.message != [] then outcome.message else outcome.text)
  {
    match outcome
    case Answered(ok, data) =>
      if ok then OrElse(data.reply, NoResponse) else "Error: " + OrElse(data.error, ServerError)
    case Threw(message, text) =>
      "Network error: " + (if message != [] then message else text)
  }

  /** The prefixes `typewriterAnimate(text, ...)` hands to its callback,
      one per timer tick: `text[..1]`, ..., `text`, or a single empty
      string for empty text. */
  function Frames(text: string): (f: seq<string>)
    ensures |f| == (if text == [] then 1 else |text|)
    ensures f[|f| - 1] == text
    ensures forall k :: 0 <= k < |f| ==> f[k] == text[..Min(k + 1, |text|)]
    decreases |text|
  {
    if |text| <= 1 then [text]
    else
      var before := Frames(text[..|text| - 1]);
      before + [text]
  }

  /** The timer loop of `typewriterAnimate`: each tick advances the count,
      emits `text.slice(0, i)`, and stops once the count reaches the
      length. */
  method Typewriter(text: string) returns (emitted: seq<string>)
    ensures emitted == Frames(text)
  {
    var i := 0;
    emitted := [];
    var done := false;
    while !done
      invariant 0 <= i <= |text| || (i == 1 && text == [])
      invariant done ==> i >= |text| && i >= 1
      invariant !done ==> i < |text| || i == 0
      invariant |emitted| == i
      invariant forall k :: 0 <= k < i ==> emitted[k] == text[..Min(k + 1, |text|)]
      decreases if done then 0 else |text| + 1 - i
    {
      i := i + 1;
      emitted := emitted + [Slice(text, 0, i)];
      if i >= |text| {
        done := true;
      }
    }
  }

  /** Each frame overwrites the content of the last history turn, as the
      animation callback does. */
  function Animate(history: seq<Turn>, frames: seq<string>): (h: seq<Turn>)
    requires history != []
    ensures |h| == |history| && h[..|h| - 1] == history[..|history| - 1]
    ensures h[|h| - 1].role == history[|history| - 1].role
    ensures h[|h| - 1].content == if frames == [] then history[|history| - 1].content else frames[|frames| - 1]
    decreases |frames|
  {
    if frames == [] then history
    else
      var last := history[|history| - 1];
      Animate(history[..|history| - 1] + [Turn(last.role, frames[0])], frames[1..])
  }

  /** Animating a text over the last turn leaves that turn holding the
      whole text and every other turn as it was. */
  lemma AnimateReveals(history: seq<Turn>, text: string)
    requires history != []
    ensures Animate(history, Frames(text))
            == history[..|history| - 1] + [Turn(history[|history| - 1].role, text)]
  {
    var f := Frames(text);
    assert f != [] && f[|f| - 1] == text;
    var h := Animate(history, f);
    assert h[|h| - 1] == Turn(history[|history| - 1].role, text);
    SplitLast(h);
  }

  /** The page after `sendMessage(message)` has finished, with the body it
      posted. */
  datatype Exchange = Exchange(state: ClientState, request: ChatRequest)

  /** `JSON.stringify({ history, message })`, taken after the user turn
      was pushed: the history already ends with the message. */
  function Posted(history: seq<Turn>, message: string): ChatRequest {
    ChatRequest(Some(history + [Turn(User, message)]), Some(message))
  }

  /** Whatever the outcome, the history gains exactly the user turn and
      one assistant turn holding the outcome's text. */
  function SendMessage(history: seq<Turn>, message: string, outcome: FetchOutcome): (e: Exchange)
    ensures e.request == Posted(history, message)
    ensures e.state.history
            == history + [Turn(User, message), Turn(Assistant, AssistantText(outcome))]
    ensures !e.state.disabled && e.state.input == []
  {
    var text := AssistantText(outcome);
    var pending := history + [Turn(User, message)];
    var h0 := pending + [Turn(Assistant, "")];
    var final := Animate(h0, Frames(text));
    AnimateReveals(h0, text);
    assert h0[..|h0| - 1] == pending;
    Exchange(ClientState(final, [], false), Posted(history, message))
  }

  /** The state after a submit, and the body posted if any. */
  datatype Submitted = Submitted(state: ClientState, request: Option<ChatRequest>)

  /** The form's submit handler, followed by the `sendMessage` it starts. */
  function Submit(s: ClientState, outcome: FetchOutcome): (r: Submitted)
    ensures |s.history| <= |r.state.history| <= |s.history| + 2
    ensures r.state.history[..|s.history|] == s.history
    ensures r.request.Some? <==> Trim(s.input) != [] && !IsExitPhrase(Trim(s.input))
  {
    var value := Trim(s.input);
    if value == [] then
      Submitted(s, None)
    else if IsExitPhrase(value) then
      var h := s.history + [Turn(Assistant, Farewell)];
      assert h[..|s.history|] == s.history;
      Submitted(ClientState(h, s.input, true), None)
    else
      var e := SendMessage(s.history, value, outcome);
      assert e.state.history[..|s.history|] == s.history;
      Submitted(e.state, Some(e.request))
  }

  /** Blank input does nothing. */
  lemma SubmitBlank(s: ClientState, outcome: FetchOutcome)
    requires AllWhitespace(s.input)
    ensures Submit(s, outcome) == Submitted(s, None)
  {
  }

  /** An exit phrase is answered locally: one farewell turn, controls
      disabled, nothing sent. */
  lemma SubmitExit(s: ClientState, outcome: FetchOutcome)
    requires IsExitPhrase(Trim(s.input))
    ensures Submit(s, outcome)
            == Submitted(ClientState(s.history + [Turn(Assistant, Farewell)], s.input, true), None)
  {
  }

  /** Any other input is sent trimmed, and the history gains the user turn
      and the assistant's answer; controls are enabled again. */
  lemma SubmitSends(s: ClientState, outcome: FetchOutcome)
    requires Trim(s.input) != [] && !IsExitPhrase(Trim(s.input))
    ensures var r := Submit(s, outcome);
            var m := Trim(s.input);
            && r.request == Some(Posted(s.history, m))
            && r.state == ClientState(s.history + [Turn(User, m), Turn(Assistant, AssistantText(outcome))], [], false)
  {
  }

  /** The client never records a system turn. */
  lemma SubmitKeepsNoSystem(s: ClientState, outcome: FetchOutcome)
    requires NoSystemRole(s.history)
    ensures NoSystemRole(Submit(s, outcome).state.history)
  {
    var value := Trim(s.input);
    if value != [] && !IsExitPhrase(value) {
      SubmitSends(s, outcome);
    }
  }

  lemma FramesExamples()
    ensures Frames("hi") == ["h", "hi"]
    ensures Frames("") == [""]
  {
    var f := Frames("hi");
    assert f[0] == "hi"[..1] == "h";
    assert f == [f[0], f[1]];
  }
}
