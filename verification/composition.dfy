/** The browser client talking to the relay server: what the server sees
    of a submit, and what the page finally shows for each gateway
    outcome. */
module Composition {
  import opened Wrappers
  import opened Text
  import opened Transcript
  import opened Gateway
  import opened Wire
  import opened Server
  import opened Client

  /** What the client's `fetch` observes of a server response. */
  function ToFetch(r: ChatResponse): FetchOutcome {
    match r.body
    case ReplyBody(reply) => Answered(200 <= r.status < 300, ServerData(Some(reply), None))
    case ErrorBody(error) => Answered(200 <= r.status < 300, ServerData(None, Some(error)))
  }

  /** The page after one submit and, when something was posted, how the
      server handled it. */
  datatype RoundTrip = RoundTrip(state: ClientState, handled: Option<Handled>)

  function Serve(s: ClientState, gateway: Outcome): (rt: RoundTrip)
    ensures rt.handled.Some? <==> Trim(s.input) != [] && !IsExitPhrase(Trim(s.input))
    ensures rt.handled.Some? ==>
              rt.handled.value == Handle(Some(Posted(s.history, Trim(s.input))), gateway)
  {
    var handled := Handle(Some(Posted(s.history, Trim(s.input))), gateway);
    var submitted := Submit(s, ToFetch(handled.response));
    RoundTrip(submitted.state, if submitted.request.Some? then Some(handled) else None)
  }

  /** The client already put the message in the history it posts, and the
      server appends it again: the window ends with two identical user
      turns. */
  lemma DuplicateUserTurn(s: ClientState, gateway: Outcome)
    requires Trim(s.input) != [] && !IsExitPhrase(Trim(s.input))
    ensures var w := Serve(s, gateway).handled.value.request.value;
            && |w| >= 2
            && w[|w| - 1] == Turn(User, Trim(s.input))
            && w[|w| - 2] == Turn(User, Trim(s.input))
  {
    var m := Trim(s.input);
    var history := s.history + [Turn(User, m)];
    var c := Conversation(history, m);
    WindowKeepsOrder(c, WindowSize);
  }

  /** Input the client sends is never refused as a missing message. */
  lemma NeverMissingMessage(s: ClientState, gateway: Outcome)
    requires Trim(s.input) != [] && !IsExitPhrase(Trim(s.input))
    ensures Serve(s, gateway).handled.value.response.status != 400
  {
  }

  /** With the client's own turn counted twice, the server's system turn
      reaches the gateway only while the page holds at most 17 turns. */
  lemma SystemTurnSurvives(s: ClientState, gateway: Outcome)
    requires Trim(s.input) != [] && !IsExitPhrase(Trim(s.input))
    requires NoSystemRole(s.history)
    ensures HasSystemRole(Serve(s, gateway).handled.value.request.value) <==> |s.history| <= 17
  {
    var m := Trim(s.input);
    var history := s.history + [Turn(User, m)];
    assert NoSystemRole(history);
    HandleWindow(history, m, gateway);
  }

  /** The text the page animates for a response of the handler: never
      empty; on success a non-empty reply itself, else the placeholder; on
      failure `Error: ` and the gateway's message, "API error" when it had
      none, or "Server error" when it was empty. */
  function Shown(gateway: Outcome): (r: string)
    ensures |r| > 0
    ensures gateway.Ok? && Truthy(gateway.content) ==> r == gateway.content.value
    ensures gateway.Ok? && !Truthy(gateway.content) ==> r == NoResponse
    ensures gateway.Err? && Truthy(gateway.message) ==> r == "Error: " + gateway.message.value
    ensures gateway == Err(None) ==> r == "Error: " + ApiError
    ensures gateway == Err(Some("")) ==> r == "Error: " + ServerError
  {
    match gateway
    case Ok(content) => OrElse(content, NoResponse)
    case Err(message) => "Error: " + (if message.None? then ApiError else OrElse(message, ServerError))
  }

  lemma ShownForResponse(body: Option<ChatRequest>, gateway: Outcome)
    requires Truthy(Fields(body).message)
    ensures AssistantText(ToFetch(Handle(body, gateway).response)) == Shown(gateway)
  {
    match gateway
    case Ok(content) =>
      HandleSucceeds(body, content);
    case Err(message) =>
      HandleFails(body, message);
  }

  /** The assistant text the page ends with, for each gateway outcome:
      missing or empty content shows the placeholder, and a failure shows
      its message, "API error" when it had none, or "Server error" when
      it was empty. */
  lemma DisplayedText(s: ClientState, gateway: Outcome)
    requires Trim(s.input) != [] && !IsExitPhrase(Trim(s.input))
    ensures var h := Serve(s, gateway).state.history;
            && |h| == |s.history| + 2
            && h[|h| - 1] == Turn(Assistant, Shown(gateway))
  {
    var m := Trim(s.input);
    var body := Some(Posted(s.history, m));
    var handled := Handle(body, gateway);
    SubmitSends(s, ToFetch(handled.response));
    ShownForResponse(body, gateway);
  }
}
