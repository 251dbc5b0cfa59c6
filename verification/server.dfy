/** The relay server's `POST /api/chat` handler as a function of the
    request body and the gateway's answer. */
module Server {
  import opened Wrappers
  import opened Transcript
  import opened Gateway
  import opened Wire

  const MissingMessage: string := "Missing message"
  const ApiError: string := "API error"

  /** The response, and the window handed to the gateway if it was
      called. */
  datatype Handled = Handled(response: ChatResponse, request: Option<seq<Turn>>)

  /** `req.body || {}`: a missing body reads as one with neither field. */
  function Fields(body: Option<ChatRequest>): ChatRequest {
    body.GetOr(ChatRequest(None, None))
  }

  /** The conversation the server rebuilds for one request: its own system
      turn, the client's history, and the new message. A history without
      system turns gives a valid transcript. */
  function Conversation(history: seq<Turn>, message: string): (c: seq<Turn>)
    ensures |c| == |history| + 2
    ensures c[0] == SystemTurn && c[1..|c| - 1] == history && c[|c| - 1] == Turn(User, message)
    ensures NoSystemRole(history) ==> ValidTranscript(c)
  {
    var c := [SystemTurn] + history + [Turn(User, message)];
    assert c[1..] == history + [Turn(User, message)];
    c
  }

  function Handle(body: Option<ChatRequest>, outcome: Outcome): (h: Handled)
    ensures h.request.None? <==> !Truthy(Fields(body).message)
    ensures h.request.None? <==> h.response.status == 400
    ensures h.response.status in {200, 400, 500}
    ensures h.request.Some? ==>
              var history := Fields(body).history.GetOr([]);
              && |h.request.value| == Min(WindowSize, |history| + 2)
              && IsSuffix(h.request.value, Conversation(history, Fields(body).message.value))
  {
    var fields := Fields(body);
    if !Truthy(fields.message) then
      Handled(ChatResponse(400, ErrorBody(MissingMessage)), None)
    else
      var history := fields.history.GetOr([]);
      var recent := Window(Conversation(history, fields.message.value), WindowSize);
      match outcome
      case Ok(content) => Handled(ChatResponse(200, ReplyBody(content.GetOr(""))), Some(recent))
      case Err(message) => Handled(ChatResponse(500, ErrorBody(message.GetOr(ApiError))), Some(recent))
  }

  /** An absent, null or empty message is refused before any call. */
  lemma HandleRejectsMissing(body: Option<ChatRequest>, outcome: Outcome)
    requires !Truthy(Fields(body).message)
    ensures Handle(body, outcome) == Handled(ChatResponse(400, ErrorBody(MissingMessage)), None)
  {
  }

  /** A history that is not an array counts as an empty one. */
  lemma HandleNonArrayHistory(message: Option<string>, outcome: Outcome)
    ensures Handle(Some(ChatRequest(None, message)), outcome)
            == Handle(Some(ChatRequest(Some([]), message)), outcome)
    ensures Handle(None, outcome) == Handle(Some(ChatRequest(Some([]), None)), outcome)
  {
  }

  /** The window ends with the new message; the server's system turn
      leads it iff the history has at most 18 turns, and otherwise the
      window is made of client turns only. */
  lemma HandleWindow(history: seq<Turn>, message: string, outcome: Outcome)
    requires message != []
    ensures var w := Handle(Some(ChatRequest(Some(history), Some(message))), outcome).request.value;
            && w[|w| - 1] == Turn(User, message)
            && (|history| <= 18 ==> w[0] == SystemTurn && w[1..|w| - 1] == history)
            && (18 < |history| ==> w == history[|history| - 19..] + [Turn(User, message)])
            && (NoSystemRole(history) ==> (HasSystemRole(w) <==> |history| <= 18))
  {
    var c := Conversation(history, message);
    assert Handle(Some(ChatRequest(Some(history), Some(message))), outcome).request.value
           == Window(c, WindowSize);
    WindowEnds(c, WindowSize);
    if 18 < |history| {
      LongConversationWindow(history, message);
    }
    if NoSystemRole(history) {
      WindowSystemIff(c, WindowSize);
    }
  }

  lemma LongConversationWindow(history: seq<Turn>, message: string)
    requires 18 < |history|
    ensures Window(Conversation(history, message), WindowSize)
            == history[|history| - 19..] + [Turn(User, message)]
  {
    var c := Conversation(history, message);
    WindowEnds(c, WindowSize);
    assert c == [SystemTurn] + (history + [Turn(User, message)]);
    assert c[|c| - 20..] == (history + [Turn(User, message)])[|history| - 19..];
  }

  /** A reply is sent with status 200; missing content becomes the empty
      string. */
  lemma HandleSucceeds(body: Option<ChatRequest>, content: Option<string>)
    requires Truthy(Fields(body).message)
    ensures Handle(body, Ok(content)).response
            == ChatResponse(200, ReplyBody(if content.Some? then content.value else ""))
  {
  }

  /** A failure is sent with status 500 and its message, or "API error"
      when the message is missing. */
  lemma HandleFails(body: Option<ChatRequest>, message: Option<string>)
    requires Truthy(Fields(body).message)
    ensures Handle(body, Err(message)).response
            == ChatResponse(500, ErrorBody(if message.Some? then message.value else ApiError))
  {
  }

  lemma EmptyMessageScenario(outcome: Outcome)
    ensures Handle(Some(ChatRequest(Some([]), Some(""))), outcome).response
            == ChatResponse(400, ErrorBody("Missing message"))
  {
  }

  /** A short exchange is forwarded whole behind the system turn. */
  lemma ShortHistoryScenario()
    ensures var h := Handle(Some(ChatRequest(Some([Turn(User, "a"), Turn(Assistant, "b")]), Some("c"))),
                            Ok(Some("d")));
            && h.response == ChatResponse(200, ReplyBody("d"))
            && h.request == Some([SystemTurn, Turn(User, "a"), Turn(Assistant, "b"), Turn(User, "c")])
  {
    var c := Conversation([Turn(User, "a"), Turn(Assistant, "b")], "c");
    assert c == [SystemTurn, Turn(User, "a"), Turn(Assistant, "b"), Turn(User, "c")];
    WindowEnds(c, WindowSize);
  }
}
