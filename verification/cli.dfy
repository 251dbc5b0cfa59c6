/** The terminal chat loop: one transition per line read, over a
    transcript that starts as the system turn alone. */
module Cli {
  import opened Wrappers
  import opened Text
  import opened Transcript
  import opened Gateway

  /** Assistant text recorded when the completion has no content. */
  const NoResponse: string := "[no response]"

  /** What one line does: the transcript after it, whether the loop
      stopped, and the window sent to the gateway if a call was made. */
  datatype StepResult = StepResult(transcript: seq<Turn>, closed: bool, request: Option<seq<Turn>>)

  /** One iteration of the loop, given the line typed and what the gateway
      answers if it is called. */
  function Step(t: seq<Turn>, line: string, outcome: Outcome): (r: StepResult)
    ensures |t| <= |r.transcript| <= |t| + 2 && r.transcript[..|t|] == t
    ensures r.closed <==> IsExitPhrase(Trim(line))
    ensures r.request.Some? <==> Trim(line) != [] && !IsExitPhrase(Trim(line))
    ensures r.request.None? ==> r.transcript == t
    ensures NoSystemRole(r.transcript[|t|..])
    ensures r.request.Some? ==>
              && |t| < |r.transcript|
              && r.transcript[|t|] == Turn(User, Trim(line))
              && |r.request.value| == Min(WindowSize, |t| + 1)
              && r.request.value[|r.request.value| - 1] == Turn(User, Trim(line))
              && IsSuffix(r.request.value, r.transcript[..|t| + 1])
  {
    var input := Trim(line);
    if input == [] then
      StepResult(t, false, None)
    else if IsExitPhrase(input) then
      StepResult(t, true, None)
    else
      Exchange(t, input, outcome)
  }

  /** The user turn is pushed, the window sent, and the reply recorded if
      there is one. */
  function Exchange(t: seq<Turn>, input: string, outcome: Outcome): (r: StepResult)
    ensures !r.closed && r.request.Some?
    ensures |r.transcript| == |t| + (if outcome.Ok? then 2 else 1)
    ensures r.transcript[..|t|] == t && r.transcript[|t|] == Turn(User, input)
    ensures NoSystemRole(r.transcript[|t|..])
    ensures |r.request.value| == Min(WindowSize, |t| + 1)
    ensures r.request.value[|r.request.value| - 1] == Turn(User, input)
    ensures IsSuffix(r.request.value, r.transcript[..|t| + 1])
  {
    var sent := t + [Turn(User, input)];
    var request := Window(sent, WindowSize);
    WindowEnds(sent, WindowSize);
    match outcome
    case Ok(content) =>
      var after := sent + [Turn(Assistant, content.GetOr(NoResponse))];
      assert after[..|t| + 1] == sent;
      assert after[|t|..] == [Turn(User, input), Turn(Assistant, content.GetOr(NoResponse))];
      assert NoSystemRole(after[|t|..]);
      StepResult(after, false, Some(request))
    case Err(_) =>
      assert sent[..|t| + 1] == sent;
      assert sent[|t|..] == [Turn(User, input)];
      assert NoSystemRole(sent[|t|..]);
      StepResult(sent, false, Some(request))
  }

  /** A blank line changes nothing and calls nothing; it does not close the
      loop either. */
  lemma StepSkipsBlank(t: seq<Turn>, line: string, outcome: Outcome)
    requires AllWhitespace(line)
    ensures Step(t, line, outcome) == StepResult(t, false, None)
  {
  }

  /** An exit phrase closes the loop without touching the transcript or
      the gateway. */
  lemma StepExits(t: seq<Turn>, line: string, outcome: Outcome)
    requires IsExitPhrase(Trim(line))
    ensures Step(t, line, outcome) == StepResult(t, true, None)
  {
  }

  /** Without a call the gateway's answer is irrelevant. */
  lemma StepIgnoresUnusedOutcome(t: seq<Turn>, line: string, o1: Outcome, o2: Outcome)
    requires Step(t, line, o1).request.None?
    ensures Step(t, line, o1) == Step(t, line, o2)
  {
  }

  /** The request ends with the new user turn, and carries the system turn
      iff the transcript with that turn still fits in the window. */
  lemma StepWindow(t: seq<Turn>, line: string, outcome: Outcome)
    requires ValidTranscript(t)
    requires Trim(line) != [] && !IsExitPhrase(Trim(line))
    ensures var w := Step(t, line, outcome).request.value;
            && w[|w| - 1] == Turn(User, Trim(line))
            && (HasSystemRole(w) <==> |t| + 1 <= WindowSize)
  {
    var sent := t + [Turn(User, Trim(line))];
    assert sent[1..] == t[1..] + [Turn(User, Trim(line))];
    WindowEnds(sent, WindowSize);
    WindowSystemIff(sent, WindowSize);
  }

  /** A successful call records exactly one assistant turn after the user
      turn: the reply, or the placeholder only when the reply is missing. */
  lemma StepSucceeds(t: seq<Turn>, line: string, content: Option<string>)
    requires Trim(line) != [] && !IsExitPhrase(Trim(line))
    ensures var r := Step(t, line, Ok(content));
            && |r.transcript| == |t| + 2
            && r.transcript[|t| + 1] == Turn(Assistant, if content.Some? then content.value else NoResponse)
  {
  }

  /** A failed call keeps the user turn and adds no assistant turn. */
  lemma StepFails(t: seq<Turn>, line: string, message: Option<string>)
    requires Trim(line) != [] && !IsExitPhrase(Trim(line))
    ensures Step(t, line, Err(message)).transcript == t + [Turn(User, Trim(line))]
  {
  }

  lemma StepKeepsValid(t: seq<Turn>, line: string, outcome: Outcome)
    ensures ValidTranscript(t) ==> ValidTranscript(Step(t, line, outcome).transcript)
  {
    if ValidTranscript(t) {
      ExtendKeepsValid(t, Step(t, line, outcome).transcript);
    }
  }

  /** One line read by the loop together with the gateway's answer should
      that line be sent. */
  datatype Entry = Entry(line: string, outcome: Outcome)

  /** The loop's state after a run of lines, and every window it sent. */
  datatype Session = Session(transcript: seq<Turn>, closed: bool, requests: seq<seq<Turn>>)

  /** A window the loop may send: 1 to 20 turns, the last from the user. */
  predicate Sendable(w: seq<Turn>) {
    0 < |w| <= WindowSize && w[|w| - 1].role == User
  }

  /** Runs the loop over the lines until an exit phrase or the end of the
      input. The loop only appends: a valid transcript stays valid, so the
      first turn is the system turn for the whole session. */
  function Run(t: seq<Turn>, entries: seq<Entry>): (s: Session)
    ensures |t| <= |s.transcript| && s.transcript[..|t|] == t
    ensures forall k :: 0 <= k < |s.requests| ==> Sendable(s.requests[k])
    ensures ValidTranscript(t) ==> ValidTranscript(s.transcript)
    decreases |entries|
  {
    if entries == [] then
      Session(t, false, [])
    else
      var r := Step(t, entries[0].line, entries[0].outcome);
      StepKeepsValid(t, entries[0].line, entries[0].outcome);
      if r.closed then
        Session(r.transcript, true, [])
      else
        var rest := Run(r.transcript, entries[1..]);
        var sent := if r.request.Some? then [r.request.value] else [];
        assert forall k :: 0 <= k < |sent| ==> Sendable(sent[k]);
        PrefixOfPrefix(t, r.transcript, rest.transcript);
        Session(rest.transcript, rest.closed, sent + rest.requests)
  }

  predicate AllFail(entries: seq<Entry>) {
    forall k :: 0 <= k < |entries| ==> entries[k].outcome.Err?
  }

  /** When every call fails, each request adds one user turn and no
      assistant turn is ever recorded. */
  lemma {:induction false} FailuresAddOnlyUserTurns(t: seq<Turn>, entries: seq<Entry>)
    requires AllFail(entries)
    ensures var s := Run(t, entries);
            && |s.transcript| == |t| + |s.requests|
            && CountRole(Assistant, s.transcript) == CountRole(Assistant, t)
            && CountRole(User, s.transcript) == CountRole(User, t) + |s.requests|
    decreases |entries|
  {
    if entries != [] {
      var r := Step(t, entries[0].line, entries[0].outcome);
      if !r.closed {
        FailuresAddOnlyUserTurns(r.transcript, entries[1..]);
        if r.request.Some? {
          CountRoleAppend(Assistant, t, [Turn(User, Trim(entries[0].line))]);
          CountRoleAppend(User, t, [Turn(User, Trim(entries[0].line))]);
        }
      }
    }
  }

  /** Two failed calls in a row leave two user turns and no assistant
      turn, and each call sent the whole transcript. */
  lemma TwoFailures(a: string, b: string, e1: Option<string>, e2: Option<string>)
    requires Trim(a) != [] && !IsExitPhrase(Trim(a))
    requires Trim(b) != [] && !IsExitPhrase(Trim(b))
    ensures var r1 := Step([SystemTurn], a, Err(e1));
            var r2 := Step(r1.transcript, b, Err(e2));
            && r1.request == Some([SystemTurn, Turn(User, Trim(a))])
            && r2.request == Some([SystemTurn, Turn(User, Trim(a)), Turn(User, Trim(b))])
            && r2.transcript == [SystemTurn, Turn(User, Trim(a)), Turn(User, Trim(b))]
  {
    var t1 := [SystemTurn] + [Turn(User, Trim(a))];
    ShortFailure([SystemTurn], a, e1);
    ShortFailure(t1, b, e2);
    assert t1 == [SystemTurn, Turn(User, Trim(a))];
    assert t1 + [Turn(User, Trim(b))] == [SystemTurn, Turn(User, Trim(a)), Turn(User, Trim(b))];
  }

  /** A failed call on a transcript short enough to be sent whole. */
  lemma ShortFailure(t: seq<Turn>, line: string, e: Option<string>)
    requires Trim(line) != [] && !IsExitPhrase(Trim(line))
    requires |t| < WindowSize
    ensures var sent := t + [Turn(User, Trim(line))];
            Step(t, line, Err(e)) == StepResult(sent, false, Some(sent))
  {
    WindowEnds(t + [Turn(User, Trim(line))], WindowSize);
  }

  /** A greeting answered by the gateway yields system, user, assistant. */
  lemma HelloScenario()
    ensures Step([SystemTurn], "hello", Ok(Some("hi there"))).transcript
            == [SystemTurn, Turn(User, "hello"), Turn(Assistant, "hi there")]
  {
    var s := "hello";
    TrimKeepsTrimmed(s);
    ExitPhraseIffLowerListed(s);
    assert Lower(s) == s;
  }
}
