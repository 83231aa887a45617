/**
 * services/api/app/rag/routes.py: event_stream, the frames of one streamed answer and
 * the turns it leaves in the chat memory.
 */
module Answers {
  import opened Wrappers
  import opened Json
  import Frames
  import JsonReader

  datatype Turn = Turn(role: string, content: string)

  /** What the graph hands to synthesis, as far as the metadata frame shows it. */
  datatype State = State(route: Value, grade: Value, attempt: Value, trace: Value, sources: seq<Value>)

  /** The model's tokens; Broken when it raised after them. */
  datatype Synthesis =
    | Complete(tokens: seq<string>)
    | Broken(tokens: seq<string>, message: string)

  type Frame = seq<Field>

  function Token(content: string): Frame {
    [Field("type", Str("token")), Field("content", Str(content))]
  }

  function ErrorFrame(message: string): Frame {
    [Field("type", Str("error")), Field("message", Str(message))]
  }

  const DONE: Frame := [Field("type", Str("done"))]

  function Metadata(session: Option<string>, state: State, history: nat): Frame {
    [Field("type", Str("metadata")),
     Field("session_id", if session.Some? then Str(session.value) else Null),
     Field("route", state.route),
     Field("grade", state.grade),
     Field("attempt", state.attempt),
     Field("trace", state.trace),
     Field("sources", List(state.sources)),
     Field("retrieved_chunks", Int(|state.sources|)),
     Field("history_turns_loaded", Int(history))]
  }

  /** dict.get */
  function Get(frame: Frame, name: string): Option<Value> {
    if frame == [] then None
    else if frame[0].name == name then Some(frame[0].value)
    else Get(frame[1..], name)
  }

  function TypeOf(frame: Frame): Option<Value> {
    Get(frame, "type")
  }

  /** synthesize_streaming: the tokens, then one closing frame. */
  function Events(synthesis: Synthesis): (events: seq<Frame>)
    ensures |events| == |synthesis.tokens| + 1
  {
    var tokens := seq(|synthesis.tokens|, i requires 0 <= i < |synthesis.tokens| => Token(synthesis.tokens[i]));
    match synthesis
    case Complete(_) =>
      tokens + [[Field("type", Str("answer_complete")), Field("content", Str(Frames.Concat(synthesis.tokens)))]]
    case Broken(_, message) => tokens + [ErrorFrame(message)]
  }

  /** A session id that is missing or empty is no session. */
  predicate HasSession(session: Option<string>) {
    session.Some? && session.value != ""
  }

  /** The frames of an answer, or of an agent that failed before there was one. */
  function FramesOf(
    session: Option<string>, history: nat, agent: Attempt<State, string>, synthesis: Synthesis): seq<Frame>
  {
    match agent
    case Raised(error) => [ErrorFrame("agent failed: " + error), DONE]
    case Ok(state) => AnswerFrames(session, history, state, synthesis)
  }

  function AnswerFrames(session: Option<string>, history: nat, state: State, synthesis: Synthesis): seq<Frame> {
    [Metadata(session, state, history)] + Events(synthesis) + [DONE]
  }

  /** What is appended to the session. */
  function TurnsOf(
    question: string, session: Option<string>, agent: Attempt<State, string>, synthesis: Synthesis): seq<Turn>
  {
    if !HasSession(session) then []
    else if agent.Raised? || Frames.Concat(synthesis.tokens) == "" then [Turn("user", question)]
    else [Turn("user", question), Turn("assistant", Frames.Concat(synthesis.tokens))]
  }

  /** What event_stream yields and what it appends to the session. */
  method EventStream(
    question: string, session: Option<string>, history: nat,
    agent: Attempt<State, string>, synthesis: Synthesis)
    returns (frames: seq<Frame>, turns: seq<Turn>)
    ensures frames == FramesOf(session, history, agent, synthesis)
    ensures turns == TurnsOf(question, session, agent, synthesis)
  {
    hide Metadata, Events;
    frames, turns := [], [];
    if HasSession(session) {
      turns := turns + [Turn("user", question)];
    }
    if agent.Raised? {
      frames := [ErrorFrame("agent failed: " + agent.error), DONE];
      return;
    }
    frames := [Metadata(session, agent.value, history)];
    var events, parts: seq<string> := Events(synthesis), [];
    for e := 0 to |events|
      invariant frames == [Metadata(session, agent.value, history)] + events[..e]
      invariant parts == synthesis.tokens[..if e <= |synthesis.tokens| then e else |synthesis.tokens|]
    {
      EventType(synthesis, e);
      if TypeOf(events[e]) == Some(Str("token")) {
        var content := Get(events[e], "content");
        parts := parts + [content.value.s];
      }
      frames := frames + [events[e]];
    }
    assert events[..|events|] == events && parts == synthesis.tokens;
    var answer := Frames.Concat(parts);
    if HasSession(session) && answer != "" {
      turns := turns + [Turn("assistant", answer)];
    }
    frames := frames + [DONE];
  }

  lemma EventType(synthesis: Synthesis, e: nat)
    requires e < |Events(synthesis)|
    ensures TypeOf(Events(synthesis)[e]) == Some(Str("token")) <==> e < |synthesis.tokens|
    ensures TypeOf(Events(synthesis)[e]) != Some(Str("done"))
    ensures e < |synthesis.tokens| ==>
      && Get(Events(synthesis)[e], "content") == Some(Str(synthesis.tokens[e]))
  {
  }

  /** Exactly one done frame, and it is the last: the client can rely on it to stop. */
  lemma DoneIsLastAndOnly(
    session: Option<string>, history: nat, agent: Attempt<State, string>, synthesis: Synthesis)
    ensures var frames := FramesOf(session, history, agent, synthesis);
      forall i :: 0 <= i < |frames| ==> (TypeOf(frames[i]) == Some(Str("done")) <==> i == |frames| - 1)
  {
    var frames := FramesOf(session, history, agent, synthesis);
    forall i | 0 <= i < |frames|
      ensures TypeOf(frames[i]) == Some(Str("done")) <==> i == |frames| - 1
    {
      if agent.Ok? && 0 < i < |frames| - 1 {
        EventType(synthesis, i - 1);
        assert frames[i] == Events(synthesis)[i - 1];
      }
    }
  }

  // --- from the server's tokens to the client's screen ----------------------------------------------

  /**
   * The callback of ask in apps/web/src/App.tsx, as far as the text goes: a token is
   * appended, an error replaces what is there.
   */
  function Show(screen: string, frame: Value): string {
    if !frame.Dict? then screen
    else if TypeOf(frame.fields) == Some(Str("token")) then
      match Get(frame.fields, "content")
      case Some(Str(content)) => screen + content
      case _ => screen
    else if TypeOf(frame.fields) == Some(Str("error")) then
      match Get(frame.fields, "message")
      case Some(Str(message)) => "Error: " + message
      case _ => screen
    else screen
  }

  /** What is on screen after the frames delivered, from an empty message. */
  function OnScreen(frames: seq<Value>): string {
    if frames == [] then "" else Show(OnScreen(frames[..|frames| - 1]), frames[|frames| - 1])
  }

  /** What the screen is to hold in the end. */
  function ScreenOf(agent: Attempt<State, string>, synthesis: Synthesis): string {
    match agent
    case Raised(error) => "Error: " + ("agent failed: " + error)
    case Ok(_) =>
      match synthesis
      case Complete(tokens) => Frames.Concat(tokens)
      case Broken(_, message) => "Error: " + message
  }

  lemma OnScreenSnoc(frames: seq<Frame>, frame: Frame)
    ensures OnScreen(Frames.Objects(frames + [frame])) == Show(OnScreen(Frames.Objects(frames)), Dict(frame))
  {
    hide Show;
    assert Frames.Objects(frames + [frame])[..|frames|] == Frames.Objects(frames);
  }

  lemma ShowFrames(screen: string, session: Option<string>, history: nat, state: State, text: string)
    ensures Show(screen, Dict(Metadata(session, state, history))) == screen
    ensures Show(screen, Dict(DONE)) == screen
    ensures Show(screen, Dict(Token(text))) == screen + text
    ensures Show(screen, Dict(ErrorFrame(text))) == "Error: " + text
    ensures Show(screen, Dict([Field("type", Str("answer_complete")), Field("content", Str(text))])) == screen
  {
    assert "token"[0] == 't' && "error"[0] == 'e';
    TokenFields(text);
    ErrorFields(text);
  }

  lemma TokenFields(text: string)
    ensures TypeOf(Token(text)) == Some(Str("token")) && Get(Token(text), "content") == Some(Str(text))
  {
    assert Token(text)[1..] == [Field("content", Str(text))];
    assert Get([Field("content", Str(text))], "content") == Some(Str(text));
  }

  lemma ErrorFields(text: string)
    ensures TypeOf(ErrorFrame(text)) == Some(Str("error")) && Get(ErrorFrame(text), "message") == Some(Str(text))
  {
    assert ErrorFrame(text)[1..] == [Field("message", Str(text))];
    assert Get([Field("message", Str(text))], "message") == Some(Str(text));
  }

  lemma {:induction false} TokensShow(
    session: Option<string>, history: nat, state: State, synthesis: Synthesis, n: nat)
    requires n <= |synthesis.tokens|
    ensures OnScreen(Frames.Objects([Metadata(session, state, history)] + Events(synthesis)[..n]))
      == Frames.Concat(synthesis.tokens[..n])
  {
    hide Show, Metadata;
    var metadata, events := Metadata(session, state, history), Events(synthesis);
    if n == 0 {
      ShowFrames("", session, history, state, "");
      OnScreenSnoc([], metadata);
      assert Frames.Objects([]) == [];
      assert [metadata] + events[..0] == [] + [metadata];
    } else {
      TokensShow(session, history, state, synthesis, n - 1);
      ShowFrames(Frames.Concat(synthesis.tokens[..n - 1]), session, history, state, synthesis.tokens[n - 1]);
      assert events[n - 1] == Token(synthesis.tokens[n - 1]);
      hide Events;
      assert [metadata] + events[..n] == ([metadata] + events[..n - 1]) + [events[n - 1]];
      OnScreenSnoc([metadata] + events[..n - 1], events[n - 1]);
      assert synthesis.tokens[..n][..n - 1] == synthesis.tokens[..n - 1];
    }
  }

  lemma AnswerShows(session: Option<string>, history: nat, state: State, synthesis: Synthesis)
    ensures OnScreen(Frames.Objects(AnswerFrames(session, history, state, synthesis)))
      == ScreenOf(Ok(state), synthesis)
  {
    var n := |synthesis.tokens|;
    var metadata, events := Metadata(session, state, history), Events(synthesis);
    TokensShow(session, history, state, synthesis, n);
    assert synthesis.tokens[..n] == synthesis.tokens;
    ClosingShows(state, synthesis);
    ShowFrames(ScreenOf(Ok(state), synthesis), session, history, state, "");
    hide Show, Metadata, Events, OnScreen, ScreenOf;
    var front := [metadata] + events[..n];
    OnScreenSnoc(front, events[n]);
    OnScreenSnoc(front + [events[n]], DONE);
    assert AnswerFrames(session, history, state, synthesis) == front + [events[n]] + [DONE];
  }

  lemma ClosingShows(state: State, synthesis: Synthesis)
    ensures Show(Frames.Concat(synthesis.tokens), Dict(Events(synthesis)[|synthesis.tokens|]))
      == ScreenOf(Ok(state), synthesis)
  {
    var text := Frames.Concat(synthesis.tokens);
    ShowFrames(text, None, 0, state, if synthesis.Broken? then synthesis.message else text);
    hide Show;
  }

  lemma FailureShows(session: Option<string>, history: nat, agent: Attempt<State, string>, synthesis: Synthesis)
    requires agent.Raised?
    ensures OnScreen(Frames.Objects(FramesOf(session, history, agent, synthesis))) == ScreenOf(agent, synthesis)
  {
    var error := ErrorFrame("agent failed: " + agent.error);
    var state := State(Null, Null, Null, Null, []);
    ShowFrames("", session, history, state, "agent failed: " + agent.error);
    ShowFrames(ScreenOf(agent, synthesis), session, history, state, "");
    assert OnScreen([]) == "";
    assert FramesOf(session, history, agent, synthesis) == [error, DONE];
    hide Show, OnScreen, ErrorFrame, FramesOf, AnswerFrames;
    OnScreenSnoc([], error);
    OnScreenSnoc([error], DONE);
    assert Frames.Objects([]) == [] && [] + [error] == [error] && [error] + [DONE] == [error, DONE];
  }

  /**
   * End to end. The frames of an answer are printed, cut anywhere by the network, parsed
   * and shown: a complete answer is shown as its tokens, a broken one and a failed agent
   * as their error, whatever was on screen before.
   */
  lemma ScreenShowsTheAnswer(
    session: Option<string>, history: nat, agent: Attempt<State, string>, synthesis: Synthesis,
    pieces: seq<string>)
    requires Frames.Concat(pieces) == Frames.Printed(FramesOf(session, history, agent, synthesis))
    ensures OnScreen(Frames.Delivered(Frames.Front(Frames.Split(Frames.Concat(pieces))), JsonReader.Parse))
      == ScreenOf(agent, synthesis)
  {
    hide Frames.Printed, Frames.Split, Frames.Delivered, JsonReader.Parse, Events, OnScreen, Metadata, ScreenOf;
    Frames.RoundTrip(FramesOf(session, history, agent, synthesis), pieces);
    if agent.Ok? {
      AnswerShows(session, history, agent.value, synthesis);
    } else {
      FailureShows(session, history, agent, synthesis);
    }
  }

  /** The assistant turn that the session keeps, if any: what a reload of the page shows. */
  function KeptAnswer(turns: seq<Turn>): Option<string> {
    if turns == [] then None
    else if turns[0].role == "assistant" then Some(turns[0].content)
    else KeptAnswer(turns[1..])
  }

  /**
   * Screen and memory, exactly. A turn is kept when a session got some text. It says what
   * the screen says if and only if the answer was complete (or broke off with a text that
   * happens to be its own error message); a broken answer is on screen as its error and in
   * the memory as its text. Nothing kept, the screen is empty or holds an error.
   */
  lemma ScreenAndMemoryExactly(
    question: string, session: Option<string>, agent: Attempt<State, string>, synthesis: Synthesis)
    requires HasSession(session)
    ensures var kept := KeptAnswer(TurnsOf(question, session, agent, synthesis));
      var text, screen := Frames.Concat(synthesis.tokens), ScreenOf(agent, synthesis);
      && kept == (if agent.Ok? && text != "" then Some(text) else None)
      && (kept.Some? ==>
            (screen == kept.value <==> synthesis.Complete? || text == "Error: " + synthesis.message))
      && (kept.None? ==> screen == "" || "Error: " <= screen)
  {
    var turns := TurnsOf(question, session, agent, synthesis);
    assert turns[0].role == "user";
    if |turns| == 2 {
      assert turns[1..][0].role == "assistant";
    } else {
      assert KeptAnswer(turns[1..]) == None;
    }
  }

  /**
   * The memory is meant to hold complete answers only. It does exactly when nothing was
   * broken off after some text: a broken answer is kept like a complete one.
   */
  lemma OnlyCompleteAnswersAreKept(
    question: string, session: Option<string>, agent: Attempt<State, string>, synthesis: Synthesis)
    ensures var kept := exists t :: t in TurnsOf(question, session, agent, synthesis) && t.role == "assistant";
      (kept ==> agent.Ok? && synthesis.Complete?) <==>
        !(HasSession(session) && agent.Ok? && synthesis.Broken? && Frames.Concat(synthesis.tokens) != "")
    ensures synthesis.Broken? ==>
      && TurnsOf(question, session, agent, synthesis)
        == TurnsOf(question, session, agent, Complete(synthesis.tokens))
      && Events(synthesis) != Events(Complete(synthesis.tokens))
  {
    var turns := TurnsOf(question, session, agent, synthesis);
    if |turns| == 2 {
      assert turns[1] in turns;
    }
    if synthesis.Broken? {
      var n := |synthesis.tokens|;
      assert Events(synthesis)[n] != Events(Complete(synthesis.tokens))[n];
    }
  }
}
