/** The chat session of the advisor screen (`src/pages/Advisor.jsx`): an
    append-only message list, the text being typed, the selected language
    and a typing indicator. A send runs as one sequential step: the clock
    readings for the two message ids and the chat call's outcome are
    parameters. */
module Advisor {
  import opened Wrappers
  import opened Text
  import Groq

  datatype Sender = User | Ai

  /** A chat turn; only the greeting carries a language code. */
  datatype Message = Message(id: int, text: string, sender: Sender, lang: Option<string>)

  datatype Language = Language(code: string, name: string)

  const Languages: seq<Language> := [
    Language("en", "English"),
    Language("pcm", "Pidgin"),
    Language("yo", "Yoruba"),
    Language("ha", "Hausa"),
    Language("ig", "Igbo")
  ]

  const Greeting: string := "Hello! I am your Insurance Sense Advisor. You fit upload your policy paper or ask me any question about insurance across Africa. How I fit help you today?"

  datatype Session = Session(messages: seq<Message>, input: string, selectedLang: Language, isTyping: bool)

  /** The session the screen mounts with: the greeting alone, an empty input,
      Pidgin selected, nobody typing. */
  const InitialSession: Session := Session([Message(1, Greeting, Ai, Some("pcm"))], "", Languages[1], false)

  lemma InitialSessionShape()
    ensures |InitialSession.messages| == 1 && InitialSession.messages[0].sender == Ai
    ensures InitialSession.selectedLang.name == "Pidgin" && InitialSession.selectedLang.code == "pcm"
    ensures InitialSession.input == [] && !InitialSession.isTyping
  {
  }

  /** Choosing a language button: only the selection changes. */
  function SelectLanguage(s: Session, lang: Language): (r: Session)
    ensures r.selectedLang == lang
    ensures r.messages == s.messages && r.input == s.input && r.isTyping == s.isTyping
  {
    s.(selectedLang := lang)
  }

  /** The session while the answer is awaited, and the chat request sent. */
  datatype Pending = Pending(session: Session, request: Groq.ChatRequest)

  /** The first half of `handleSend`: whitespace-only input is refused;
      otherwise the input is appended verbatim as a user turn, the input box
      is cleared, the typing indicator is raised, and the original input is
      sent with the selected language's name. */
  function StartSend(s: Session, now: int): (r: Option<Pending>)
    ensures r.None? <==> AllSpace(s.input)
    ensures r.Some? ==>
      && r.value.session.messages == s.messages + [Message(now, s.input, User, None)]
      && r.value.session.input == []
      && r.value.session.isTyping
      && r.value.session.selectedLang == s.selectedLang
      && r.value.request == Groq.ChatRequest(s.input, s.selectedLang.name)
  {
    if AllSpace(s.input) then None
    else
      var user := Message(now, s.input, User, None);
      Some(Pending(Session(s.messages + [user], [], s.selectedLang, true), Groq.ChatRequest(s.input, s.selectedLang.name)))
  }

  /** The guard is `!input.trim()`: trimming leaves nothing exactly when the
      input is whitespace only. */
  lemma StartSendGuardIsTrim(s: Session, now: int)
    ensures StartSend(s, now).None? <==> Trim(s.input) == []
  {
    TrimEmptyIffAllSpace(s.input);
  }

  /** The second half: the answer (or a fallback text) is appended as an
      assistant turn and the typing indicator drops. */
  function FinishSend(s: Session, later: int, reply: Groq.Reply): (r: Session)
    ensures r.messages == s.messages + [Message(later + 1, Groq.ChatAnswer(reply), Ai, None)]
    ensures !r.isTyping
    ensures r.input == s.input && r.selectedLang == s.selectedLang
  {
    s.(messages := s.messages + [Message(later + 1, Groq.ChatAnswer(reply), Ai, None)], isTyping := false)
  }

  /** `handleSend` as one step: a refused input leaves the session as it
      was; otherwise exactly two turns are appended, the user's verbatim text
      and then the chat's answer (never empty), the input is cleared and the
      indicator is down again. */
  function Send(s: Session, now: int, later: int, reply: Groq.Reply): (r: Session)
    ensures AllSpace(s.input) ==> r == s
    ensures !AllSpace(s.input) ==>
      && |r.messages| == |s.messages| + 2
      && r.messages[..|s.messages|] == s.messages
      && r.messages[|s.messages|] == Message(now, s.input, User, None)
      && r.messages[|s.messages| + 1] == Message(later + 1, Groq.ChatAnswer(reply), Ai, None)
      && r.messages[|s.messages| + 1].text != []
      && r.input == [] && !r.isTyping && r.selectedLang == s.selectedLang
  {
    match StartSend(s, now)
    case None => s
    case Some(p) => FinishSend(p.session, later, reply)
  }

  /** One send keeps every earlier turn and adds two when the input is
      accepted, none otherwise. */
  lemma SendAppends(s: Session, now: int, later: int, reply: Groq.Reply)
    ensures var r := Send(s, now, later, reply);
      && |r.messages| == |s.messages| + (if AllSpace(s.input) then 0 else 2)
      && r.messages[..|s.messages|] == s.messages
  {
  }

  /** One send of a run: what was typed, the two clock readings and the
      outcome of the chat call. */
  datatype SendStep = SendStep(input: string, now: int, later: int, reply: Groq.Reply)

  /** Typing each step's input in turn and sending it. */
  function SendAll(s: Session, steps: seq<SendStep>): Session
    decreases |steps|
  {
    if steps == [] then s
    else
      var st := steps[0];
      SendAll(Send(s.(input := st.input), st.now, st.later, st.reply), steps[1..])
  }

  /** How many steps of a run type something other than whitespace. */
  function Accepted(steps: seq<SendStep>): (n: nat)
    ensures n <= |steps|
    decreases |steps|
  {
    if steps == [] then 0
    else (if AllSpace(steps[0].input) then 0 else 1) + Accepted(steps[1..])
  }

  /** A run of sends only ever adds to the history: earlier turns are never
      rewritten, each accepted send adds exactly two turns and a refused one
      adds none, whatever the clock readings and chat outcomes. */
  lemma {:induction false} HistoryIsAppendOnly(s: Session, steps: seq<SendStep>)
    ensures var r := SendAll(s, steps);
      && |r.messages| == |s.messages| + 2 * Accepted(steps)
      && r.messages[..|s.messages|] == s.messages
    decreases |steps|
  {
    if steps != [] {
      var st := steps[0];
      var next := Send(s.(input := st.input), st.now, st.later, st.reply);
      SendAppends(s.(input := st.input), st.now, st.later, st.reply);
      HistoryIsAppendOnly(next, steps[1..]);
      var r := SendAll(next, steps[1..]);
      assert r == SendAll(s, steps);
      PrefixOfPrefix(r.messages, next.messages, s.messages);
    }
  }

  /** Sending "What is covered?" with Pidgin selected adds the user turn and
      one assistant turn and leaves the indicator down. */
  lemma PidginQuestionScenario(now: int, later: int, reply: Groq.Reply)
    ensures var s := InitialSession.(input := "What is covered?");
      var r := Send(s, now, later, reply);
      && |r.messages| == 3
      && r.messages[1].text == "What is covered?" && r.messages[1].sender == User
      && r.messages[2].sender == Ai
      && !r.isTyping
      && StartSend(s, now).value.request == Groq.ChatRequest("What is covered?", "Pidgin")
  {
    var s := InitialSession.(input := "What is covered?");
    assert !IsSpace(s.input[0]);
  }
}
