/**
 * The chat session kept in the application's session state: whether the history has
 * been created yet, and the history itself. One turn of `main` seeds the history with
 * the greeting on first use and, when the user submits a message, appends that message
 * and then exactly one bot reply generated from a prompt built over the whole
 * transcript and the uploaded documents. `generate_response` answers from the canned
 * table instead and may reset the history.
 */
module Session {
  import opened Wrappers
  import opened Text
  import opened Tables
  import opened Documents
  import opened Prompt
  import opened Generation
  import opened Canned

  /** What a turn depends on beyond the session: whether an API key is configured, the
      generation service, the format readers and the table renderer. */
  datatype Environment = Environment(apiKeyPresent: bool, service: Service, readers: Readers, render: Renderer)

  /** The bot's first message. */
  const Greeting: string := "Hi there! I'm EDUBOT, your guide to overseas education. Let's start exploring your options."

  /** The message the history is reset to by `clear`. */
  const ClearMessage: string := "Alright, let's start over!"

  /** A created history is never empty: it starts with the greeting, and the clearing
      reset leaves one message. */
  predicate Consistent(started: bool, history: seq<Message>)
  {
    started ==> history != []
  }

  /** The history at the start of a turn, after seeding it on first use. */
  function Seeded(started: bool, history: seq<Message>): seq<Message>
  {
    if started then history else [Message(Bot, Greeting)]
  }

  /** The documents' combined content and tables; nothing is read without uploads. */
  function TurnDocuments(files: seq<UploadedFile>, env: Environment): Combined
  {
    if files == [] then Combined("", "") else Combine(files, env.readers, env.render)
  }

  /** The prompt of a turn: `history` already ends with the user's message, and `docs`
      are the uploaded documents' content and tables. */
  function TurnPrompt(history: seq<Message>, userMessage: string, docs: Combined): string
  {
    BuildPrompt(userMessage, Transcript(history), docs.content, docs.tables)
  }

  /** The bot's reply in a turn that starts from `seeded`. */
  function TurnReply(seeded: seq<Message>, userMessage: string, files: seq<UploadedFile>, env: Environment): string
  {
    var history := seeded + [Message(User, userMessage)];
    Generate(TurnPrompt(history, userMessage, TurnDocuments(files, env)), env.apiKeyPresent, env.service).reply
  }

  /** The history after a turn that starts from `seeded`. */
  function NextHistory(seeded: seq<Message>, userMessage: string, files: seq<UploadedFile>, env: Environment): seq<Message>
  {
    if userMessage == "" then seeded
    else seeded + [Message(User, userMessage), Message(Bot, TurnReply(seeded, userMessage, files, env))]
  }

  class ChatSession {
    /** Whether the history exists in the session state yet. */
    var started: bool
    /** The chat history, oldest message first. */
    var history: seq<Message>

    /** A created history is never empty. */
    ghost predicate Valid()
      reads this
    {
      Consistent(started, history)
    }

    /** A fresh session, before the first turn. */
    constructor()
      ensures Valid() && !started && history == []
    {
      started := false;
      history := [];
    }

    /** One run of `main` with the message submitted in the chat input (`""` when none
        was) and the files uploaded so far. */
    method HandleInput(userMessage: string, files: seq<UploadedFile>, env: Environment)
      requires Valid()
      modifies this
      ensures Valid() && started
      ensures history == NextHistory(Seeded(old(started), old(history)), userMessage, files, env)
    {
      if !started {
        history := [Message(Bot, Greeting)];
        started := true;
      }
      ghost var seeded := history;
      if userMessage != "" {
        history := history + [Message(User, userMessage)];
        var content, tables := "", "";
        if files != [] {
          content, tables := ProcessDocuments(files, env.readers, env.render);
        }
        assert Combined(content, tables) == TurnDocuments(files, env);
        var prompt := BuildPrompt(userMessage, Transcript(history), content, tables);
        assert prompt == TurnPrompt(history, userMessage, TurnDocuments(files, env));
        var botResponse, _, _ := GenerateResponse(prompt, env.apiKeyPresent, env.service);
        assert botResponse == TurnReply(seeded, userMessage, files, env);
        history := history + [Message(Bot, botResponse)];
        assert history == seeded + [Message(User, userMessage), Message(Bot, botResponse)];
      }
    }

    /** `generate_response`: the canned reply; on `clear`, when the history exists, it
        is reset to the single clearing message and a rerun of the script is requested. */
    method Respond(userMessage: string) returns (reply: string, rerun: bool)
      requires Valid()
      modifies this
      ensures Valid() && started == old(started)
      ensures reply == CannedReply(userMessage)
      ensures rerun <==> old(started) && MatchIndex(userMessage) == Some(ClearIndex)
      ensures history == if rerun then [Message(Bot, ClearMessage)] else old(history)
    {
      var lowered := Lower(userMessage);
      rerun := false;
      for i := 0 to |Responses|
        invariant FirstMatchFrom(lowered, i) == MatchIndex(userMessage)
        invariant history == old(history)
      {
        var entry := Responses[i];
        if Contains(lowered, entry.key) {
          ClearKeyAt(i);
          if entry.key == ClearKey {
            if started {
              history := [Message(Bot, ClearMessage)];
              rerun := true;
            }
          }
          reply := entry.reply;
          return;
        }
      }
      reply := DefaultReply;
    }
  }

  /** A turn with a message keeps the earlier history as it was and adds exactly the
      user's message and then one bot message. */
  lemma TurnAppendsTwo(seeded: seq<Message>, userMessage: string, files: seq<UploadedFile>, env: Environment)
    requires userMessage != ""
    ensures var next := NextHistory(seeded, userMessage, files, env);
      |next| == |seeded| + 2 && next[..|seeded|] == seeded
      && next[|seeded|] == Message(User, userMessage) && next[|seeded| + 1].role == Bot
  {
  }

  /** The transcript of a turn is the transcript of the history before it, a newline,
      and the user's new message as its last line. */
  lemma TurnTranscript(seeded: seq<Message>, userMessage: string)
    requires seeded != []
    ensures Transcript(seeded + [Message(User, userMessage)]) == Transcript(seeded) + "\n" + "user: " + userMessage
  {
    TranscriptAppend(seeded, Message(User, userMessage));
    assert Line(Message(User, userMessage)) == "user: " + userMessage;
  }

  /** In every session state a turn can start from, the transcript it sends ends with
      the user's new message as its own last line, after the earlier history. */
  lemma SessionTurnTranscript(started: bool, history: seq<Message>, userMessage: string)
    requires Consistent(started, history)
    ensures var seeded := Seeded(started, history);
      seeded != [] &&
      Transcript(seeded + [Message(User, userMessage)]) == Transcript(seeded) + "\n" + "user: " + userMessage
  {
    TurnTranscript(Seeded(started, history), userMessage);
  }

  /** The prompt of a turn holds the transcript of the history including the user's new
      message, then the documents' content, then their tables, in that order. */
  lemma TurnPromptContext(history: seq<Message>, userMessage: string, docs: Combined)
    ensures var p := TurnPrompt(history, userMessage, docs);
      var t := Transcript(history);
      var o2 := |Preamble| + |t| + |ContentIntro|;
      var o3 := o2 + |docs.content| + |TablesIntro|;
      && o3 + |docs.tables| <= |p|
      && p[|Preamble|..|Preamble| + |t|] == t
      && p[o2..o2 + |docs.content|] == docs.content
      && p[o3..o3 + |docs.tables|] == docs.tables
  {
    ContextAt(Transcript(history), userMessage, docs);
  }

  /** `PromptHoldsContext` for a transcript given as a value. */
  lemma ContextAt(t: string, userMessage: string, docs: Combined)
    ensures var p := BuildPrompt(userMessage, t, docs.content, docs.tables);
      var o2 := |Preamble| + |t| + |ContentIntro|;
      var o3 := o2 + |docs.content| + |TablesIntro|;
      && o3 + |docs.tables| <= |p|
      && p[|Preamble|..|Preamble| + |t|] == t
      && p[o2..o2 + |docs.content|] == docs.content
      && p[o3..o3 + |docs.tables|] == docs.tables
  {
    PromptLength(userMessage, t, docs.content, docs.tables);
    PromptHoldsContext(userMessage, t, docs.content, docs.tables);
  }

  /** The prompt of a turn ends with the directives and then the user's message. */
  lemma TurnPromptQuery(history: seq<Message>, userMessage: string, docs: Combined)
    ensures var p := TurnPrompt(history, userMessage, docs);
      var o3 := |Preamble| + |Transcript(history)| + |ContentIntro| + |docs.content| + |TablesIntro| + |docs.tables|;
      var o4 := o3 + |Instructions|;
      && o4 + |userMessage| <= |p|
      && p[o3..o4] == Instructions
      && p[o4..o4 + |userMessage|] == userMessage
  {
    var t := Transcript(history);
    PromptLength(userMessage, t, docs.content, docs.tables);
    PromptEndsWithQuery(userMessage, t, docs.content, docs.tables);
  }

  /** Skipping the document pipeline when nothing is uploaded changes nothing: the
      pipeline over no files yields empty content and no tables. */
  lemma UploadGuardRedundant(files: seq<UploadedFile>, env: Environment)
    ensures TurnDocuments(files, env) == Combine(files, env.readers, env.render)
  {
  }
}
