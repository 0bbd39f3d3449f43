/**
 * The prompt sent to the generation service: a fixed template into which the
 * transcript, the document content, the detected tables and the user's message are
 * interpolated, in that order; and the transcript itself, one `role: message` line
 * per message of the chat history, oldest first.
 */
module Prompt {
  import opened Text

  /** Who wrote a chat message. */
  datatype Role = User | Bot

  /** One entry of the chat history. */
  datatype Message = Message(role: Role, text: string)

  /** The role as it is written in the transcript. */
  function RoleName(r: Role): string
  {
    match r
    case User => "user"
    case Bot => "bot"
  }

  /** The transcript line of one message. */
  function Line(m: Message): string
  {
    RoleName(m.role) + ": " + m.text
  }

  /** The transcript lines of a history, in order. */
  function Lines(history: seq<Message>): (lines: seq<string>)
  {
    seq(|history|, i requires 0 <= i < |history| => Line(history[i]))
  }

  /** The transcript: the lines of the history joined with newlines. */
  function Transcript(history: seq<Message>): string
  {
    Join("\n", Lines(history))
  }

  /** The transcript of two stretches of history is the first transcript, a newline,
      and the second: nothing is dropped or reordered. */
  lemma TranscriptConcat(a: seq<Message>, b: seq<Message>)
    requires a != [] && b != []
    ensures Transcript(a + b) == Transcript(a) + "\n" + Transcript(b)
  {
    assert Lines(a + b) == Lines(a) + Lines(b);
    JoinAppend("\n", Lines(a), Lines(b));
  }

  /** Appending a message appends its line after a newline. */
  lemma TranscriptAppend(history: seq<Message>, m: Message)
    requires history != []
    ensures Transcript(history + [m]) == Transcript(history) + "\n" + Line(m)
  {
    TranscriptConcat(history, [m]);
    assert Lines([m]) == [Line(m)];
  }

  /** When no message contains a line boundary, splitting the transcript into lines gives
      back exactly one line per message, in chronological order. */
  lemma TranscriptLinesRecoverable(history: seq<Message>)
    requires forall i :: 0 <= i < |history| ==> NoLineBreak(history[i].text)
    ensures SplitLines(Transcript(history)) == Lines(history)
  {
    var lines := Lines(history);
    forall k | 0 <= k < |lines| ensures NoLineBreak(lines[k]) {
      var m := history[k];
      assert NoLineBreak(RoleName(m.role) + ": ");
      assert lines[k] == (RoleName(m.role) + ": ") + m.text;
    }
    SplitLinesJoin(lines);
  }

  /** The persona the template opens with. */
  const Persona: string :=
    "\n     You are an expert in overseas education. Your role is to guide students by understanding their academic background, educational goals, and all the information in all the documents that they provide and recommending universities or programs that match their profile."

  /** The template between the persona and the transcript. */
  const TranscriptIntro: string :=
    "\n     Here is the transcript of previous conversation:\n     "

  /** The template up to the transcript. */
  const Preamble: string := Persona + TranscriptIntro

  /** The template between the transcript and the document content. */
  const ContentIntro: string :=
    "\n    Here is the information from all the documents provided by the user (if any) and some of them may be in the form of tables: "

  /** The template between the document content and the tables. */
  const TablesIntro: string :=
    "\n    Here are the extracted tables from the provided documents:"

  /** The four numbered directives. */
  const Directives: seq<string> := [
    "\n    1. **Provide Descriptive Responses**: Respond clearly and thoroughly to the user's queries, making sure you take all the documents into consideration and providing answers based on that.",
    "\n    2. **Answer Specific Questions**: Pay attention to the details from the tables from all the documents and respond appropriately to the user's question, if a question is related to the information in the table please provide the information in a well formatted way.",
    "\n    3. **Ask Specific Follow-up Questions**: If needed, ask relevant questions to gather further details such as preferred study level (Bachelor's, Master's, PhD), specific program interests, budget, or location preferences.",
    "\n    4. **Provide Recommendations**: If the user has provided enough information in the past messages and/or documents recommend universities or programs if possible"]

  /** The template between the tables and the user's message. */
  const Instructions: string :=
    "\n     Based on this information from all the documents, please:"
    + Directives[0] + Directives[1] + Directives[2] + Directives[3]
    + "\n    The current query from the user is: "

  /** The template after the user's message. */
  const Closing: string := "\n    "

  /** The enriched prompt of `generate_gemini_response`. */
  function BuildPrompt(userInput: string, transcript: string, content: string, tables: string): string
  {
    Preamble + transcript + ContentIntro + content + TablesIntro + tables + Instructions + userInput + Closing
  }

  /** A string is the prefix of its concatenation with another. */
  lemma PrefixOfConcat(x: string, y: string)
    ensures (x + y)[..|x|] == x
  {
  }

  /** Where each piece of a nine-piece concatenation lies. */
  lemma Interleaved(s0: string, x1: string, s1: string, x2: string, s2: string,
                    x3: string, s3: string, x4: string, s4: string)
    ensures var p := s0 + x1 + s1 + x2 + s2 + x3 + s3 + x4 + s4;
      var o1 := |s0|;
      var o2 := o1 + |x1| + |s1|;
      var o3 := o2 + |x2| + |s2|;
      var o4 := o3 + |x3| + |s3|;
      && |p| == o4 + |x4| + |s4|
      && p[..|s0|] == s0
      && p[o1..o1 + |x1|] == x1
      && p[o2..o2 + |x2|] == x2
      && p[o3..o3 + |x3|] == x3
      && p[o3 + |x3|..o4] == s3
      && p[o4..o4 + |x4|] == x4
  {
  }

  /** The prompt is the template with the four parts inserted: its length is the sum
      of theirs and the template's. */
  lemma PromptLength(userInput: string, transcript: string, content: string, tables: string)
    ensures |BuildPrompt(userInput, transcript, content, tables)|
         == |Preamble| + |transcript| + |ContentIntro| + |content| + |TablesIntro| + |tables|
          + |Instructions| + |userInput| + |Closing|
  {
  }

  /** The prompt opens with the persona. */
  lemma PromptOpensWithPersona(userInput: string, transcript: string, content: string, tables: string)
    ensures BuildPrompt(userInput, transcript, content, tables)[..|Persona|] == Persona
  {
    var p := BuildPrompt(userInput, transcript, content, tables);
    Interleaved(Preamble, transcript, ContentIntro, content, TablesIntro, tables, Instructions, userInput, Closing);
    PrefixOfConcat(Persona, TranscriptIntro);
    assert p[..|Persona|] == p[..|Preamble|][..|Persona|];
  }

  /** The transcript, the document content and the tables sit intact in the prompt, in
      that order, each after the template text that introduces it. */
  lemma PromptHoldsContext(userInput: string, transcript: string, content: string, tables: string)
    ensures var p := BuildPrompt(userInput, transcript, content, tables);
      var o1 := |Preamble|;
      var o2 := o1 + |transcript| + |ContentIntro|;
      var o3 := o2 + |content| + |TablesIntro|;
      && p[o1..o1 + |transcript|] == transcript
      && p[o2..o2 + |content|] == content
      && p[o3..o3 + |tables|] == tables
  {
    Interleaved(Preamble, transcript, ContentIntro, content, TablesIntro, tables, Instructions, userInput, Closing);
  }

  /** The four directives follow the tables, and the user's message follows them. */
  lemma PromptEndsWithQuery(userInput: string, transcript: string, content: string, tables: string)
    ensures var p := BuildPrompt(userInput, transcript, content, tables);
      var o3 := |Preamble| + |transcript| + |ContentIntro| + |content| + |TablesIntro| + |tables|;
      var o4 := o3 + |Instructions|;
      && p[o3..o4] == Instructions
      && p[o4..o4 + |userInput|] == userInput
  {
    Interleaved(Preamble, transcript, ContentIntro, content, TablesIntro, tables, Instructions, userInput, Closing);
  }
}
