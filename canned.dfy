/**
 * The canned replies of `generate_response`: the message is lower-cased, and the reply
 * is that of the first key, in table order, that occurs in it; when no key occurs, a
 * fixed default reply.
 */
module Canned {
  import opened Wrappers
  import opened Text

  /** One row of the predefined-response table. */
  datatype Entry = Entry(key: string, reply: string)

  /** The predefined responses, in the table's (insertion) order. */
  const Responses: seq<Entry> := [
    Entry("hello", "Hello! How can I help you with your overseas education journey today?"),
    Entry("how are you", "I am doing great. How are you today?"),
    Entry("goodbye", "Goodbye! Feel free to come back if you have any more questions"),
    Entry("country", "Sure, what country are you interested in studying in?"),
    Entry("program", "Sure, what program are you looking into?"),
    Entry("clear", "Alright, let's start over!")
  ]

  /** The position of the `clear` key, the one that also resets the history. */
  const ClearIndex: nat := 5
  const ClearKey: string := "clear"

  /** The reply when no key occurs in the message. */
  const DefaultReply: string :=
    "I'm here to assist with your overseas education journey. Please provide more details or ask a specific question."

  /** The first position at or after `i` whose key occurs in `message`. */
  function FirstMatchFrom(message: string, i: nat): (k: Option<nat>)
    requires i <= |Responses|
    ensures k.Some? ==> i <= k.value < |Responses| && Contains(message, Responses[k.value].key)
    ensures k.Some? ==> forall j :: i <= j < k.value ==> !Contains(message, Responses[j].key)
    ensures k.None? ==> forall j :: i <= j < |Responses| ==> !Contains(message, Responses[j].key)
    decreases |Responses| - i
  {
    if i == |Responses| then None
    else if Contains(message, Responses[i].key) then Some(i)
    else FirstMatchFrom(message, i + 1)
  }

  /** The position of the key that answers `message`, if any. */
  function MatchIndex(message: string): Option<nat>
  {
    FirstMatchFrom(Lower(message), 0)
  }

  /** What `generate_response` answers: the reply of the first key occurring in the
      lower-cased message, else the default. */
  function CannedReply(message: string): (r: string)
    ensures (forall j :: 0 <= j < |Responses| ==> !Contains(Lower(message), Responses[j].key)) ==> r == DefaultReply
    ensures forall k :: 0 <= k < |Responses| && Contains(Lower(message), Responses[k].key)
                        && (forall j :: 0 <= j < k ==> !Contains(Lower(message), Responses[j].key))
                        ==> r == Responses[k].reply
  {
    match MatchIndex(message)
    case Some(k) => Responses[k].reply
    case None => DefaultReply
  }

  /** The reply does not depend on the message's (ASCII) letter case. */
  lemma CaseInsensitive(message: string)
    ensures CannedReply(Lower(message)) == CannedReply(message)
  {
    LowerIdempotent(message);
  }

  /** The `clear` key is the only one whose position is `ClearIndex`. */
  lemma ClearKeyAt(i: nat)
    requires i < |Responses|
    ensures Responses[i].key == ClearKey <==> i == ClearIndex
  {
    assert Responses[i].key == ClearKey ==> |Responses[i].key| == 5;
  }

  /** `goodbye`, in any letter case and anywhere in the message, answers with the
      goodbye reply, provided the two keys before it in the table do not occur. */
  lemma GoodbyeAnywhere(before: string, word: string, after: string)
    requires Lower(word) == "goodbye"
    requires !Contains(Lower(before + word + after), "hello")
    requires !Contains(Lower(before + word + after), "how are you")
    ensures CannedReply(before + word + after) == Responses[2].reply
  {
    var m := before + word + after;
    LowerAppend(before + word, after);
    LowerAppend(before, word);
    var lowered := Lower(before) + Lower(word) + Lower(after);
    assert Lower(m) == lowered;
    assert lowered[|before|..|before| + 7] == "goodbye";
    assert OccursAt(Lower(m), "goodbye", |before|);
    ContainsIffOccurs(Lower(m), "goodbye");
  }

  /** `clear` anywhere in the message, when none of the five keys before it occurs,
      selects the clearing entry. */
  lemma ClearSelected(message: string)
    requires Contains(Lower(message), ClearKey)
    requires forall j :: 0 <= j < ClearIndex ==> !Contains(Lower(message), Responses[j].key)
    ensures MatchIndex(message) == Some(ClearIndex)
    ensures CannedReply(message) == "Alright, let's start over!"
  {
  }
}
