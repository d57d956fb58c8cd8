/**
 * The chat page: a message log that a send extends by the trimmed user
 * message and, once the request settles, by exactly one bot message.
 */
module Chat {
  import opened Optional
  import opened Json
  import opened Http
  import Text

  datatype Sender = User | Bot

  /** A log entry; a bot reply is whatever JSON value the reply field held. The React key is not modelled. */
  datatype Message = Message(text: Value, sender: Sender)

  /** The reply fields, in the order `data.response || data.message || ...` tries them. */
  const ReplyFields: seq<string> := ["response", "message", "reply", "text", "answer"]

  const EmptyReply: string := "Sorry, I received an empty response."

  function ReplyCandidates(data: Value): seq<Value> {
    seq(|ReplyFields|, i requires 0 <= i < |ReplyFields| => Get(data, ReplyFields[i]))
  }

  /** The reply shown for a successful body: never empty, because the chain ends in a fixed apology. */
  function ReplyText(data: Value): (r: Value)
    ensures Truthy(r)
  {
    OrChainTruthy(ReplyCandidates(data), Str(EmptyReply));
    OrChain(ReplyCandidates(data), Str(EmptyReply))
  }

  /** The reply is the first truthy reply field, and the apology when none is truthy. */
  lemma {:induction false} ReplyPicksFirstTruthyField(data: Value, k: nat)
    requires k <= |ReplyFields|
    requires forall i :: 0 <= i < k ==> !Truthy(Get(data, ReplyFields[i]))
    ensures k < |ReplyFields| && Truthy(Get(data, ReplyFields[k])) ==> ReplyText(data) == Get(data, ReplyFields[k])
    ensures k == |ReplyFields| ==> ReplyText(data) == Str(EmptyReply)
  {
    if k < |ReplyFields| && Truthy(Get(data, ReplyFields[k])) {
      OrChainPicksFirstTruthy(ReplyCandidates(data), Str(EmptyReply), k);
    }
    if k == |ReplyFields| {
      OrChainFallsThrough(ReplyCandidates(data), Str(EmptyReply));
    }
  }

  /** `data.response` on a `null` (or `undefined`) body throws a TypeError; this is V8's message for it. */
  function NullReadMessage(data: Value): string {
    "Cannot read properties of " + (if data == Null then "null" else "undefined") + " (reading 'response')"
  }

  /** The text of the one bot message a settled request adds. */
  function BotText(outcome: Outcome): (r: Value)
    ensures Truthy(r)
  {
    match outcome
    case Ok(data) =>
      if data == Null || data == Undefined then Str("Error: " + NullReadMessage(data)) else ReplyText(data)
    case NotOk(status, detail, text) =>
      Str("Error: " + Text.StatusLine("Server error: ", status, ErrorReason(detail, text)))
    case Thrown(_, message) => Str("Error: " + message)
  }

  /** The error shown for a non-ok response names the status and the reason, and both can be read back from it. */
  lemma {:induction false} ServerErrorReadsBack(status: nat, detail: Option<string>, text: string)
    ensures BotText(NotOk(status, detail, text)).Str?
    ensures Text.StartsWith(BotText(NotOk(status, detail, text)).s, "Error: ")
    ensures Text.ParseStatusLine("Server error: ", BotText(NotOk(status, detail, text)).s[7..]) ==
            Some((status, ErrorReason(detail, text)))
  {
    var line := Text.StatusLine("Server error: ", status, ErrorReason(detail, text));
    assert ("Error: " + line)[7..] == line;
    Text.ParseStatusLineRoundTrip("Server error: ", status, ErrorReason(detail, text));
  }

  /** User and bot messages alternate, starting with the user's. */
  ghost predicate Alternates(ms: seq<Message>) {
    forall i :: 0 <= i < |ms| ==> ms[i].sender == (if i % 2 == 0 then User else Bot)
  }

  class ChatPage {
    var messages: seq<Message>
    var input: string
    var loading: bool

    /** Every send that completed added a user and a bot message; one in flight has added only its user message. */
    ghost predicate Valid()
      reads this
    {
      Alternates(messages) && |messages| % 2 == (if loading then 1 else 0)
    }

    constructor ()
      ensures Valid()
      ensures messages == [] && input == "" && !loading
    {
      messages := [];
      input := "";
      loading := false;
    }

    /** The input's change handler. */
    method EditInput(s: string)
      requires Valid()
      modifies this`input
      ensures Valid()
      ensures input == s
    {
      input := s;
    }

    /**
     * `handleSend` up to the `await`: refused while the trimmed input is empty
     * or a send is in flight; otherwise logs the user message and returns the
     * query sent to the server.
     */
    method Submit() returns (accepted: bool, query: string)
      requires Valid()
      modifies this
      ensures Valid()
      ensures accepted <==> Text.Trim(old(input)) != "" && !old(loading)
      ensures !accepted ==> messages == old(messages) && input == old(input) && loading == old(loading)
      ensures accepted ==>
                query == Text.Trim(old(input)) &&
                messages == old(messages) + [Message(Str(query), User)] &&
                input == "" && loading
    {
      query := "";
      if Text.Trim(input) == "" || loading {
        return false, query;
      }
      query := Text.Trim(input);
      messages := messages + [Message(Str(query), User)];
      input := "";
      loading := true;
      accepted := true;
    }

    /** `handleSend` after the request settled with `outcome`. */
    method Receive(outcome: Outcome)
      requires Valid() && loading
      modifies this
      ensures Valid()
      ensures messages == old(messages) + [Message(BotText(outcome), Bot)]
      ensures input == old(input) && !loading
    {
      messages := messages + [Message(BotText(outcome), Bot)];
      loading := false;
    }

    /** One whole send whose request settles with `outcome`. */
    method Send(outcome: Outcome) returns (accepted: bool)
      requires Valid()
      modifies this
      ensures Valid()
      ensures accepted <==> Text.Trim(old(input)) != "" && !old(loading)
      ensures !accepted ==> messages == old(messages) && input == old(input) && loading == old(loading)
      ensures accepted ==>
                messages == old(messages) + [Message(Str(Text.Trim(old(input))), User), Message(BotText(outcome), Bot)] &&
                input == "" && !loading
    {
      var query;
      accepted, query := Submit();
      if accepted {
        Receive(outcome);
      }
    }
  }
}
