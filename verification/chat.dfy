/** The `ChatModal` dialog: the message list, the draft, sending with the
    button or the Enter key, and the recipient's canned reply. Ids,
    timestamps and the reply picked at random are parameters; the
    two-second delay before the reply is not modelled. */
module Chat {

  import opened Common
  import Text
  import Auth

  datatype Kind = TextMessage | SystemMessage

  datatype Message = Message(id: string, senderId: string, senderName: string, content: string, timestamp: string, kind: Kind)

  datatype Conversation = Conversation(messages: seq<Message>, draft: string)

  const SystemSender: string := "system"
  const OtherSender: string := "other"

  /** The six canned replies. */
  const Responses: seq<string> := [
    "Hi! Thanks for reaching out. " + "I'd be happy to help you learn!",
    "That sounds great! " + "When would be a good time for our session?",
    "I'm available most evenings. " + "What timezone are you in?",
    "Perfect! " + "I'll send you some resources to prepare.",
    "Looking forward to our session! " + "Feel free to ask any questions.",
    "That's a great question! " + "We can definitely cover that in our session."
  ]

  const GreetingStart: string := "You are now connected with "
  const GreetingEnd: string := ". Start the conversation!"

  /** The dialog as it opens: one system greeting naming the recipient and
      an empty draft. */
  function Opened(recipientName: string, timestamp: string): (c: Conversation)
    ensures |c.messages| == 1 && c.draft == ""
    ensures c.messages[0].kind == SystemMessage && c.messages[0].senderId == SystemSender
    ensures var t := c.messages[0].content;
            && GreetingStart <= t && |t| == |GreetingStart| + |recipientName| + |GreetingEnd|
            && t[|GreetingStart|..|GreetingStart| + |recipientName|] == recipientName
  {
    Conversation([Message("1", SystemSender, "System", GreetingStart + recipientName + GreetingEnd,
                          timestamp, SystemMessage)], "")
  }

  /** The send button is enabled when the draft has something besides white
      space. */
  predicate CanSend(draft: string)
  {
    Text.Trim(draft) != ""
  }

  /** `handleSendMessage`: with a signed-in user and a draft that is not
      blank, the trimmed draft is appended as the user's text message and
      the draft is cleared; otherwise nothing changes. */
  function Send(c: Conversation, user: Option<Auth.User>, id: string, timestamp: string): (r: Conversation)
    ensures !CanSend(c.draft) || user.None? ==> r == c
    ensures CanSend(c.draft) && user.Some? ==>
              && r.draft == ""
              && r.messages == c.messages + [Message(id, user.value.id, user.value.name, Text.Trim(c.draft), timestamp, TextMessage)]
  {
    if !CanSend(c.draft) || user.None? then c
    else
      var m := Message(id, user.value.id, user.value.name, Text.Trim(c.draft), timestamp, TextMessage);
      Conversation(c.messages + [m], "")
  }

  /** A second press right after sending does nothing: the draft is empty. */
  lemma SendTwice(c: Conversation, user: Option<Auth.User>, id: string, id2: string, timestamp: string, timestamp2: string)
    ensures Send(Send(c, user, id, timestamp), user, id2, timestamp2) == Send(c, user, id, timestamp)
  {
    var once := Send(c, user, id, timestamp);
    if CanSend(c.draft) && user.Some? {
      Text.TrimBlank(once.draft);
    }
  }

  /** `handleKeyPress`: Enter without Shift sends; any other key leaves the
      conversation to the input's own editing. */
  function KeyPress(c: Conversation, key: string, shift: bool, user: Option<Auth.User>, id: string, timestamp: string): (r: Conversation)
    ensures key == "Enter" && !shift ==> r == Send(c, user, id, timestamp)
    ensures key != "Enter" || shift ==> r == c
  {
    if key == "Enter" && !shift then Send(c, user, id, timestamp) else c
  }

  /** The simulated answer: one of the canned replies, from the recipient. */
  function Reply(c: Conversation, recipientName: string, pick: nat, id: string, timestamp: string): (r: Conversation)
    requires pick < |Responses|
    ensures r.draft == c.draft
    ensures |r.messages| == |c.messages| + 1 && r.messages[..|c.messages|] == c.messages
    ensures var m := r.messages[|c.messages|];
            m.senderId == OtherSender && m.senderName == recipientName && m.kind == TextMessage && m.content in Responses
  {
    c.(messages := c.messages + [Message(id, OtherSender, recipientName, Responses[pick], timestamp, TextMessage)])
  }

  /** No shown text message is blank or padded with white space. */
  predicate Clean(messages: seq<Message>)
  {
    forall i :: 0 <= i < |messages| && messages[i].kind == TextMessage ==>
      messages[i].content != "" && Text.Trim(messages[i].content) == messages[i].content
  }

  /** Sending keeps every text message clean. */
  lemma SendKeepsClean(c: Conversation, user: Option<Auth.User>, id: string, timestamp: string)
    requires Clean(c.messages)
    ensures Clean(Send(c, user, id, timestamp).messages)
  {
    if CanSend(c.draft) && user.Some? {
      var t := Text.Trim(c.draft);
      Text.TrimIdentity(t);
    }
  }

  /** The canned replies are clean too, so a reply keeps the list clean. */
  lemma ReplyKeepsClean(c: Conversation, recipientName: string, pick: nat, id: string, timestamp: string)
    requires pick < |Responses|
    requires Clean(c.messages)
    ensures Clean(Reply(c, recipientName, pick, id, timestamp).messages)
  {
    var t := Responses[pick];
    assert t != "" && !Text.IsSpace(t[0]) && !Text.IsSpace(t[|t| - 1]) by {
      assert t[0] in "HTIPL";
      assert t[|t| - 1] in "!?.";
    }
    Text.TrimIdentity(t);
  }

  /** The greeting is a system message, so a fresh dialog is clean. */
  lemma OpenedClean(recipientName: string, timestamp: string)
    ensures Clean(Opened(recipientName, timestamp).messages)
  {
  }
}
