/** The "Ask AI" dialog of a project page: a question box and the
    conversation so far. Submitting is split at its `await`: `Submit` is
    what happens before the server answers, `Complete` what happens when
    the answer (or the error) arrives. */
module AskAIDialog {
  import opened Wrappers
  import opened Text
  import opened Store
  import opened AiActions

  datatype Role = User | Assistant

  datatype Message = Message(role: Role, content: string)

  const NoResponse: string := "No response"
  const FailureToast: string := "Failed to get AI response"

  /** The text of the assistant's message: the answer, or "No response"
      when the model gave none or an empty one. */
  function ReplyText(answer: Option<string>): (text: string)
    ensures text != ""
    ensures answer.Some? && answer.value != "" ==> text == answer.value
    ensures answer.None? || answer.value == "" ==> text == NoResponse
  {
    if answer.Some? && answer.value != "" then answer.value else NoResponse
  }

  /** What every message of the conversation looks like: a user message is
      a trimmed, non-empty question and an assistant message is never empty. */
  predicate WellFormed(m: Message)
  {
    match m.role
    case User => m.content != "" && Trim(m.content) == m.content
    case Assistant => m.content != ""
  }

  /** A question that is not blank, trimmed, is a well-formed user message. */
  lemma QuestionIsWellFormed(q: string)
    requires !IsBlank(q)
    ensures WellFormed(Message(User, Trim(q)))
  {
    TrimIdempotent(q);
  }

  /** Appending a well-formed message keeps a conversation well-formed. */
  lemma AppendKeepsWellFormed(ms: seq<Message>, m: Message)
    requires forall i | 0 <= i < |ms| :: WellFormed(ms[i])
    requires WellFormed(m)
    ensures forall i | 0 <= i < |ms + [m]| :: WellFormed((ms + [m])[i])
  {
  }

  class Dialog {
    var open: bool
    var question: string
    var messages: seq<Message>
    var isLoading: bool

    predicate Valid()
      reads this
    {
      forall i | 0 <= i < |messages| :: WellFormed(messages[i])
    }

    /** The dialog starts closed, with an empty box and no conversation. */
    constructor()
      ensures Valid()
      ensures !open && question == "" && messages == [] && !isLoading
    {
      open, question, messages, isLoading := false, "", [], false;
    }

    /** Typing in the question box. */
    method SetQuestion(text: string)
      requires Valid()
      modifies this
      ensures Valid()
      ensures question == text
      ensures open == old(open) && messages == old(messages) && isLoading == old(isLoading)
    {
      question := text;
    }

    /** `handleSubmit` up to the `await`: a blank question or a submit while
        an answer is pending does nothing; otherwise the trimmed question
        is sent (the result), the box is cleared, the question joins the
        conversation and the dialog waits. */
    method Submit() returns (sent: Option<string>)
      requires Valid()
      modifies this
      ensures Valid()
      ensures IsBlank(old(question)) || old(isLoading) ==>
        sent.None? && question == old(question) && messages == old(messages) && isLoading == old(isLoading)
      ensures !IsBlank(old(question)) && !old(isLoading) ==>
        && sent == Some(Trim(old(question)))
        && question == ""
        && messages == old(messages) + [Message(User, Trim(old(question)))]
        && isLoading
      ensures open == old(open)
    {
      if IsBlank(question) || isLoading {
        return None;
      }
      var userQuestion := Trim(question);
      var m := Message(User, userQuestion);
      QuestionIsWellFormed(question);
      AppendKeepsWellFormed(messages, m);
      var conversation := messages + [m];
      question, messages, isLoading := "", conversation, true;
      sent := Some(userQuestion);
    }

    /** `handleSubmit` after the `await`: the outcome of `askAI`. An answer
        joins the conversation; an error adds nothing and shows a toast
        (the result). Either way the dialog stops waiting. The answer is
        appended to whatever the conversation is by then, even if the
        dialog was closed in the meantime. */
    method Complete(response: Result<Answer, Failure>) returns (toast: Option<string>)
      requires Valid()
      modifies this
      ensures Valid()
      ensures response.Success? ==>
        messages == old(messages) + [Message(Assistant, ReplyText(response.value.answer))] && toast.None?
      ensures response.Failure? ==> messages == old(messages) && toast == Some(FailureToast)
      ensures !isLoading && open == old(open) && question == old(question)
    {
      if response.Success? {
        var m := Message(Assistant, ReplyText(response.value.answer));
        AppendKeepsWellFormed(messages, m);
        messages := messages + [m];
        toast := None;
      } else {
        toast := Some(FailureToast);
      }
      isLoading := false;
    }

    /** `handleOpenChange`: closing forgets the conversation and the
        question; opening keeps them. A pending answer stays pending. */
    method OpenChange(newOpen: bool)
      requires Valid()
      modifies this
      ensures Valid()
      ensures open == newOpen && isLoading == old(isLoading)
      ensures !newOpen ==> messages == [] && question == ""
      ensures newOpen ==> messages == old(messages) && question == old(question)
    {
      open := newOpen;
      if !newOpen {
        messages := [];
        question := "";
      }
    }
  }
}
