/**
 * Per-session state of the Streamlit page: the chat message history
 * (`StreamlitChatMessageHistory`) and the session-state flags the page reads
 * and writes (`required_sources`, `message_sent`, `spinner_active`).
 */
module Session {

  /** One entry of the conversation history. */
  datatype Message = HumanMessage(content: string) | AiMessage(content: string)

  /** The message history object `msgs`; its methods append or clear in place. */
  class ChatMessageHistory {
    var messages: seq<Message>

    constructor ()
      ensures messages == []
    {
      messages := [];
    }

    method AddUserMessage(content: string)
      modifies this
      ensures messages == old(messages) + [HumanMessage(content)]
    {
      messages := messages + [HumanMessage(content)];
    }

    method AddAiMessage(content: string)
      modifies this
      ensures messages == old(messages) + [AiMessage(content)]
    {
      messages := messages + [AiMessage(content)];
    }

    method Clear()
      modifies this
      ensures messages == []
    {
      messages := [];
    }
  }

  /** `st.session_state`, restricted to the keys the modelled code uses. */
  class SessionState {
    var requiredSources: seq<string>
    var messageSent: bool
    var spinnerActive: bool

    /**
     * The state `app.py` sets up before the first run: no message sent yet.
     * `app.py` sets only that flag; the empty source list and the cleared
     * spinner are this model's choice of starting values for the other two
     * keys: the sidebar sets the source list before the chat page reads it,
     * and the spinner flag is only ever cleared, never read.
     */
    constructor ()
      ensures requiredSources == [] && !messageSent && !spinnerActive
    {
      requiredSources := [];
      messageSent := false;
      spinnerActive := false;
    }
  }
}
