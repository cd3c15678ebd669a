/** The client chat store: the message list, a loading flag and an error, each replaced by its own setter. */
module Store {
  import opened Wrappers

  datatype Role = User | Assistant

  /** A chat message; of its optional metadata only the translation is kept. */
  datatype Message = Message(id: string, content: string, role: Role, translation: Option<string>)

  class ChatStore {
    var messages: seq<Message>
    var isLoading: bool
    var error: Option<string>

    /** The store's initial state. */
    constructor ()
      ensures messages == [] && !isLoading && error == None
    {
      messages, isLoading, error := [], false, None;
    }

    /** `addMessage`: appends at the end; earlier messages and the other fields stay. */
    method AddMessage(message: Message)
      modifies this`messages
      ensures messages == old(messages) + [message]
      ensures |messages| == |old(messages)| + 1 && messages[..|old(messages)|] == old(messages)
      ensures isLoading == old(isLoading) && error == old(error)
    {
      messages := messages + [message];
    }

    /** `setLoading`: changes only the loading flag. */
    method SetLoading(loading: bool)
      modifies this`isLoading
      ensures isLoading == loading
      ensures messages == old(messages) && error == old(error)
    {
      isLoading := loading;
    }

    /** `setError`: changes only the error. */
    method SetError(e: Option<string>)
      modifies this`error
      ensures error == e
      ensures messages == old(messages) && isLoading == old(isLoading)
    {
      error := e;
    }

    /** `clearMessages`: empties the list and leaves the flag and the error alone. */
    method ClearMessages()
      modifies this`messages
      ensures messages == []
      ensures isLoading == old(isLoading) && error == old(error)
    {
      messages := [];
    }
  }
}
