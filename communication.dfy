/** Chat messages and the context cell shared by the communication layer. */
module Communication {

  datatype Option<T> = None | Some(value: T)

  /** Who wrote a chat message. */
  datatype MessageRole = System | User | Assistant

  /** One turn of a conversation with the language model. */
  datatype ChatMessage = ChatMessage(role: MessageRole, content: string)

  /** A one-slot cell holding the model's numeric context, if any. */
  class Context {
    var contextParameter: Option<seq<int>>

    /** `Context::new`: no context yet. */
    constructor ()
      ensures GetContext() == None
    {
      contextParameter := None;
    }

    /** Overwrites whatever context was held before. */
    method SetContext(parameter: seq<int>)
      modifies this
      ensures GetContext() == Some(parameter)
    {
      contextParameter := Some(parameter);
    }

    /** Reads the cell; being a function it cannot change the state. */
    function GetContext(): Option<seq<int>>
      reads this
    {
      contextParameter
    }
  }

  /** A later `SetContext` overwrites an earlier one, and reading does not disturb it. */
  method SetTwiceKeepsLast(c: Context, first: seq<int>, second: seq<int>) returns (got: Option<seq<int>>)
    modifies c
    ensures got == Some(second) && c.GetContext() == Some(second)
  {
    c.SetContext(first);
    c.SetContext(second);
    got := c.GetContext();
    var again := c.GetContext();
    assert again == got;
  }
}
