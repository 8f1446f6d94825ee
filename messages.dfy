/** The chat message shapes the bot hands to the language-model chain:
    a human turn or an AI turn, each carrying its text content. */
module Messages {
  import opened Wrappers

  /** Which side of the conversation a message is attributed to. */
  datatype Role = Human | AI

  /** One chat message. The content is optional because the bot passes the
      history entry's body through unchecked, and that body may be missing. */
  datatype Message = Message(role: Role, content: Option<string>)

  /** A message attributed to the human side. */
  function HumanMessage(content: Option<string>): Message
  {
    Message(Human, content)
  }

  /** A message attributed to the AI side. */
  function AIMessage(content: Option<string>): Message
  {
    Message(AI, content)
  }
}
