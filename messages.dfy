/** Chat messages as the agents exchange them, and what a call to a language
    model can come back with. */
module Messages {

  /** A conversation message: a user turn, a model turn, a system instruction
      or a tool result. Each carries its text. */
  datatype Message =
    | Human(content: string)
    | AI(content: string)
    | System(content: string)
    | Tool(content: string)

  /** The result of invoking a language model: the reply text, or the text of
      the exception the call raised. */
  datatype LlmOutcome = Reply(text: string) | Raised(error: string)
}
