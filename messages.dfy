/** The chat message record shared by the UI and the mentor endpoint. */
module Messages {
  /** Who wrote a message. The endpoint accepts all three; the UI only ever
      creates `User` and `Assistant` messages. */
  datatype Role = User | Assistant | System

  /** One entry of the conversation history: `{ role, content }`. */
  datatype ChatMessage = ChatMessage(role: Role, content: string)
}
