/** The chat turn shared by both conversation threads and the stream decoder. */
module Messages {
  /** One chat turn: who speaks (`system`, `user`, `assistant`, ...) and what was said. */
  datatype Message = Message(role: string, content: string)

  /** The role every system prompt carries. */
  const SystemRole: string := "system"
}
