/** Chat messages of pkg/domain, reduced to the fields that history, budget and tool loop read. */
module Chat {

  datatype Role = System | User | Assistant | Tool

  /** `likelyImage` stands for the media-type and file-name test on a non-empty attachment. */
  datatype Message = Message(
    role: Role, content: string,
    toolCallsJSON: string, toolName: string, toolCallID: string,
    attachmentName: string, attachmentMime: string, attachmentBytes: nat, likelyImage: bool)

  /** A message pointer, which may be nil. */
  datatype Entry = Nil | Msg(m: Message)

  function NewMessage(content: string, role: Role): Message {
    Message(role, content, "", "", "", "", "", 0, false)
  }
}
