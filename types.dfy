/** Values shared by every part of the chat engine. */
module Types {

  datatype Option<+T> = None | Some(value: T)

  /** An octet of a wire payload. */
  type byte = b: int | 0 <= b < 256

  /**
   * A transport-assigned peer identifier. `uid` stands for the opaque,
   * per-instance identity of the transport's peer object; `name` is the
   * human-readable display name it carries. Two identifiers for the same
   * name are different peers as far as the transport is concerned.
   */
  datatype PeerId = PeerId(uid: nat, name: string)

  /** A chat message: its text and the display name of its author. */
  datatype Message = Message(text: string, author: string)

  /** The states a session reports for a remote peer. */
  datatype SessionState = NotConnected | Connecting | Connected

  /** One entry of the derived conversation list. */
  datatype Conversation = Conversation(name: string, messages: seq<Message>)
}
