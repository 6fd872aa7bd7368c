/** The process-wide coordination state of the signaling server and the
    messages it addresses to connections. */
module Model {
  import opened Js

  /** An application-level identity, as the client sends it. */
  type Id = string

  /** A connection handle (a socket id). Socket ids are never empty, so a
      stored handle is always truthy and `if (activeUsers[x])` is exactly the
      question whether `x` is a key of `activeUsers`. */
  type Handle = h: string | h != "" witness "socket"

  /** A client-supplied payload (offer, answer, candidate, error), forwarded
      without interpretation. */
  type Payload = string

  /** One connection: its handle and `socket.userId`, which stays undefined
      until the connection registers. */
  datatype Socket = Socket(sid: Handle, userId: Option<Id>)

  /** A field value of an outbound message. */
  datatype Value =
    | Who(id: Option<Id>)   // an identity tag; undefined for an unregistered sender
    | Data(payload: Payload) // a forwarded client payload
    | Text(text: string)     // a server-authored message text

  /** A named event with its payload object. */
  datatype Message = Message(event: string, fields: map<string, Value>)

  /** `io.to(to).emit(...)` or `socket.emit(...)`: one message for one connection. */
  datatype Outbound = Outbound(to: Handle, msg: Message)

  /** An entry of `activeCalls`. */
  datatype CallRecord = CallRecord(caller: Option<string>, receiver: Option<Id>, timestamp: int)

  /** `activeUsers`, `waitingUsers` and `activeCalls`. */
  datatype State = State(active: map<Id, Handle>, waiting: seq<Id>, calls: map<string, CallRecord>)

  /** The state when the server starts. */
  const Initial := State(map[], [], map[])
}
