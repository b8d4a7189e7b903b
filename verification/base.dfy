/** Shared vocabulary of the chat matchmaking server: connection ids, message
    payloads, room names and an optional value standing in for JavaScript's `null`. */
module Base {

  /** Some value, or the absence of one (`null` in the server). */
  datatype Option<+T> = None | Some(value: T)

  /** A socket id as handed out by the transport. */
  type Id = string

  /** A chat message. The server never looks inside one; it only forwards it. */
  type Payload = string

  /** The name of the room two paired connections share. */
  type RoomId = string
}
