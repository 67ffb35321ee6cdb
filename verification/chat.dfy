/** Vocabulary shared by the socket.io server and the browser hook: the wire
    message, the fixed notice texts and the room catalogue. */
module Chat {

  /** The `type` field of a chat payload. */
  datatype Kind = Message | System

  /** `WSMessage`: one chat line or one system notice. The timestamp is a
      locale-formatted clock reading, kept as an opaque string. */
  datatype WsMessage = WsMessage(kind: Kind, text: string, user: string, timestamp: string, room: string)

  /** Notice text sent when a user joins a room. */
  const JOINED: string := "entrou na sala."

  /** Notice text sent when a user announces leaving a room. */
  const LEFT: string := "saiu da sala."

  /** Notice text sent when a connection with a bound user and room drops. */
  const DISCONNECTED: string := "desconectou."

  /** The configured rooms and their display labels. */
  const AVAILABLE_ROOMS: map<string, string> := map["geral" := "Sala Geral", "tecnologia" := "Sala Tecnologia"]

  /** A system notice about `user` in `room`. */
  function Notice(text: string, user: string, room: string, stamp: string): WsMessage
  {
    WsMessage(System, text, user, stamp, room)
  }
}
