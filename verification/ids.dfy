/**
 * Identities and instants shared by the backend model. A UUID is an opaque
 * token; it is modelled as a natural number whose text form (`str(uuid)`) is
 * its decimal rendering. Instants are microseconds since the epoch, the
 * resolution of Python's `datetime`.
 */
module Ids {
  type UserId = nat
  type GameId = nat
  /** An open websocket, identified only by which one it is. */
  type SocketId = nat
  type Instant = int

  const MicrosPerSecond: int := 1_000_000
}
