/**
 * The matchmaking connection registry (`MatchmakingConnectionManager`): the
 * socket each waiting user is connected on. Sends are best effort; a socket in
 * `failing` raises on send and its user is disconnected.
 */
module MatchRegistry {
  import opened Wrappers
  import opened Ids

  type Registry = map<UserId, SocketId>

  /** `get`: the user's registered socket, or None. */
  function Get(r: Registry, u: UserId): (ws: Option<SocketId>)
    ensures ws.Some? <==> u in r
    ensures ws.Some? ==> ws.value == r[u]
  {
    if u in r then Some(r[u]) else None
  }

  /** `connect`: the user's entry is overwritten, and every other user's entry kept. */
  function Connect(r: Registry, u: UserId, ws: SocketId): (r': Registry)
    ensures Get(r', u) == Some(ws)
    ensures forall v: UserId :: v != u ==> Get(r', v) == Get(r, v)
  {
    r[u := ws]
  }

  /** `disconnect`: the user's entry is gone and nobody else's is touched; absent users are a no-op. */
  function Disconnect(r: Registry, u: UserId): (r': Registry)
    ensures Get(r', u).None?
    ensures forall v: UserId :: v != u ==> Get(r', v) == Get(r, v)
    ensures u !in r ==> r' == r
  {
    r - {u}
  }

  /** Disconnecting twice is the same as disconnecting once. */
  lemma DisconnectIdempotent(r: Registry, u: UserId)
    ensures Disconnect(Disconnect(r, u), u) == Disconnect(r, u)
  {
  }

  /** Which sockets received the message, and the registry afterwards. */
  datatype Delivery = Delivery(registry: Registry, to: set<SocketId>)

  /**
   * `send_to_user`: nothing without a connection; otherwise the message
   * reaches the user's socket, or the failed send disconnects the user.
   */
  function SendToUser(r: Registry, u: UserId, failing: set<SocketId>): (d: Delivery)
    ensures u !in r ==> d == Delivery(r, {})
    ensures u in r && r[u] !in failing ==> d == Delivery(r, {r[u]})
    ensures u in r && r[u] in failing ==> d == Delivery(Disconnect(r, u), {}) && Get(d.registry, u).None?
  {
    match Get(r, u)
    case None => Delivery(r, {})
    case Some(ws) => if ws in failing then Delivery(Disconnect(r, u), {}) else Delivery(r, {ws})
  }
}
