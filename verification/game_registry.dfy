/**
 * The gameplay connection registry (`GameConnectionManager`): for each game,
 * which socket each participant is connected on. A game whose last
 * participant leaves is dropped, so no empty bucket is ever stored. Sends are
 * best effort: a socket in `failing` raises on send, and the registry treats
 * that as a disconnect.
 */
module GameRegistry {
  import opened Wrappers
  import opened Ids

  type Registry = map<GameId, map<UserId, SocketId>>

  /** Every stored game has at least one connected participant. */
  predicate NoEmptyBucket(r: Registry) {
    forall g :: g in r ==> r[g] != map[]
  }

  /** The participants of game `g` and their sockets; empty when the game has none. */
  function Bucket(r: Registry, g: GameId): map<UserId, SocketId> {
    if g in r then r[g] else map[]
  }

  /** `get`: the socket user `u` last connected to game `g` on, or None. */
  function Get(r: Registry, g: GameId, u: UserId): (ws: Option<SocketId>)
    ensures ws.Some? <==> g in r && u in r[g]
    ensures ws.Some? ==> ws.value == r[g][u]
  {
    if g in r && u in r[g] then Some(r[g][u]) else None
  }

  /** `connect`: (g, u) now maps to `ws`, replacing any earlier socket; every other entry is kept. */
  function Connect(r: Registry, g: GameId, u: UserId, ws: SocketId): (r': Registry)
    ensures Get(r', g, u) == Some(ws)
    ensures forall g': GameId, u': UserId :: (g', u') != (g, u) ==> Get(r', g', u') == Get(r, g', u')
    ensures NoEmptyBucket(r) ==> NoEmptyBucket(r')
  {
    r[g := Bucket(r, g)[u := ws]]
  }

  /**
   * `disconnect`: removes the (g, u) entry, and the game once its bucket is
   * empty; a missing entry or an empty bucket leaves the registry as it is.
   */
  function Disconnect(r: Registry, g: GameId, u: UserId): (r': Registry)
    ensures Get(r', g, u).None?
    ensures forall g': GameId, u': UserId :: (g', u') != (g, u) ==> Get(r', g', u') == Get(r, g', u')
    ensures NoEmptyBucket(r) ==> NoEmptyBucket(r')
    ensures Get(r, g, u).None? ==> r' == r
  {
    if g !in r || r[g] == map[] || u !in r[g] then r
    else if r[g].Keys == {u} then r - {g}
    else
      assert (r[g] - {u}).Keys == r[g].Keys - {u} != {};
      r[g := r[g] - {u}]
  }

  /** Disconnecting twice is the same as disconnecting once. */
  lemma DisconnectIdempotent(r: Registry, g: GameId, u: UserId)
    ensures Disconnect(Disconnect(r, g, u), g, u) == Disconnect(r, g, u)
  {
  }

  /** Two registries without empty buckets that agree on every lookup are equal. */
  lemma RegistryExtensionality(a: Registry, b: Registry)
    requires NoEmptyBucket(a) && NoEmptyBucket(b)
    requires forall g: GameId, u: UserId :: Get(a, g, u) == Get(b, g, u)
    ensures a == b
  {
    forall g | g in a ensures g in b && a[g] == b[g] {
      var u :| u in a[g];
      assert Get(a, g, u).Some?;
      assert g in b;
      assert a[g].Keys == b[g].Keys by {
        forall v | v in a[g] ensures v in b[g] { assert Get(a, g, v).Some?; }
        forall v | v in b[g] ensures v in a[g] { assert Get(b, g, v).Some?; }
      }
      forall v | v in a[g] ensures a[g][v] == b[g][v] { assert Get(a, g, v) == Get(b, g, v); }
    }
    forall g | g in b ensures g in a {
      var u :| u in b[g];
      assert Get(b, g, u).Some?;
    }
  }

  /** Which sockets received a message, and the registry after the failed ones were dropped. */
  datatype Delivery = Delivery(registry: Registry, to: set<SocketId>)

  /**
   * `send_to_user`: nothing for an unregistered user; otherwise the message
   * reaches the user's socket, or, if that send fails, the user is
   * disconnected.
   */
  function SendToUser(r: Registry, g: GameId, u: UserId, failing: set<SocketId>): (d: Delivery)
    ensures Get(r, g, u).None? ==> d == Delivery(r, {})
    ensures Get(r, g, u).Some? && Get(r, g, u).value !in failing ==> d == Delivery(r, {Get(r, g, u).value})
    ensures Get(r, g, u).Some? && Get(r, g, u).value in failing ==> d == Delivery(Disconnect(r, g, u), {})
  {
    match Get(r, g, u)
    case None => Delivery(r, {})
    case Some(ws) => if ws in failing then Delivery(Disconnect(r, g, u), {}) else Delivery(r, {ws})
  }

  /** A user of game `g` whose socket is in `failing`. */
  predicate SendFails(r: Registry, g: GameId, u: UserId, failing: set<SocketId>) {
    Get(r, g, u).Some? && Get(r, g, u).value in failing
  }

  /**
   * `broadcast_to_game`: every participant registered when the call starts is
   * sent the message; those whose send failed are disconnected afterwards,
   * and no one else is.
   */
  function Broadcast(r: Registry, g: GameId, failing: set<SocketId>): (d: Delivery)
    ensures d.to == set u | u in Bucket(r, g) && Bucket(r, g)[u] !in failing :: Bucket(r, g)[u]
    ensures forall g': GameId, u': UserId :: Get(d.registry, g', u') ==
              if g' == g && SendFails(r, g, u', failing) then None else Get(r, g', u')
    ensures NoEmptyBucket(r) ==> NoEmptyBucket(d.registry)
  {
    var bucket := Bucket(r, g);
    var kept := map u | u in bucket && bucket[u] !in failing :: bucket[u];
    var to := set u | u in bucket && bucket[u] !in failing :: bucket[u];
    assert forall u :: u in bucket && bucket[u] !in failing ==> u in kept;
    if g !in r || r[g] == map[] then Delivery(r, to)
    else if kept.Keys == {} then Delivery(r - {g}, to)
    else Delivery(r[g := kept], to)
  }

  /** Disconnecting the listed users of game `g` one after another. */
  function DisconnectEach(r: Registry, g: GameId, users: seq<UserId>): Registry
    decreases |users|
  {
    if |users| == 0 then r else DisconnectEach(Disconnect(r, g, users[0]), g, users[1..])
  }

  lemma {:induction false} DisconnectEachLookup(r: Registry, g: GameId, users: seq<UserId>)
    requires NoEmptyBucket(r)
    ensures NoEmptyBucket(DisconnectEach(r, g, users))
    ensures forall g': GameId, u': UserId :: Get(DisconnectEach(r, g, users), g', u') ==
              if g' == g && u' in users then None else Get(r, g', u')
    decreases |users|
  {
    if |users| > 0 {
      var r1 := Disconnect(r, g, users[0]);
      DisconnectEachLookup(r1, g, users[1..]);
      assert forall u' :: u' in users <==> u' == users[0] || u' in users[1..];
    }
  }

  /**
   * The broadcast's registry is what the source's second loop produces:
   * calling `disconnect` for each failed participant in turn.
   */
  lemma BroadcastDisconnectsFailedInTurn(r: Registry, g: GameId, failing: set<SocketId>, failed: seq<UserId>)
    requires NoEmptyBucket(r)
    requires forall u :: u in failed <==> SendFails(r, g, u, failing)
    ensures DisconnectEach(r, g, failed) == Broadcast(r, g, failing).registry
  {
    DisconnectEachLookup(r, g, failed);
    RegistryExtensionality(DisconnectEach(r, g, failed), Broadcast(r, g, failing).registry);
  }
}
