/** The `register` and `disconnect` socket handlers: presence bookkeeping. */
module Presence {
  import opened Js
  import opened Model
  import opened Filtering

  /** The identity a `register(userId)` event registers: `userId || socket.id`. */
  function RegisteredId(sock: Socket, userId: Option<string>): (id: Id)
    ensures id != ""
    ensures Truthy(userId) ==> id == userId.value
    ensures !Truthy(userId) ==> id == sock.sid
  {
    OrElse(userId, sock.sid)
  }

  /** `register`: last registration wins; no identity is ever refused. */
  function Register(s: State, sock: Socket, userId: Option<string>): (r: (State, Socket))
    // the identity now resolves to this connection, whatever it resolved to before
    ensures var id := RegisteredId(sock, userId);
            && id in r.0.active && r.0.active[id] == sock.sid
            && r.0.active.Keys == s.active.Keys + {id}
            && r.1 == Socket(sock.sid, Some(id))
    // every other identity resolves as before
    ensures forall k :: k in s.active && k != RegisteredId(sock, userId) ==> r.0.active[k] == s.active[k]
    ensures r.0.waiting == s.waiting && r.0.calls == s.calls
  {
    var id := RegisteredId(sock, userId);
    (s.(active := s.active[id := sock.sid]), sock.(userId := Some(id)))
  }

  /** `disconnect`: a registered connection takes its identity off the
      presence map and the waiting list; an unregistered one changes nothing.
      The identity is removed even when a newer connection has re-registered
      it since. */
  function Disconnect(s: State, sock: Socket): (s': State)
    ensures !Truthy(sock.userId) ==> s' == s
    ensures Truthy(sock.userId) ==>
      && s'.active.Keys == s.active.Keys - {sock.userId.value}
      && (forall k :: k in s'.active ==> s'.active[k] == s.active[k])
      && sock.userId.value !in s'.waiting
      && s'.waiting == RemoveAll(s.waiting, {sock.userId.value})
    // the acceptance map is never cleared
    ensures s'.calls == s.calls
  {
    if Truthy(sock.userId) then
      var u := sock.userId.value;
      s.(active := s.active - {u}, waiting := RemoveAll(s.waiting, {u}))
    else
      s
  }

  /** A connection that registers a second identity leaves the first one
      pointing at itself: nothing removes the older entry. */
  lemma ReRegisterKeepsOldEntry(s: State, sock: Socket, first: Id, second: Id)
    requires first != "" && second != "" && first != second
    ensures var (s1, sock1) := Register(s, sock, Some(first));
            var (s2, sock2) := Register(s1, sock1, Some(second));
            && s2.active[first] == sock.sid && s2.active[second] == sock.sid
            && sock2.userId == Some(second)
  {
  }

  /** Last registration wins: of two connections registering the same
      identity, the later one is the one the identity resolves to. */
  lemma LastRegistrationWins(s: State, a: Socket, b: Socket, u: Id)
    requires u != ""
    ensures var (s1, _) := Register(s, a, Some(u));
            var (s2, _) := Register(s1, b, Some(u));
            s2.active[u] == b.sid
  {
  }

  /** Disconnecting a connection whose identity has been taken over by a newer
      connection still removes the identity: the newer connection is no longer
      reachable although it is still connected. */
  lemma StaleDisconnectEvictsNewer(s: State, a: Socket, b: Socket, u: Id)
    requires u != ""
    requires a.sid != b.sid
    ensures var (s1, a1) := Register(s, a, Some(u));
            var (s2, b1) := Register(s1, b, Some(u));
            var s3 := Disconnect(s2, a1);
            && s2.active[u] == b.sid
            && b1.userId == Some(u)
            && u !in s3.active
  {
  }

  /** Disconnecting is idempotent on the state: a second `disconnect` of the
      same connection changes nothing more. */
  lemma DisconnectIdempotent(s: State, sock: Socket)
    ensures Disconnect(Disconnect(s, sock), sock) == Disconnect(s, sock)
  {
    if Truthy(sock.userId) {
      RemoveAllIdempotent(s.waiting, {sock.userId.value});
      assert Disconnect(s, sock).active - {sock.userId.value} == Disconnect(s, sock).active;
    }
  }

  /** An identity is present after `register` and absent after the same
      connection's `disconnect`, with the waiting list purged of it. */
  lemma RegisterThenDisconnect(s: State, sock: Socket, userId: Option<string>)
    ensures var (s1, sock1) := Register(s, sock, userId);
            var id := RegisteredId(sock, userId);
            var s2 := Disconnect(s1, sock1);
            && id in s1.active
            && id !in s2.active
            && id !in s2.waiting
            && (forall k :: k in s.active && k != id ==> k in s2.active && s2.active[k] == s.active[k])
  {
  }
}
