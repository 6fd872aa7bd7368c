# Signaling-server coordination state, in Dafny

This project models the real-time coordination core of a random video-chat
matchmaking server. The core is `server/server.js`. It keeps three
process-wide structures:

- `activeUsers`: identity → socket id (`State.active`);
- `waitingUsers`: a list of identities (`State.waiting`);
- `activeCalls`: the acceptance map that suppresses duplicate
  `callAccepted` notifications (`State.calls`).

Every socket event and the `/match` HTTP request is modelled as a pure,
atomic transition on these structures. Each transition returns the new state
and the messages it emits. A message is an `Outbound` value: a connection
handle plus a named event carrying a field map.

Modules:

- `Js`: JavaScript conventions the handlers depend on. `undefined` is
  `Option.None`. It also defines string truthiness, `a || b`, and `String(v)`
  as used for property lookup and template literals.
- `Filtering`: `Array.prototype.filter` that drops a set of values.
- `Model`: identities, handles, messages and the state.
- `Matchmaking`: the `/match` endpoint.
- `Presence`: `register` and `disconnect`.
- `SignalingRelay`: `call`, `callAnswered`, `callError`, `ice-candidate`,
  `endCall` and `callRejected`.
- `Acceptance`: `acceptCall` and its `${receiver}-${caller}` key.
- `Server`: the event dispatcher, plus properties that hold over any
  sequence of socket events.

Modelling choices:

- `Math.random()` is a parameter `rand` with `0 <= rand < 1`. The index is
  `Floor(rand * n)`, as in the source, computed over the reals.
- The order of `Object.keys(activeUsers)` is a parameter `keys`. It must
  list every key exactly once, but its order is left open.
- `Date.now()` is a parameter `now`.
- Socket ids are never empty, so a stored handle is always truthy.
  `if (activeUsers[x])` is therefore modelled as `x in active`.
- An undefined address is looked up under the key `"undefined"`, which is
  what JavaScript property access does.
- In the lemmas over sequences of socket events, each event carries its own
  connection record. The lemmas therefore hold for any record on every event,
  which is stronger than following one connection's `socket.userId` from
  event to event.

The model follows the code as written, including where it falls short of
what a reader might expect of such a server (a deduplicated waiting list, a
`register` that refuses empty ids, a `leaveWaiting` event, a consent protocol):

- `/match` appends to the waiting list even when the requester is already
  on it, so the list is not deduplicated.
- `register` accepts an empty or missing id and falls back to the socket id.
- `disconnect` removes the identity even when a newer connection has
  re-registered it since.
- There is no `leaveWaiting` event and no consent state machine.
- The acceptance key is a string concatenation, not a pair.
  `AcceptKeyCollision` shows two different pairs that share a key.
  `AcceptKeyInjective` shows that keys are distinct when receiver
  identities contain no `-`.

## Model

| member | source | states |
|---|---|---|
| Matchmaking.Match | server/server.js:24-55 | A missing or empty userId gives the 400 outcome and leaves the state unchanged. A match is returned exactly when some active user other than the requester exists; the match is such a user. After a match, presence and the acceptance map are unchanged and the waiting list loses every occurrence of both parties. Otherwise the requester is appended to the waiting list, and nothing else changes. |
| Matchmaking.MatchResponse.Status | server/server.js:29-54 | A missing id is answered with 400, no available user with 404, a match with 200. |
| Matchmaking.MatchResponse.Error | server/server.js:29-54 | The 400 and 404 bodies carry their fixed error texts; a match carries no error. |
| Matchmaking.RandomIndex | server/server.js:46 | `Math.floor(Math.random() * n)` is a valid index below n. |
| Matchmaking.MatchCanPickAnyCandidate | server/server.js:35-47 | Every active user other than the requester is the match for some random draw. |
| Matchmaking.DrawFor | server/server.js:46 | The draw i/n selects index i. |
| Matchmaking.RepeatedRequestsAppendTwice | server/server.js:38-42 | With nobody else active, two requests by the same user both fail and leave two copies of that user on the waiting list. |
| Matchmaking.MatchLeavesPartiesOffWaitingList | server/server.js:38-52 | A match request never changes presence or the acceptance map. After a match, neither party is on the waiting list. After a failed request, the requester is the last entry. |
| Presence.RegisteredId | server/server.js:65 | The registered identity is the userId when that is truthy, otherwise the socket id. It is never empty. |
| Presence.Register | server/server.js:61-70 | The identity now resolves to this socket, whatever it resolved to before. Every other identity resolves as before, and the key set gains only this identity. The socket records the identity. The waiting list and the acceptance map are unchanged. |
| Presence.Disconnect | server/server.js:186-194 | For a registered socket, its identity leaves the presence map and every occurrence of it leaves the waiting list; other entries are unchanged. For an unregistered socket nothing changes. The acceptance map is never touched. |
| Presence.ReRegisterKeepsOldEntry | server/server.js:61-70 | A socket that registers a second identity leaves the first one mapped to itself. |
| Presence.LastRegistrationWins | server/server.js:66 | Of two sockets that register the same identity, the later one is the one the identity resolves to. |
| Presence.StaleDisconnectEvictsNewer | server/server.js:186-190 | When socket a registers u, then socket b registers u, then a disconnects, u is no longer present although b is still connected. |
| Presence.DisconnectIdempotent | server/server.js:186-194 | A second disconnect of the same socket changes nothing more. |
| Presence.RegisterThenDisconnect | server/server.js:61-194 | After a socket registers and then disconnects, its identity is in neither structure. Every other identity keeps its entry. |
| SignalingRelay.Forwarded | server/server.js:78-152 | A forwarded message has the kind's outbound event name. It carries the sender's identity (possibly undefined) under the kind's tag field, and the client payload under the kind's payload field. |
| SignalingRelay.Relay | server/server.js:73-153 | Exactly one message of the kind's outbound event is emitted if and only if the addressed identity is present, and it goes to that identity's socket. When the identity is absent, `callAnswered` echoes one `callError` with the fixed text to the sender's own socket, and every other kind emits nothing. |
| SignalingRelay.RelayAddressesOnlyPresentOrSender | server/server.js:73-153 | The relay emits at most one message, addressed to a present socket or to the sender. |
| SignalingRelay.ForwardedTagNames | server/server.js:78-152 | The wire names of the six forwards: incomingCall/caller+offer, callAnswered/answerer+answer, callError/sender+error, ice-candidate/sender+candidate, callEnded/caller, callRejected/rejector. |
| SignalingRelay.UndefinedAddressResolvesLiterally | server/server.js:77 | An undefined target is looked up as the identity "undefined". |
| Acceptance.AcceptKey | server/server.js:167 | The key is the receiver's string, a `-`, then the caller's string; undefined becomes "undefined". |
| Acceptance.AcceptCall | server/server.js:156-183 | An absent caller gives no record and no message. A key seen before gives no message. Otherwise the key is recorded with receiver, caller and timestamp, and exactly one `callAccepted` naming the acceptor goes to the caller's socket. One message is sent exactly when a new key is recorded. Presence, the waiting list and existing records are untouched. |
| Acceptance.DoubleAcceptNotifiesOnce | server/server.js:166-182 | Two back-to-back accepts of the same caller from the same socket notify at most once. They notify exactly once when the caller is present and the key is new. |
| Acceptance.AcceptKeyInjective | server/server.js:167 | Two keys are equal only for the same receiver and caller strings, provided receiver identities contain no `-`. |
| Acceptance.AcceptKeyCollision | server/server.js:167-171 | After "a-b" accepts "c", an accept by "a" of the present "b-c" is suppressed. |
| Server.Step | server/server.js:57-195 | Only `register` changes the socket's record, and relay events change nothing. Presence changes only on register or disconnect, and the waiting list changes only on disconnect, where it never grows. Acceptance records are only ever added, and only by `acceptCall`. Each event emits at most one message. |
| Server.CallsOnlyGrow | server/server.js:174-178 | Over any sequence of socket events, every acceptance record survives unchanged. |
| Server.AtMostOneAcceptancePerKey | server/server.js:166-182 | Over any sequence of socket events, at most one `callAccepted` is sent per key, and none for a key already recorded. |
| Server.FreshServerAcceptsOncePerKey | server/server.js:18 | Starting from the empty maps of a freshly started server, every key is told at most once over any sequence of socket events. |
| Server.RelayIsStateless | server/server.js:73-153 | A relay event leaves the state and the socket unchanged. It emits one message exactly when the target is present or the kind is `callAnswered`. |
| Server.WaitingNeverGrowsOnSockets | server/server.js:186-194 | Socket events never add to the waiting list; only `/match` does. |
| Filtering.RemoveAll | server/server.js:52 | Filtering keeps exactly the elements outside the dropped set, with their multiplicities, and never lengthens the list. |
| Filtering.RemoveAllAppend | server/server.js:52 | Filtering distributes over concatenation, so survivors keep their relative order. |
| Filtering.RemoveAllNothingToDrop | server/server.js:192 | A list with nothing to drop comes back unchanged. |
| Filtering.RemoveAllIdempotent | server/server.js:192 | Filtering twice by the same identities equals filtering once. |

## Left out

- HTTP and socket.io plumbing, CORS, `server.listen` and the port setting
  (server/server.js:1-12, 197-200): transport only. Emissions are returned
  as data instead.
- `console.log` calls: they have no effect on the state.
- `Math.random()` and `Date.now()` are parameters. The model does not
  capture floating-point rounding of `Math.random() * n`; the product is
  taken over the reals.
- The insertion order of `Object.keys`, including JavaScript's rule that
  integer-like keys come first: any enumeration is allowed.
- Inherited object properties: a target named `constructor` or `__proto__`
  is truthy on a plain object, and the model does not capture this. On the
  register side, `activeUsers["__proto__"] = socket.id` creates no own key,
  but Presence.Register adds the key anyway.
- Malformed events: the handlers destructure `data`, so a missing payload
  object throws. Non-string identities are also not modelled.
- Concurrency: Node handles one event at a time, so each handler is one
  atomic transition.
- `server/model_server.py` (machine-learning scoring behind Flask) is not
  part of this model.
- Consent steps, interaction counting and chat-room creation: `server/server.js`
  has no code for them, so there is nothing to model.
- Server.AtMostOneAcceptancePerKey, Server.CallsOnlyGrow and
  Server.WaitingNeverGrowsOnSockets: these range over socket events only.
  `/match` requests are not part of the traces, because each one needs its
  own key enumeration. Each `/match` request leaves the acceptance map
  unchanged (see Matchmaking.Match).
