/** The socket event dispatcher: each event a connection sends is one atomic
    transition of the shared state, producing the messages it emits. */
module Server {
  import opened Js
  import opened Model
  import opened Presence
  import opened SignalingRelay
  import opened Acceptance
  import opened Filtering

  datatype SocketEvent =
    | RegisterEvent(userId: Option<string>)
    | RelayEvent(kind: RelayKind, to: Option<string>, payload: Payload)
    | AcceptCallEvent(caller: Option<string>, offer: Payload)
    | DisconnectEvent

  /** One event as it reaches the server: the connection it came from, the
      event, and the clock reading `Date.now()` would give while handling it. */
  datatype Delivery = Delivery(sock: Socket, ev: SocketEvent, now: int)

  datatype Transition = Transition(state: State, sock: Socket, outs: seq<Outbound>)

  /** The effect of one delivered event. */
  function Step(s: State, d: Delivery): (t: Transition)
    // only `register` changes the connection's own record
    ensures !d.ev.RegisterEvent? ==> t.sock == d.sock
    // relay events change nothing
    ensures d.ev.RelayEvent? ==> t.state == s
    // presence changes only through register and disconnect
    ensures !d.ev.RegisterEvent? && !d.ev.DisconnectEvent? ==> t.state.active == s.active
    // the waiting list changes only on disconnect, and then only shrinks
    ensures !d.ev.DisconnectEvent? ==> t.state.waiting == s.waiting
    ensures |t.state.waiting| <= |s.waiting|
    // acceptance records are only ever added
    ensures forall k :: k in s.calls ==> k in t.state.calls && t.state.calls[k] == s.calls[k]
    ensures !d.ev.AcceptCallEvent? ==> t.state.calls == s.calls
    // at most one message per event
    ensures |t.outs| <= 1
  {
    match d.ev
    case RegisterEvent(userId) =>
      var (s', sock') := Register(s, d.sock, userId);
      Transition(s', sock', [])
    case RelayEvent(kind, to, payload) =>
      Transition(s, d.sock, Relay(s, d.sock, kind, to, payload))
    case AcceptCallEvent(caller, _) =>
      var (s', outs) := AcceptCall(s, d.sock, caller, d.now);
      Transition(s', d.sock, outs)
    case DisconnectEvent =>
      Transition(Disconnect(s, d.sock), d.sock, [])
  }

  /** The state after handling the deliveries one after another. */
  function Run(s: State, trace: seq<Delivery>): State
    decreases |trace|
  {
    if trace == [] then s else Run(Step(s, trace[0]).state, trace[1..])
  }

  /** Whether delivery `d` in state `s` is an accept for key `key` that told
      the caller. */
  predicate Notifies(s: State, d: Delivery, key: string) {
    && d.ev.AcceptCallEvent?
    && AcceptKey(d.sock.userId, d.ev.caller) == key
    && |Step(s, d).outs| > 0
  }

  /** How many deliveries of `trace` send a `callAccepted` for `key`. */
  function AcceptancesFor(s: State, trace: seq<Delivery>, key: string): nat
    decreases |trace|
  {
    if trace == [] then 0
    else
      (if Notifies(s, trace[0], key) then 1 else 0)
      + AcceptancesFor(Step(s, trace[0]).state, trace[1..], key)
  }

  /** `activeCalls` is never cleared: whatever was recorded before any
      sequence of events is still recorded, unchanged, after it. */
  lemma {:induction false} CallsOnlyGrow(s: State, trace: seq<Delivery>)
    ensures forall k :: k in s.calls ==> k in Run(s, trace).calls && Run(s, trace).calls[k] == s.calls[k]
    decreases |trace|
  {
    if trace != [] {
      CallsOnlyGrow(Step(s, trace[0]).state, trace[1..]);
    }
  }

  /** Duplicate suppression over any interleaving of events: for every key at
      most one `callAccepted` is ever sent, and none once the key is recorded. */
  lemma {:induction false} AtMostOneAcceptancePerKey(s: State, trace: seq<Delivery>, key: string)
    ensures AcceptancesFor(s, trace, key) <= if key in s.calls then 0 else 1
    decreases |trace|
  {
    if trace != [] {
      var d := trace[0];
      var s' := Step(s, d).state;
      AtMostOneAcceptancePerKey(s', trace[1..], key);
      if Notifies(s, d, key) {
        assert key !in s.calls && key in s'.calls;
      }
    }
  }

  /** On a freshly started server every key is told at most once, whatever
      sequence of socket events arrives. */
  lemma FreshServerAcceptsOncePerKey(trace: seq<Delivery>, key: string)
    ensures AcceptancesFor(Initial, trace, key) <= 1
  {
    AtMostOneAcceptancePerKey(Initial, trace, key);
  }

  /** A relay event never alters presence, the waiting list or the
      acceptance map, whatever it addresses. */
  lemma RelayIsStateless(s: State, sock: Socket, kind: RelayKind, to: Option<string>, payload: Payload, now: int)
    ensures var t := Step(s, Delivery(sock, RelayEvent(kind, to, payload), now));
            t.state == s && t.sock == sock
            && (|t.outs| == 1 <==> ToJsString(to) in s.active || kind == Answer)
  {
  }

  /** The waiting list never grows through socket events: only `/match`
      adds to it. */
  lemma {:induction false} WaitingNeverGrowsOnSockets(s: State, trace: seq<Delivery>)
    ensures |Run(s, trace).waiting| <= |s.waiting|
    ensures forall u :: u in Run(s, trace).waiting ==> u in s.waiting
    decreases |trace|
  {
    if trace != [] {
      var s' := Step(s, trace[0]).state;
      WaitingNeverGrowsOnSockets(s', trace[1..]);
      forall u | u in s'.waiting ensures u in s.waiting {
        if trace[0].ev.DisconnectEvent? && Truthy(trace[0].sock.userId) {
          assert s'.waiting == RemoveAll(s.waiting, {trace[0].sock.userId.value});
        }
      }
    }
  }
}
