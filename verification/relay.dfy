/** The signaling relay: the `call`, `callAnswered`, `callError`,
    `ice-candidate`, `endCall` and `callRejected` socket handlers. Each one
    forwards to the addressed identity's connection when it is present, tagged
    with the sender's identity. None of them changes any state. */
module SignalingRelay {
  import opened Js
  import opened Model

  /** The text of the `callError` echoed back when an answer cannot be delivered. */
  const NotConnectedError := "상대방이 연결되어 있지 않습니다."

  datatype RelayKind = Call | Answer | Error | Ice | End | Reject
  {
    /** The name of the event forwarded to the addressed identity. */
    function Outbound(): string {
      match this
      case Call => "incomingCall"
      case Answer => "callAnswered"
      case Error => "callError"
      case Ice => "ice-candidate"
      case End => "callEnded"
      case Reject => "callRejected"
    }

    /** The field of the forwarded payload that carries the sender's identity. */
    function SenderField(): string {
      match this
      case Call => "caller"
      case Answer => "answerer"
      case Error => "sender"
      case Ice => "sender"
      case End => "caller"
      case Reject => "rejector"
    }

    /** The field carrying the client payload, for the kinds that have one. */
    function PayloadField(): Option<string> {
      match this
      case Call => Some("offer")
      case Answer => Some("answer")
      case Error => Some("error")
      case Ice => Some("candidate")
      case End => None
      case Reject => None
    }
  }

  /** The message forwarded to the addressed identity. */
  function Forwarded(kind: RelayKind, sender: Option<Id>, payload: Payload): (m: Message)
    ensures m.event == kind.Outbound()
    ensures kind.SenderField() in m.fields && m.fields[kind.SenderField()] == Who(sender)
    ensures kind.PayloadField().Some? ==>
      && kind.PayloadField().value in m.fields
      && m.fields[kind.PayloadField().value] == Data(payload)
    ensures |m.fields| == if kind.PayloadField().Some? then 2 else 1
  {
    var tag := map[kind.SenderField() := Who(sender)];
    match kind.PayloadField()
    case None => Message(kind.Outbound(), tag)
    case Some(f) => Message(kind.Outbound(), tag[f := Data(payload)])
  }

  /** The `callError` a sender gets back when its answer cannot be delivered:
      it carries the error text only, no identity. */
  const Unreachable := Message("callError", map["error" := Text(NotConnectedError)])

  /** One relay event from `sock`: `to` is the addressed identity as sent,
      possibly undefined (`data.caller` for `callAnswered` and `callRejected`,
      `data.target` for the others), and `payload` the client payload (ignored
      by `endCall` and `callRejected`). */
  function Relay(s: State, sock: Socket, kind: RelayKind, to: Option<string>, payload: Payload): (outs: seq<Outbound>)
    // delivered to the addressed connection exactly when it is present
    ensures ToJsString(to) in s.active <==> |outs| == 1 && outs[0].msg.event == kind.Outbound()
    ensures ToJsString(to) in s.active ==> outs == [Outbound(s.active[ToJsString(to)], Forwarded(kind, sock.userId, payload))]
    // when it is absent only an undeliverable answer is reported, to the sender itself
    ensures ToJsString(to) !in s.active && kind == Answer ==> outs == [Outbound(sock.sid, Unreachable)]
    ensures ToJsString(to) !in s.active && kind != Answer ==> outs == []
  {
    var key := ToJsString(to);
    if key in s.active then
      [Outbound(s.active[key], Forwarded(kind, sock.userId, payload))]
    else if kind == Answer then
      [Outbound(sock.sid, Unreachable)]
    else
      []
  }

  /** The relay only ever addresses a present connection or the sender, and
      emits at most one message. */
  lemma RelayAddressesOnlyPresentOrSender(s: State, sock: Socket, kind: RelayKind, to: Option<string>, payload: Payload)
    ensures var outs := Relay(s, sock, kind, to, payload);
            && |outs| <= 1
            && forall o :: o in outs ==> o.to in s.active.Values || o.to == sock.sid
  {
  }

  /** Forwarded messages tag the sender under the name each kind uses on the
      wire: `caller` for calls and call ends, `answerer` for answers, `sender`
      for errors and candidates, `rejector` for rejections. */
  lemma ForwardedTagNames(sender: Option<Id>, p: Payload)
    ensures Forwarded(Call, sender, p) == Message("incomingCall", map["caller" := Who(sender), "offer" := Data(p)])
    ensures Forwarded(Answer, sender, p) == Message("callAnswered", map["answerer" := Who(sender), "answer" := Data(p)])
    ensures Forwarded(Error, sender, p) == Message("callError", map["sender" := Who(sender), "error" := Data(p)])
    ensures Forwarded(Ice, sender, p) == Message("ice-candidate", map["sender" := Who(sender), "candidate" := Data(p)])
    ensures Forwarded(End, sender, p) == Message("callEnded", map["caller" := Who(sender)])
    ensures Forwarded(Reject, sender, p) == Message("callRejected", map["rejector" := Who(sender)])
  {
  }

  /** An undefined address is looked up as the identity "undefined". */
  lemma UndefinedAddressResolvesLiterally(s: State, sock: Socket, kind: RelayKind, payload: Payload)
    ensures Relay(s, sock, kind, None, payload) == Relay(s, sock, kind, Some("undefined"), payload)
  {
  }
}
