/** The `acceptCall` socket handler: at most one `callAccepted` per
    (receiver, caller) key. */
module Acceptance {
  import opened Js
  import opened Model

  /** The key of `activeCalls`: the template string `${receiver}-${caller}`. */
  function AcceptKey(receiver: Option<Id>, caller: Option<string>): (k: string)
    ensures |k| == |ToJsString(receiver)| + 1 + |ToJsString(caller)|
    ensures k[|ToJsString(receiver)|] == '-'
    ensures k[..|ToJsString(receiver)|] == ToJsString(receiver)
    ensures k[|ToJsString(receiver)| + 1..] == ToJsString(caller)
  {
    ToJsString(receiver) + "-" + ToJsString(caller)
  }

  /** `acceptCall` from `sock` naming `caller`, at time `now`. */
  function AcceptCall(s: State, sock: Socket, caller: Option<string>, now: int): (r: (State, seq<Outbound>))
    // an absent caller: nothing is recorded or sent
    ensures ToJsString(caller) !in s.active ==> r == (s, [])
    // a key seen before: the duplicate is suppressed
    ensures AcceptKey(sock.userId, caller) in s.calls ==> r == (s, [])
    // otherwise the key is recorded and the caller is told, once
    ensures ToJsString(caller) in s.active && AcceptKey(sock.userId, caller) !in s.calls ==>
      && r.0 == s.(calls := s.calls[AcceptKey(sock.userId, caller) := CallRecord(caller, sock.userId, now)])
      && r.1 == [Outbound(s.active[ToJsString(caller)], Message("callAccepted", map["acceptor" := Who(sock.userId)]))]
    // afterwards the key is always recorded when the caller is present
    ensures ToJsString(caller) in s.active ==> AcceptKey(sock.userId, caller) in r.0.calls
    // a message is sent exactly when a new key is recorded
    ensures |r.1| <= 1
    ensures |r.1| == 1 <==> AcceptKey(sock.userId, caller) !in s.calls && AcceptKey(sock.userId, caller) in r.0.calls
    // presence and waiting list are untouched; recorded keys are kept
    ensures r.0.active == s.active && r.0.waiting == s.waiting
    ensures forall k :: k in s.calls ==> k in r.0.calls && r.0.calls[k] == s.calls[k]
  {
    var c := ToJsString(caller);
    if c !in s.active then
      (s, [])
    else
      var key := AcceptKey(sock.userId, caller);
      if key in s.calls then
        (s, [])
      else
        (s.(calls := s.calls[key := CallRecord(caller, sock.userId, now)]),
         [Outbound(s.active[c], Message("callAccepted", map["acceptor" := Who(sock.userId)]))])
  }

  /** Two accepts of the same call from the same connection, back to back,
      tell the caller at most once, and exactly once when the caller is present
      and the key is new. */
  lemma DoubleAcceptNotifiesOnce(s: State, sock: Socket, caller: Option<string>, t1: int, t2: int)
    ensures var (s1, o1) := AcceptCall(s, sock, caller, t1);
            var (s2, o2) := AcceptCall(s1, sock, caller, t2);
            && |o1| + |o2| <= 1
            && (|o1| + |o2| == 1 <==> ToJsString(caller) in s.active && AcceptKey(sock.userId, caller) !in s.calls)
  {
  }

  /** The key is unambiguous when the receiver's identity contains no `-`:
      different (receiver, caller) pairs then give different keys. */
  lemma {:induction false} AcceptKeyInjective(r1: Option<Id>, c1: Option<string>, r2: Option<Id>, c2: Option<string>)
    requires '-' !in ToJsString(r1) && '-' !in ToJsString(r2)
    requires AcceptKey(r1, c1) == AcceptKey(r2, c2)
    ensures ToJsString(r1) == ToJsString(r2) && ToJsString(c1) == ToJsString(c2)
  {
    var a, b := ToJsString(r1), ToJsString(r2);
    var k := AcceptKey(r1, c1);
    if |a| < |b| {
      assert false;
    } else if |b| < |a| {
      assert false;
    }
    assert a == k[..|a|];
    assert b == k[..|b|];
    assert ToJsString(c1) == k[|a| + 1..];
    assert ToJsString(c2) == k[|b| + 1..];
  }

  /** With a `-` inside an identity two different pairs share a key: once
      "a-b" has accepted "c", an accept by "a" of "b-c" is suppressed although
      "b-c" is present and was never told. */
  lemma AcceptKeyCollision(s: State, h: Handle, t1: int, t2: int)
    requires "c" in s.active && "b-c" in s.active
    requires "a-b-c" !in s.calls
    ensures var (s1, o1) := AcceptCall(s, Socket(h, Some("a-b")), Some("c"), t1);
            var (s2, o2) := AcceptCall(s1, Socket(h, Some("a")), Some("b-c"), t2);
            && |o1| == 1 && o2 == []
  {
    assert AcceptKey(Some("a-b"), Some("c")) == "a-b-c";
    assert AcceptKey(Some("a"), Some("b-c")) == "a-b-c";
  }
}
