/** The `/match` request handler: pick any active user other than the
    requester, or put the requester on the waiting list. */
module Matchmaking {
  import opened Js
  import opened Model
  import opened Filtering

  const MissingIdError := "사용자 ID가 필요합니다"
  const NoMatchError := "현재 매칭 가능한 사용자가 없습니다"

  datatype MatchResponse =
    | MissingUserId            // HTTP 400
    | NoMatchAvailable         // HTTP 404
    | Matched(matchedUserId: Id) // HTTP 200 with `{ matchedUserId }`
  {
    /** The HTTP status the response is sent with. */
    function Status(): (code: int)
      ensures code == 400 <==> MissingUserId?
      ensures code == 404 <==> NoMatchAvailable?
      ensures code == 200 <==> Matched?
    {
      match this
      case MissingUserId => 400
      case NoMatchAvailable => 404
      case Matched(_) => 200
    }

    /** The `error` text of the JSON body; a match carries none. */
    function Error(): (e: Option<string>)
      ensures e.None? <==> Matched?
      ensures MissingUserId? ==> e == Some(MissingIdError)
      ensures NoMatchAvailable? ==> e == Some(NoMatchError)
    {
      match this
      case MissingUserId => Some(MissingIdError)
      case NoMatchAvailable => Some(NoMatchError)
      case Matched(_) => None
    }
  }

  /** `keys` is what `Object.keys(active)` returns: every key once, in an
      order chosen by the host (the model does not fix that order). */
  predicate IsEnumeration(keys: seq<Id>, active: map<Id, Handle>) {
    && (forall i, j :: 0 <= i < j < |keys| ==> keys[i] != keys[j])
    && (forall i :: 0 <= i < |keys| ==> keys[i] in active)
    && (forall k :: k in active ==> k in keys)
  }

  /** `Math.floor(rand * n)` for a draw `rand` of `Math.random()`. */
  function RandomIndex(rand: real, n: nat): (i: nat)
    requires 0.0 <= rand < 1.0
    requires n > 0
    ensures i < n
  {
    assert rand * (n as real) < n as real by {
      assert (1.0 - rand) * (n as real) > 0.0;
    }
    (rand * (n as real)).Floor
  }

  /** The users that may be matched with `userId`, in `keys` order. */
  function Candidates(keys: seq<Id>, userId: Id): (c: seq<Id>)
  {
    RemoveAll(keys, {userId})
  }

  /** One `/match` request. `userId` is the query parameter (None when it is
      absent), `keys` the enumeration of `active` and `rand` the random draw. */
  function Match(s: State, userId: Option<string>, keys: seq<Id>, rand: real): (r: (State, MatchResponse))
    requires IsEnumeration(keys, s.active)
    requires 0.0 <= rand < 1.0
    // a missing or empty userId is rejected and nothing changes
    ensures r.1.MissingUserId? <==> !Truthy(userId)
    ensures !Truthy(userId) ==> r.0 == s
    // a match is produced exactly when another active user exists
    ensures r.1.Matched? <==> Truthy(userId) && exists k :: k in s.active && k != userId.value
    // the match is an active user other than the requester
    ensures r.1.Matched? ==> r.1.matchedUserId in s.active && r.1.matchedUserId != userId.value
    // after a match neither party waits, everybody else keeps waiting, nothing else changes
    ensures r.1.Matched? ==>
      && r.0.active == s.active
      && r.0.calls == s.calls
      && r.0.waiting == RemoveAll(s.waiting, {userId.value, r.1.matchedUserId})
    // with nobody else active the requester is appended, even if already waiting
    ensures r.1.NoMatchAvailable? ==>
      && Truthy(userId)
      && r.0 == s.(waiting := s.waiting + [userId.value])
  {
    if !Truthy(userId) then
      (s, MissingUserId)
    else
      var uid := userId.value;
      var available := Candidates(keys, uid);
      if |available| == 0 then
        assert forall k :: k in s.active ==> k == uid by {
          forall k | k in s.active ensures k == uid {
            assert k in keys;
          }
        }
        (s.(waiting := s.waiting + [uid]), NoMatchAvailable)
      else
        var matched := available[RandomIndex(rand, |available|)];
        assert matched in available;
        (s.(waiting := RemoveAll(s.waiting, {uid, matched})), Matched(matched))
  }

  /** Every other active user can be the one picked: for each candidate some
      random draw selects it. */
  lemma MatchCanPickAnyCandidate(s: State, uid: Id, keys: seq<Id>, c: Id)
    requires IsEnumeration(keys, s.active)
    requires uid != ""
    requires c in s.active && c != uid
    ensures exists rand: real :: 0.0 <= rand < 1.0 && Match(s, Some(uid), keys, rand).1 == Matched(c)
  {
    var available := Candidates(keys, uid);
    assert c in keys;
    assert c in available;
    var i :| 0 <= i < |available| && available[i] == c;
    var rand := DrawFor(i, |available|);
    assert Match(s, Some(uid), keys, rand).1 == Matched(c);
  }

  /** The draw `i / n` selects index `i`. */
  lemma DrawFor(i: nat, n: nat) returns (rand: real)
    requires i < n
    ensures 0.0 <= rand < 1.0
    ensures RandomIndex(rand, n) == i
  {
    rand := (i as real) / (n as real);
    assert rand * (n as real) == i as real;
  }

  /** The waiting list is not deduplicated: two unmatched requests by the same
      user leave two entries. */
  lemma RepeatedRequestsAppendTwice(s: State, uid: Id, keys: seq<Id>, rand1: real, rand2: real)
    requires IsEnumeration(keys, s.active)
    requires 0.0 <= rand1 < 1.0 && 0.0 <= rand2 < 1.0
    requires uid != ""
    requires forall k :: k in s.active ==> k == uid
    ensures var (s1, r1) := Match(s, Some(uid), keys, rand1);
            var (s2, r2) := Match(s1, Some(uid), keys, rand2);
            && r1 == NoMatchAvailable && r2 == NoMatchAvailable
            && s2 == s.(waiting := s.waiting + [uid, uid])
  {
    var (s1, r1) := Match(s, Some(uid), keys, rand1);
    assert s1.active == s.active;
    assert s.waiting + [uid] + [uid] == s.waiting + [uid, uid];
  }

  /** Matching never touches presence or the acceptance map, and never lets the
      requester or its match stay on the waiting list. */
  lemma MatchLeavesPartiesOffWaitingList(s: State, uid: Id, keys: seq<Id>, rand: real)
    requires IsEnumeration(keys, s.active)
    requires 0.0 <= rand < 1.0
    requires uid != ""
    ensures var (s', r) := Match(s, Some(uid), keys, rand);
            && s'.active == s.active && s'.calls == s.calls
            && (r.Matched? ==> uid !in s'.waiting && r.matchedUserId !in s'.waiting)
            && (r.NoMatchAvailable? ==> s'.waiting[|s'.waiting| - 1] == uid)
  {
  }
}
