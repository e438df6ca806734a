/** Session polls: the answers a page gets when it asks, check after check, whether a
    session is stored. */
module Polling {
  import opened Common

  /** The answer of check `i` (counted from 0); checks past the end of the script find
      no session. */
  predicate SessionAt(polls: seq<bool>, i: nat) {
    i < |polls| && polls[i]
  }

  /** The first of the checks `0 .. limit - 1` that finds a session. */
  function FirstHit(polls: seq<bool>, limit: nat): (r: Option<nat>)
    ensures r.Some? ==> r.value < limit && SessionAt(polls, r.value)
    ensures r.Some? ==> forall j :: 0 <= j < r.value ==> !SessionAt(polls, j)
    ensures r.None? <==> forall j :: 0 <= j < limit ==> !SessionAt(polls, j)
  {
    if limit == 0 then None
    else
      match FirstHit(polls, limit - 1)
      case Some(i) => Some(i)
      case None => if SessionAt(polls, limit - 1) then Some(limit - 1) else None
  }
}
