/** The `/accept-invite?inviteId=…` page. An implicit-grant fragment is forwarded to
    `/auth/callback` with this page as `next`; then the page waits for a session and
    posts the acceptance. */
module AcceptInvitePage {
  import opened Common
  import opened Query
  import opened UrlCoding
  import opened Polling
  import opened InviteAccept

  /** The fragment fields forwarded, in copy order. */
  const ForwardKeys := ["access_token", "refresh_token", "expires_in", "expires_at", "token_type", "type",
                        "provider_token"]

  /** Retries after the first session check. */
  const Retries: nat := 20

  const NoSessionMessage := "No session found. Please click the invite and set your password."

  /** `params.get('inviteId') ?? ''`. */
  function InviteIdOf(params: Params): string {
    Get(params, "inviteId").GetOr("")
  }

  /** The `next` the forwarded link carries. */
  function ReturnPath(inviteId: string): string {
    "/accept-invite?inviteId=" + inviteId
  }

  lemma ForwardKeysFacts()
    ensures Distinct(ForwardKeys) && "next" !in ForwardKeys
  {
  }

  /** The forwarded query: `next`, then the present, non-empty whitelisted fields. */
  function ForwardedQuery(frag: Params, inviteId: string): Params {
    [Param("next", ReturnPath(inviteId))] + Present(frag, ForwardKeys)
  }

  /** The forwarded query names this page, with its invitation, as `next`, and holds
      exactly the whitelisted fields that the fragment has with a non-empty value. */
  lemma ForwardedContents(frag: Params, inviteId: string, k: string)
    ensures Get(ForwardedQuery(frag, inviteId), "next") == Some(ReturnPath(inviteId))
    ensures k in ForwardKeys ==>
      Get(ForwardedQuery(frag, inviteId), k) == if Truthy(Get(frag, k)) then Get(frag, k) else None
    ensures k != "next" && k !in ForwardKeys ==> !HasKey(ForwardedQuery(frag, inviteId), k)
  {
    var head := [Param("next", ReturnPath(inviteId))];
    ForwardKeysFacts();
    GetPresent(frag, ForwardKeys, k);
    GetConcat(head, Present(frag, ForwardKeys), k);
  }

  /** The first effect: `None` when the location's fragment does not start with
      `#access_token`, else the forwarding target. */
  method ForwardFragment(hash: string, inviteId: string) returns (target: Option<string>)
    ensures target.None? <==> !("#access_token" <= hash)
    ensures target.Some? ==>
      ParseTarget(target.value) ==
      Target("/auth/callback", ForwardedQuery(Parse(hash[1..]), inviteId), "")
  {
    if !("#access_token" <= hash) {
      return None;
    }
    var q := ForwardQuery(Parse(hash[1..]), inviteId);
    ParseQueryTarget("/auth/callback", q);
    return Some("/auth/callback" + "?" + Serialize(q));
  }

  /** The `set` calls that build the forwarded query. */
  method ForwardQuery(frag: Params, inviteId: string) returns (q: Params)
    ensures q == ForwardedQuery(frag, inviteId)
  {
    q := [];
    SetFresh(q, "next", ReturnPath(inviteId));
    q := Set(q, "next", ReturnPath(inviteId));
    assert q == [Param("next", ReturnPath(inviteId))];
    ForwardKeysFacts();
    assert forall i :: 0 <= i < |ForwardKeys| ==> ForwardKeys[i] != "next";
    q := CopyPresent(frag, q, ForwardKeys);
  }

  /** The redirect after an accepted invitation. */
  function SuccessTarget(): string {
    "/org" + "?" + (("toast" + "=" + Encode(Component, "Invite accepted")) + "&" + ("kind" + "=" + "success"))
  }

  /** The page's message after a refused acceptance: the route's `error`, else a
      fallback. */
  function FailureMessage(reply: AcceptReply): string {
    if AcceptError(reply) != "" then AcceptError(reply) else "Failed to accept invite"
  }

  class Page {
    var msg: string

    constructor ()
      ensures msg == "Finishing your invite…"
    {
      msg := "Finishing your invite…";
    }

    /** The second effect. `polls` answers the session checks and `reply` is the
        acceptance route's answer. `accepted` says whether the acceptance was posted,
        `checks` counts the session checks, and `nav` is the redirect. */
    method AwaitAndAccept(inviteId: string, polls: seq<bool>, reply: AcceptReply)
      returns (accepted: bool, checks: nat, nav: Option<string>)
      modifies this`msg
      ensures inviteId == "" ==> !accepted && checks == 0 && nav.None? && msg == old(msg)
      ensures checks <= Retries + 1
      ensures inviteId != "" ==>
        (accepted <==> FirstHit(polls, Retries + 1).Some?) &&
        (accepted ==> checks == FirstHit(polls, Retries + 1).value + 1) &&
        (!accepted ==> checks == Retries + 1 && msg == NoSessionMessage && nav.None?)
      ensures accepted && reply == Accepted ==> nav == Some(SuccessTarget()) && msg == "Accepting your invite…"
      ensures accepted && reply != Accepted ==> nav.None? && msg == FailureMessage(reply)
    {
      accepted, checks, nav := false, 0, None;
      if inviteId == "" {
        return;
      }
      var tries := 0;
      while true
        invariant 0 <= tries <= Retries && checks == tries
        invariant forall j :: 0 <= j < checks ==> !SessionAt(polls, j)
        decreases Retries - tries
      {
        var session := SessionAt(polls, checks);
        checks := checks + 1;
        if session {
          break;
        }
        if tries < Retries {
          tries := tries + 1;
        } else {
          msg := NoSessionMessage;
          assert FirstHit(polls, Retries + 1).None?;
          return;
        }
      }
      assert FirstHit(polls, Retries + 1) == Some(checks - 1);
      msg := "Accepting your invite…";
      accepted := true;
      if reply != Accepted {
        msg := FailureMessage(reply);
        return;
      }
      nav := Some(SuccessTarget());
    }
  }
}
