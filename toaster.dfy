/** The toaster: messages arrive from a `?toast=…&kind=…` query or from in-app
    `toast` events, get increasing ids, and each leaves by its id when its timer fires. */
module Toaster {
  import opened Common
  import opened UrlCoding
  import opened Query
  import opened Browser
  import AcceptInvitePage
  import NewPasswordPage
  import Sidebar
  import ProcessItem
  import ProcessForm

  /** One message; the kind is absent when an event did not give one. */
  datatype Toast = Toast(id: nat, text: string, kind: Option<string>)

  /** The ids strictly increase along the list. */
  predicate Increasing(ts: seq<Toast>) {
    forall i, j :: 0 <= i < j < |ts| ==> ts[i].id < ts[j].id
  }

  /** `prev.filter(x => x.id !== id)`. */
  function Without(ts: seq<Toast>, id: nat): (r: seq<Toast>)
    ensures forall t :: t in r <==> t in ts && t.id != id
    ensures |r| <= |ts|
  {
    if ts == [] then []
    else if ts[0].id == id then Without(ts[1..], id)
    else [ts[0]] + Without(ts[1..], id)
  }

  /** Filtering keeps the order, so the ids still increase. */
  lemma {:induction false} WithoutIncreasing(ts: seq<Toast>, id: nat)
    requires Increasing(ts)
    ensures Increasing(Without(ts, id))
  {
    if ts != [] {
      WithoutIncreasing(ts[1..], id);
      var rest := Without(ts[1..], id);
      if ts[0].id != id {
        forall t | t in rest
          ensures ts[0].id < t.id
        {
          var k :| 0 <= k < |ts[1..]| && ts[1..][k] == t;
          assert ts[k + 1] == t;
        }
        assert Without(ts, id) == [ts[0]] + rest;
      }
    }
  }

  /** A timer whose message is no longer shown changes nothing. */
  lemma {:induction false} WithoutAbsent(ts: seq<Toast>, id: nat)
    requires forall i :: 0 <= i < |ts| ==> ts[i].id != id
    ensures Without(ts, id) == ts
  {
    if ts != [] {
      assert forall i :: 0 <= i < |ts[1..]| ==> ts[1..][i].id != id;
      WithoutAbsent(ts[1..], id);
      assert [ts[0]] + ts[1..] == ts;
    }
  }

  /** With distinct ids a timer removes exactly the one message it belongs to. */
  lemma {:induction false} WithoutPresent(ts: seq<Toast>, id: nat, k: nat)
    requires Increasing(ts)
    requires k < |ts| && ts[k].id == id
    ensures |Without(ts, id)| == |ts| - 1
  {
    if k == 0 {
      assert forall i :: 0 <= i < |ts[1..]| ==> ts[1..][i].id != id;
      WithoutAbsent(ts[1..], id);
    } else {
      assert Increasing(ts[1..]);
      assert ts[1..][k - 1].id == id;
      WithoutPresent(ts[1..], id, k - 1);
    }
  }

  /** What the query hands the URL effect: `get('toast')` decoded once more by
      `decodeURIComponent`, and `get('kind') || 'success'`. `None` when the parameter is
      missing or empty, and when the second decoding throws. */
  function UrlToast(q: Params): (r: Option<(string, string)>)
    ensures r.Some? ==> Truthy(Get(q, "toast")) && UriDecode(Get(q, "toast").value) == Some(r.value.0)
    ensures r.Some? ==> r.value.1 != ""
    ensures Truthy(Get(q, "toast")) && UriDecode(Get(q, "toast").value).Some? ==> r.Some?
  {
    var msg := Get(q, "toast");
    if Truthy(msg) then
      match UriDecode(msg.value)
      case Some(text) => Some((text, GetOr(q, "kind", "success")))
      case None => None
    else None
  }

  /** The card colour of a kind. */
  function Background(kind: Option<string>): (colour: string)
    ensures kind == Some("error") <==> colour == "#fee2e2"
    ensures kind == Some("info") <==> colour == "#e0f2fe"
    ensures kind != Some("error") && kind != Some("info") <==> colour == "#dcfce7"
  {
    if kind == Some("error") then "#fee2e2" else if kind == Some("info") then "#e0f2fe" else "#dcfce7"
  }

  class Toaster {
    /** The shown messages, oldest first. */
    var toasts: seq<Toast>
    /** `idRef.current`: the id of the next message. */
    var nextId: nat

    /** The ids run upwards from 1 and stay below the next one. */
    predicate Valid()
      reads this
    {
      nextId >= 1 && Increasing(toasts) &&
      forall i :: 0 <= i < |toasts| ==> 1 <= toasts[i].id < nextId
    }

    /** `null` is rendered while there is nothing to show. */
    predicate RendersNothing()
      reads this
    {
      |toasts| == 0
    }

    constructor ()
      ensures Valid() && toasts == [] && nextId == 1
    {
      toasts := [];
      nextId := 1;
    }

    /** `push`: the message joins the end under the next id. */
    method Push(text: string, kind: Option<string>) returns (id: nat)
      requires Valid()
      modifies this
      ensures Valid()
      ensures id == old(nextId) && nextId == old(nextId) + 1
      ensures toasts == old(toasts) + [Toast(id, text, kind)]
    {
      id := nextId;
      nextId := nextId + 1;
      toasts := toasts + [Toast(id, text, kind)];
    }

    /** The auto-hide timer of message `id`. */
    method Dismiss(id: nat)
      requires Valid()
      modifies this`toasts
      ensures Valid()
      ensures toasts == Without(old(toasts), id)
    {
      WithoutIncreasing(toasts, id);
      toasts := Without(toasts, id);
    }

    /** The URL effect: a readable `toast` parameter becomes a message, and `toast` and
        `kind` leave the address; otherwise nothing happens. */
    method ConsumeUrl(w: Window)
      requires Valid()
      modifies this, w`url
      ensures Valid()
      ensures match UrlToast(old(w.url.query))
        case Some(p) =>
          toasts == old(toasts) + [Toast(old(nextId), p.0, Some(p.1))] && nextId == old(nextId) + 1 &&
          w.url == old(w.url).(query := Delete(Delete(old(w.url.query), "toast"), "kind"))
        case None => toasts == old(toasts) && nextId == old(nextId) && w.url == old(w.url)
    {
      var q := w.url.query;
      match UrlToast(q)
      case Some(p) =>
        var _ := Push(p.0, Some(p.1));
        w.url := w.url.(query := Delete(Delete(q, "toast"), "kind"));
      case None =>
    }

    /** The `toast` event handler: a detail with a text is pushed as it is. */
    method OnEvent(detail: Option<(string, Option<string>)>)
      requires Valid()
      modifies this
      ensures Valid()
      ensures (detail.Some? && detail.value.0 != "") ==>
        toasts == old(toasts) + [Toast(old(nextId), detail.value.0, detail.value.1)] && nextId == old(nextId) + 1
      ensures !(detail.Some? && detail.value.0 != "") ==> toasts == old(toasts) && nextId == old(nextId)
    {
      if detail.Some? && detail.value.0 != "" {
        var _ := Push(detail.value.0, detail.value.1);
      }
    }
  }

  // ---------------------------------------------------------------------------
  // The toast links of the pages

  /** The shape of every toast link: `path?toast=<encodeURIComponent(text)>&kind=<kind>`. */
  function ToastLink(path: string, text: string, kind: string): string {
    path + "?" + (("toast" + "=" + Encode(Component, text)) + "&" + ("kind" + "=" + kind))
  }

  lemma NamesKept()
    ensures forall i :: 0 <= i < |"toast"| ==> Keeps(Form, "toast"[i])
    ensures forall i :: 0 <= i < |"kind"| ==> Keeps(Form, "kind"[i])
  {
  }

  /** A toast link for a text without `%` and a plain kind shows that text with that
      kind, and leaves the address without a query. */
  lemma ToastLinkShows(path: string, text: string, kind: string)
    requires '?' !in path && '#' !in path
    requires text != "" && '%' !in text
    requires kind != "" && forall i :: 0 <= i < |kind| ==> Keeps(Form, kind[i])
    ensures var q := ParseTarget(ToastLink(path, text, kind)).query;
      UrlToast(q) == Some((text, kind)) && Delete(Delete(q, "toast"), "kind") == []
  {
    LinkQuery(path, text, kind);
    PairToast(text, kind);
  }

  lemma LinkQuery(path: string, text: string, kind: string)
    requires '?' !in path && '#' !in path
    requires forall i :: 0 <= i < |kind| ==> Keeps(Form, kind[i])
    ensures ParseTarget(ToastLink(path, text, kind)).query == [Param("toast", text), Param("kind", kind)]
  {
    NamesKept();
    EncodeKept(Form, kind);
    TargetOfTwoPieces(path, "toast", Component, text, "kind", Form, kind);
  }

  lemma PairToast(text: string, kind: string)
    requires text != "" && '%' !in text && kind != ""
    ensures var q := [Param("toast", text), Param("kind", kind)];
      UrlToast(q) == Some((text, kind)) && Delete(Delete(q, "toast"), "kind") == []
  {
    var q := [Param("toast", text), Param("kind", kind)];
    UriDecodePlain(text);
    assert "kind" != "toast";
    assert q[1..] == [Param("kind", kind)];
    assert Get(q, "toast") == Some(text);
    assert Get(q, "kind") == Get(q[1..], "kind") == Some(kind);
    assert Delete(q, "toast") == [Param("kind", kind)];
  }

  /** A text with a `%` is decoded twice, the second time from bare `%`: the effect
      throws and the message never appears. */
  lemma PercentToastLost(path: string, prefix: string)
    requires '?' !in path && '#' !in path
    ensures var q := ParseTarget(path + "?" + ("toast" + "=" + Encode(Component, prefix + "%"))).query;
      Get(q, "toast") == Some(prefix + "%") && UrlToast(q) == None
  {
    NamesKept();
    TargetOfOnePiece(path, "toast", Component, prefix + "%");
    UriDecodeMalformed(prefix);
  }

  lemma SuccessKept()
    ensures forall i :: 0 <= i < |"success"| ==> Keeps(Form, "success"[i])
    ensures forall i :: 0 <= i < |"info"| ==> Keeps(Form, "info"[i])
  {
  }

  lemma AcceptInviteLink()
    ensures AcceptInvitePage.SuccessTarget() == ToastLink("/org", "Invite accepted", "success")
  {
  }

  /** After an accepted invitation `/org` shows "Invite accepted" as a success. */
  lemma AcceptInviteToast()
    ensures UrlToast(ParseTarget(AcceptInvitePage.SuccessTarget()).query) == Some(("Invite accepted", "success"))
  {
    SuccessKept();
    ToastLinkShows("/org", "Invite accepted", "success");
    AcceptInviteLink();
  }

  /** After the new-password page `/org` shows its success text. */
  lemma NewPasswordToast(inviteId: string)
    ensures UrlToast(ParseTarget(NewPasswordPage.SuccessTarget(inviteId)).query) ==
      Some((NewPasswordPage.SuccessToast(inviteId), "success"))
  {
    SuccessKept();
    var text := NewPasswordPage.SuccessToast(inviteId);
    assert '%' !in "Invitation acceptée";
    assert '%' !in "Mot de passe mis à jour";
    assert NewPasswordPage.SuccessTarget(inviteId) == ToastLink("/org", text, "success");
    ToastLinkShows("/org", text, "success");
  }

  /** After signing out from the sidebar `/login` shows "Signed out" as information. */
  lemma LogoutToast()
    ensures UrlToast(ParseTarget(Sidebar.LogoutTarget()).query) == Some(("Signed out", "info"))
    ensures Background(Some("info")) == "#e0f2fe"
  {
    SuccessKept();
    ToastLinkShows("/login", "Signed out", "info");
    LogoutLink();
  }

  lemma LogoutLink()
    ensures Sidebar.LogoutTarget() == ToastLink("/login", "Signed out", "info")
  {
  }

  lemma CreatedLink()
    ensures ProcessForm.CreatedTarget() == ToastLink("/processes", "Process created", "success")
  {
  }

  lemma UpdatedLink()
    ensures ProcessItem.UpdatedTarget() == ToastLink("/processes", "Process updated", "success")
  {
  }

  lemma DeletedLink()
    ensures ProcessItem.DeletedTarget() == ToastLink("/processes", "Process deleted", "success")
  {
  }

  /** The processes page announces a creation ... */
  lemma CreatedToast()
    ensures UrlToast(ParseTarget(ProcessForm.CreatedTarget()).query) == Some(("Process created", "success"))
  {
    SuccessKept();
    ToastLinkShows("/processes", "Process created", "success");
    CreatedLink();
  }

  /** ... an update ... */
  lemma UpdatedToast()
    ensures UrlToast(ParseTarget(ProcessItem.UpdatedTarget()).query) == Some(("Process updated", "success"))
  {
    SuccessKept();
    ToastLinkShows("/processes", "Process updated", "success");
    UpdatedLink();
  }

  /** ... and a deletion. */
  lemma DeletedToast()
    ensures UrlToast(ParseTarget(ProcessItem.DeletedTarget()).query) == Some(("Process deleted", "success"))
  {
    SuccessKept();
    ToastLinkShows("/processes", "Process deleted", "success");
    DeletedLink();
  }
}
