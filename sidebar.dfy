/** The sidebar: a fixed list of links, the active-link rule, and a collapsed flag kept
    in `localStorage`. */
module Sidebar {
  import opened UrlCoding
  import opened Browser

  datatype Item = Item(href: string, caption: string)

  const Top: seq<Item> := [
    Item("/", "Home"), Item("/processes", "Processes"), Item("/org", "Organization"),
    Item("/org/members", "Members"), Item("/org/invite", "Invite"), Item("/profile", "Profile")]

  /** A link is active on its own path and, except for Home, below it: a plain prefix
      test. Home is active on `/` alone. */
  predicate Active(pathname: string, href: string): (r: bool)
    ensures href == "/" ==> (r <==> pathname == "/")
    ensures href != "/" && href <= pathname ==> r
  {
    pathname == href || (href != "/" && href <= pathname)
  }

  /** On `/org/members` both the Organization and the Members links are active. */
  lemma NestedLinksBothActive()
    ensures Active("/org/members", Top[2].href) && Active("/org/members", Top[3].href)
    ensures !Active("/org/members", Top[4].href)
  {
    assert Top[2].href == "/org";
    assert "/org/members" == "/org" + "/members";
    assert Top[4].href == "/org/invite";
    assert "/org/invite"[5] != "/org/members"[5];
  }

  /** The storage key. */
  const CollapsedKey := "sidebar:collapsed"

  /** The flag the stored value stands for: exactly `'1'`. */
  predicate StoredCollapsed(storage: map<string, string>) {
    CollapsedKey in storage && storage[CollapsedKey] == "1"
  }

  /** The sign-out destination, with an information toast. */
  function LogoutTarget(): string {
    "/login" + "?" + (("toast" + "=" + Encode(Component, "Signed out")) + "&" + ("kind" + "=" + "info"))
  }

  class Panel {
    var collapsed: bool

    constructor ()
      ensures !collapsed
    {
      collapsed := false;
    }

    /** The storage stores the current flag. */
    predicate Persisted(w: Window)
      reads this, w
    {
      StoredCollapsed(w.storage) == collapsed
    }

    /** The mount effect: the flag is read from storage. */
    method Load(w: Window)
      modifies this`collapsed
      ensures collapsed == StoredCollapsed(w.storage)
      ensures Persisted(w)
    {
      collapsed := CollapsedKey in w.storage && w.storage[CollapsedKey] == "1";
    }

    /** `toggle`: the flag flips and `'1'` or `'0'` is stored to match it; nothing else
        in storage changes. */
    method Toggle(w: Window)
      modifies this`collapsed, w`storage
      ensures collapsed == !old(collapsed)
      ensures w.storage == old(w.storage)[CollapsedKey := if collapsed then "1" else "0"]
      ensures Persisted(w)
    {
      collapsed := !collapsed;
      w.storage := w.storage[CollapsedKey := if collapsed then "1" else "0"];
    }
  }
}
