/** `createClient` in the browser: before the identity client starts, a stale `code`
    query parameter (from an old PKCE link) is removed from the address bar, unless
    implicit-flow tokens are present. */
module BrowserClient {
  import opened Text
  import opened Query
  import opened Browser

  /** Tokens of the implicit flow in the query or in the fragment. */
  predicate HasImplicitTokens(url: Target) {
    HasKey(url.query, "access_token") || HasKey(url.query, "refresh_token") || Contains(url.hash, "access_token=")
  }

  /** The location after sanitising. */
  function Sanitised(url: Target): (r: Target)
    ensures r.path == url.path && r.hash == url.hash
    ensures HasKey(r.query, "code") <==> HasKey(url.query, "code") && HasImplicitTokens(url)
    ensures r != url ==> HasKey(url.query, "code") && r.query == Delete(url.query, "code")
  {
    if HasKey(url.query, "code") && !HasImplicitTokens(url) then url.(query := Delete(url.query, "code"))
    else url
  }

  /** Only `code` goes: every other parameter reads as before, and tokens in the URL
      leave it untouched. */
  lemma SanitisedKeepsOthers(url: Target, k: string)
    requires k != "code"
    ensures Get(Sanitised(url).query, k) == Get(url.query, k)
    ensures HasImplicitTokens(url) ==> Sanitised(url) == url
  {
    DeleteGet(url.query, "code", k);
  }

  /** A second sanitising changes nothing. */
  lemma SanitisedIdempotent(url: Target)
    ensures Sanitised(Sanitised(url)) == Sanitised(url)
  {
  }

  /** The sanitising step of `createClient`; a failure in it (`fault`) is swallowed and
      leaves the location as it was. The client itself is then created either way. */
  method CreateClient(w: Window, fault: bool)
    modifies w`url
    ensures w.url == if fault then old(w.url) else Sanitised(old(w.url))
  {
    if fault {
      return;
    }
    var url := w.url;
    var hasCode := HasKey(url.query, "code");
    var hasImplicitTokens := HasKey(url.query, "access_token") || HasKey(url.query, "refresh_token")
                             || Contains(url.hash, "access_token=");
    if hasCode && !hasImplicitTokens {
      url := url.(query := Delete(url.query, "code"));
      w.url := url;
    }
  }
}
