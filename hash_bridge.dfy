/** The `/auth/cb` page: it forwards an authentication artifact found in the link to
    `/auth/callback` as query parameters, with the destination `next`. A `code` or a
    `token`/`type` pair in the query is forwarded as the whole query; an implicit-grant
    answer in the fragment (section 4.2.2 of RFC 6749) is forwarded as its two tokens and
    a fixed list of companion fields. Without either, the page goes straight to `next`. */
module HashBridge {
  import opened Common
  import opened Query

  const Callback := "/auth/callback"

  /** The fragment fields copied besides the two tokens, in copy order. */
  const ExtraKeys := ["expires_in", "expires_at", "token_type", "type", "provider_token"]

  /** `sp.get('next') || '/'`. */
  function Next(search: Params): string {
    GetOr(search, "next", "/")
  }

  /** The query carries an artifact: a `code`, or both `token` and `type`. */
  predicate QueryArtifact(search: Params) {
    Truthy(Get(search, "code")) || (Truthy(Get(search, "token")) && Truthy(Get(search, "type")))
  }

  /** `new URLSearchParams(location.hash.slice(1))`. */
  function FragmentParams(hash: string): Params {
    if hash == [] then [] else Parse(hash[1..])
  }

  /** The fragment carries both tokens. */
  predicate FragmentTokens(hash: string) {
    |hash| > 0 && hash[0] == '#' &&
    Truthy(Get(FragmentParams(hash), "access_token")) && Truthy(Get(FragmentParams(hash), "refresh_token"))
  }

  /** The query forwarded for fragment tokens. */
  function FragmentQuery(hp: Params, next: string): Params
    requires Truthy(Get(hp, "access_token")) && Truthy(Get(hp, "refresh_token"))
  {
    TokensQuery(hp, ExtraKeys, Get(hp, "access_token").value, Get(hp, "refresh_token").value, next)
  }

  lemma ExtraKeysFacts()
    ensures Distinct(ExtraKeys)
    ensures "access_token" !in ExtraKeys && "refresh_token" !in ExtraKeys && "next" !in ExtraKeys
  {
  }

  /** The forwarded query for tokens `at`, `rt`, the fields `keys` of `hp` and `next`. */
  function TokensQuery(hp: Params, keys: seq<string>, at: string, rt: string, next: string): Params {
    [Param("access_token", at), Param("refresh_token", rt)] + (Present(hp, keys) + [Param("next", next)])
  }

  /** The forwarded query reads the two tokens and `next`, for any list of field names
      that leaves out those three. */
  lemma TokensQueryNamed(hp: Params, keys: seq<string>, at: string, rt: string, next: string)
    requires "access_token" !in keys && "refresh_token" !in keys && "next" !in keys
    ensures var q := TokensQuery(hp, keys, at, rt, next);
      Get(q, "access_token") == Some(at) && Get(q, "refresh_token") == Some(rt) && Get(q, "next") == Some(next)
  {
    var tokens := [Param("access_token", at), Param("refresh_token", rt)];
    var mid := Present(hp, keys);
    GetPresent(hp, keys, "next");
    GetConcat(mid, [Param("next", next)], "next");
    GetConcat(tokens, mid + [Param("next", next)], "next");
  }

  /** The forwarded query reads each field of `keys` exactly when `hp` has it with a
      non-empty value. */
  lemma TokensQueryFields(hp: Params, keys: seq<string>, at: string, rt: string, next: string, k: string)
    requires "access_token" !in keys && "refresh_token" !in keys && "next" !in keys
    requires k in keys
    ensures Get(TokensQuery(hp, keys, at, rt, next), k) == if Truthy(Get(hp, k)) then Get(hp, k) else None
  {
    var tokens := [Param("access_token", at), Param("refresh_token", rt)];
    var mid := Present(hp, keys);
    GetPresent(hp, keys, k);
    GetConcat(mid, [Param("next", next)], k);
    GetConcat(tokens, mid + [Param("next", next)], k);
  }

  /** The forwarded fragment query holds the two tokens, `next`, and each companion field
      exactly when the fragment has it with a non-empty value; nothing else. */
  lemma FragmentQueryContents(hp: Params, next: string)
    requires Truthy(Get(hp, "access_token")) && Truthy(Get(hp, "refresh_token"))
    ensures var q := FragmentQuery(hp, next);
      Get(q, "access_token") == Get(hp, "access_token") &&
      Get(q, "refresh_token") == Get(hp, "refresh_token") &&
      Get(q, "next") == Some(next) &&
      (forall k :: k in ExtraKeys ==> Get(q, k) == if Truthy(Get(hp, k)) then Get(hp, k) else None) &&
      (forall p :: p in q ==> p.key == "access_token" || p.key == "refresh_token" || p.key == "next" || p.key in ExtraKeys)
  {
    var at := Get(hp, "access_token").value;
    var rt := Get(hp, "refresh_token").value;
    ExtraKeysFacts();
    assert FragmentQuery(hp, next) == TokensQuery(hp, ExtraKeys, at, rt, next);
    TokensQueryNamed(hp, ExtraKeys, at, rt, next);
    forall k | k in ExtraKeys
      ensures Get(FragmentQuery(hp, next), k) == if Truthy(Get(hp, k)) then Get(hp, k) else None
    {
      TokensQueryFields(hp, ExtraKeys, at, rt, next, k);
    }
    PresentOnlyKeys(hp, ExtraKeys);
  }

  /** A query sent to the callback arrives there as it was. */
  lemma CallbackTarget(q: Params)
    requires q != []
    ensures ParseTarget(Callback + "?" + Serialize(q)) == Target(Callback, q, "")
  {
    ParseQueryTarget(Callback, q);
  }

  /** The page's one navigation. */
  method Bridge(search: Params, hash: string) returns (target: string)
    ensures QueryArtifact(search) ==>
      ParseTarget(target) == Target(Callback, Set(search, "next", Next(search)), "")
    ensures !QueryArtifact(search) && FragmentTokens(hash) ==>
      ParseTarget(target) == Target(Callback, FragmentQuery(FragmentParams(hash), Next(search)), "")
    ensures !QueryArtifact(search) && !FragmentTokens(hash) ==> target == Next(search)
  {
    var next := GetOr(search, "next", "/");
    assert next == Next(search);
    if Truthy(Get(search, "code")) || (Truthy(Get(search, "token")) && Truthy(Get(search, "type"))) {
      assert QueryArtifact(search);
      var q := Set(search, "next", next);
      SetGet(search, "next", next);
      CallbackTarget(q);
      return Callback + "?" + Serialize(q);
    }
    assert !QueryArtifact(search);
    if |hash| > 0 && hash[0] == '#' {
      var hp := Parse(hash[1..]);
      assert hp == FragmentParams(hash);
      var at := Get(hp, "access_token");
      var rt := Get(hp, "refresh_token");
      if Truthy(at) && Truthy(rt) {
        assert FragmentTokens(hash);
        var q := FragmentRequest(hp, at.value, rt.value, next);
        CallbackTarget(q);
        return Callback + "?" + Serialize(q);
      }
    }
    assert !FragmentTokens(hash);
    return next;
  }

  /** The `set` calls that build the forwarded fragment query. */
  method FragmentRequest(hp: Params, at: string, rt: string, next: string) returns (q: Params)
    ensures q == TokensQuery(hp, ExtraKeys, at, rt, next)
  {
    q := [];
    SetFresh(q, "access_token", at);
    q := Set(q, "access_token", at);
    SetFresh(q, "refresh_token", rt);
    q := Set(q, "refresh_token", rt);
    assert q == [Param("access_token", at), Param("refresh_token", rt)];
    ExtraKeysFacts();
    q := CopyPresent(hp, q, ExtraKeys);
    ghost var copied := q;
    PresentKeys(hp, ExtraKeys, "next");
    GetConcat([Param("access_token", at), Param("refresh_token", rt)], Present(hp, ExtraKeys), "next");
    assert !HasKey(q, "next");
    SetFresh(q, "next", next);
    q := Set(q, "next", next);
    assert q == copied + [Param("next", next)];
  }

  /** A forwarded query keeps every parameter of the link and reads `next` as the
      destination. */
  lemma ForwardedQuery(search: Params, k: string)
    ensures Get(Set(search, "next", Next(search)), "next") == Some(Next(search))
    ensures k != "next" ==> Get(Set(search, "next", Next(search)), k) == Get(search, k)
  {
    SetGet(search, "next", Next(search));
    if k != "next" {
      SetOther(search, "next", Next(search), k);
    }
  }
}
