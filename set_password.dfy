/** The `/set-password` shim: it keeps only the `em` parameter and moves on to
    `/auth/recovery`. */
module SetPassword {
  import opened Query

  /** `qs`: a fresh query that receives `em` only when it is non-empty. */
  function ShimQuery(sp: Params): Params {
    var em := GetOr(sp, "em", "");
    if em != "" then Set([], "em", em) else []
  }

  /** The one navigation the page makes. */
  function ShimTarget(sp: Params): string {
    WithQuery("/auth/recovery", ShimQuery(sp))
  }

  /** `qs` holds exactly the pair `em` for a non-empty `em`, and nothing otherwise. */
  lemma ShimQueryContents(sp: Params)
    ensures ShimQuery(sp) == if GetOr(sp, "em", "") != "" then [Param("em", GetOr(sp, "em", ""))] else []
  {
    var em := GetOr(sp, "em", "");
    if em != "" {
      SetFresh([], "em", em);
    }
  }

  /** The target is `/auth/recovery` with that query and no fragment: every parameter
      other than `em`, `inviteId` included, is dropped. */
  lemma ShimKeepsOnlyEmail(sp: Params)
    ensures var t := ParseTarget(ShimTarget(sp));
      t == Target("/auth/recovery", ShimQuery(sp), "") &&
      (forall k :: k != "em" ==> Get(t.query, k).None?)
  {
    ShimQueryContents(sp);
    ParseWithQuery("/auth/recovery", ShimQuery(sp));
  }

  /** Without `em` the target is exactly `/auth/recovery`. */
  lemma ShimWithoutEmail(sp: Params)
    requires GetOr(sp, "em", "") == ""
    ensures ShimTarget(sp) == "/auth/recovery"
  {
    SerializeEmpty([]);
  }
}
