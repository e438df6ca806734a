/** The deprecated `/auth/recovery` page: it forwards its whole query to
    `/auth/new-password`. */
module Recovery {
  import opened Query

  function RecoveryTarget(sp: Params): string {
    WithQuery("/auth/new-password", sp)
  }

  /** Every parameter arrives at `/auth/new-password` unchanged and in order; an empty
      query gives exactly `/auth/new-password`. */
  lemma RecoveryForwardsAll(sp: Params)
    ensures ParseTarget(RecoveryTarget(sp)) == Target("/auth/new-password", sp, "")
    ensures sp == [] ==> RecoveryTarget(sp) == "/auth/new-password"
  {
    ParseWithQuery("/auth/new-password", sp);
    SerializeEmpty(sp);
  }
}
