/** Types shared by every part of the model. */
module Common {

  /** A value that may be missing: JavaScript's `null` / `undefined`. */
  datatype Option<+T> = None | Some(value: T) {

    /** The `x ?? d` operator. */
    function GetOr(default: T): T {
      if Some? then value else default
    }
  }

  /** The three roles a member can hold in an organisation. */
  datatype Role = Owner | Editor | Viewer

  /** The rule `role !== 'viewer'` that derives a membership's edit capability. */
  predicate CanEdit(r: Role) {
    r != Viewer
  }

  /** The `role === 'owner' || role === 'editor'` gate shared by the management routes. */
  predicate ManagesOrg(r: Role) {
    r == Owner || r == Editor
  }

  /** The result of one call into the identity service or the store: it succeeded, or it
      failed with a message (`{ error }` in the client library's answer). */
  datatype Outcome = Done | Failed(message: string)
}
