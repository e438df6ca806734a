/** `POST /api/auth/password`: the signed-in user sets a new password. */
module PasswordRoute {
  import opened Common
  import opened Text
  import Json
  import opened Store

  /** `!password || typeof password !== 'string' || password.length < 6` refuses. */
  predicate ValidPassword(v: Json.Value) {
    v.Str? && v.s != "" && Utf16Length(v.s) >= 6
  }

  datatype PasswordReply = PasswordUnauthenticated | InvalidPassword | UpdateFailed(message: string) | PasswordSet

  function PasswordStatus(r: PasswordReply): int {
    match r
    case PasswordUnauthenticated => 401
    case InvalidPassword => 400
    case UpdateFailed(_) => 400
    case PasswordSet => 200
  }

  /** The reply and the password handed to the identity service, if any. `user` is the
      cookie session's user, `authorization` the request's header, `updateError` the
      service's answer. */
  function SetPassword(user: Option<User>, authorization: Option<string>, password: Json.Value,
                       updateError: Option<string>): (r: (PasswordReply, Option<string>))
    ensures r.0 == PasswordUnauthenticated <==> user.None?
    ensures r.1.Some? <==> user.Some? && ValidPassword(password)
    ensures r.1.Some? ==> password == Json.Str(r.1.value)
    ensures r.0 == PasswordSet ==> r.1.Some? && updateError.None?
  {
    if user.None? then (PasswordUnauthenticated, None)
    else if !ValidPassword(password) then (InvalidPassword, None)
    else (if updateError.Some? then UpdateFailed(updateError.value) else PasswordSet, Some(password.s))
  }

  /** Authentication comes first: without a cookie session the reply is 401 whatever
      the body, and nothing is updated. */
  lemma AuthBeforeValidation(authorization: Option<string>, password: Json.Value, updateError: Option<string>)
    ensures SetPassword(None, authorization, password, updateError) == (PasswordUnauthenticated, None)
  {
  }

  /** The Authorization header is never consulted. */
  lemma BearerIgnored(user: Option<User>, a1: Option<string>, a2: Option<string>, password: Json.Value,
                      updateError: Option<string>)
    ensures SetPassword(user, a1, password, updateError) == SetPassword(user, a2, password, updateError)
  {
  }

  /** For a signed-in user: an invalid password is refused with no update; a valid one
      is always handed over, and the service's error, if any, is the reply. */
  lemma PasswordOutcomes(user: User, authorization: Option<string>, password: Json.Value, updateError: Option<string>)
    ensures var (reply, updated) := SetPassword(Some(user), authorization, password, updateError);
      (reply == InvalidPassword <==> !ValidPassword(password)) &&
      (updated.Some? <==> ValidPassword(password)) &&
      (updated.Some? ==> updated.value == password.s && Utf16Length(updated.value) >= 6) &&
      (ValidPassword(password) ==> (reply == PasswordSet <==> updateError.None?))
  {
  }

  /** Five characters are too few, six enough. */
  lemma SixIsTheMinimum()
    ensures !ValidPassword(Json.Str("abcde")) && ValidPassword(Json.Str("abcdef"))
  {
    assert Utf16Length("abcde") == 5;
    assert Utf16Length("abcdef") == 6;
  }
}
