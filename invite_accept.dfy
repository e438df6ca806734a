/** `POST /api/invites/accept`: the signed-in user takes up an invitation. In order:
    authentication, invite lookup, a case-insensitive email match, the membership
    insert (a duplicate key counts as success), and the accepted marker. */
module InviteAccept {
  import opened Common
  import opened Text
  import opened Store

  datatype AcceptReply =
    | AcceptUnauthenticated
    | InviteNotFound
    | EmailMismatch
    | InsertFailed(message: string)
    | Accepted

  function AcceptStatus(r: AcceptReply): int {
    match r
    case AcceptUnauthenticated => 401
    case InviteNotFound => 404
    case EmailMismatch => 403
    case InsertFailed(_) => 400
    case Accepted => 200
  }

  /** The `error` field of a refusal. */
  function AcceptError(r: AcceptReply): string {
    match r
    case AcceptUnauthenticated => "Not authenticated"
    case InviteNotFound => "Invite not found"
    case EmailMismatch => "Invite email mismatch"
    case InsertFailed(m) => m
    case Accepted => ""
  }

  /** An insert error the route takes for "already a member". */
  predicate IsDuplicate(message: string) {
    var msg := Lower(message);
    Contains(msg, "duplicate key") || Contains(msg, "unique constraint") || Contains(msg, "already exists")
  }

  /** `(user.email ?? '').toLowerCase()` against the invite's address, lower-cased. */
  predicate EmailMatches(user: User, inv: Invite) {
    Lower(inv.email) == Lower(user.email.GetOr(""))
  }

  /** The membership the invitation grants. */
  function Grant(user: User, inv: Invite): (m: MemberRow)
    ensures m.orgId == inv.orgId && m.userId == user.id && m.role == inv.role
    ensures m.canEdit <==> inv.role != Viewer
  {
    MemberRow(inv.orgId, user.id, inv.role, inv.role != Viewer)
  }

  /** The reply and the two tables after one request. `lookupFault` is an error of the
      invite query, `insertFault` an error the store reports for a fresh insert,
      `markFault` a failure of the marker update (whose result the route ignores), and
      `now` the clock's timestamp. */
  function Accept(user: Option<User>, rows: Members, invites: map<string, Invite>, inviteId: string,
                  lookupFault: bool, insertFault: Option<string>, markFault: bool, now: string)
    : (r: (Members, map<string, Invite>, AcceptReply))
    ensures r.2 == AcceptUnauthenticated <==> user.None?
    ensures r.2 != Accepted ==> r.0 == rows && r.1 == invites
    ensures r.2 == Accepted ==>
      user.Some? && inviteId in invites &&
      (r.0 == rows || r.0 == rows + [Grant(user.value, invites[inviteId])])
  {
    if user.None? then (rows, invites, AcceptUnauthenticated)
    else if lookupFault || inviteId !in invites then (rows, invites, InviteNotFound)
    else
      var inv := invites[inviteId];
      if !EmailMatches(user.value, inv) then (rows, invites, EmailMismatch)
      else
        var row := Grant(user.value, inv);
        var err := if HasMember(rows, row.orgId, row.userId) then Some(DuplicateKeyMessage) else insertFault;
        var after := if err.None? then rows + [row] else rows;
        if err.Some? && !IsDuplicate(err.value) then (rows, invites, InsertFailed(err.value))
        else (after, MarkInvite(invites, inviteId, user.value.id, now, markFault), Accepted)
  }

  lemma DuplicateKeyIsDuplicate()
    ensures IsDuplicate(DuplicateKeyMessage)
  {
    var msg := Lower(DuplicateKeyMessage);
    var key := "duplicate key";
    assert DuplicateKeyMessage[..13] == key;
    LowerPrefix(DuplicateKeyMessage, 13);
    assert msg[..13] == key;
    assert Contains(msg, key);
  }

  /** Without a signed-in user the answer is 401 and nothing changes. */
  lemma AcceptNeedsUser(rows: Members, invites: map<string, Invite>, inviteId: string,
                        lookupFault: bool, insertFault: Option<string>, markFault: bool, now: string)
    ensures Accept(None, rows, invites, inviteId, lookupFault, insertFault, markFault, now)
      == (rows, invites, AcceptUnauthenticated)
  {
  }

  /** The answer is 404 exactly when the lookup fails or finds no invite, 403 exactly
      when the invite is for another address; neither changes anything. */
  lemma AcceptRefusals(user: User, rows: Members, invites: map<string, Invite>, inviteId: string,
                       lookupFault: bool, insertFault: Option<string>, markFault: bool, now: string)
    ensures var (rows', invites', reply) :=
        Accept(Some(user), rows, invites, inviteId, lookupFault, insertFault, markFault, now);
      (reply == InviteNotFound <==> lookupFault || inviteId !in invites) &&
      (reply == EmailMismatch <==>
        !lookupFault && inviteId in invites && !EmailMatches(user, invites[inviteId])) &&
      (reply == InviteNotFound || reply == EmailMismatch ==> rows' == rows && invites' == invites)
  {
  }

  /** An insert error that is not a duplicate gives 400 with its message and leaves both
      tables, so the invite stays unmarked. */
  lemma AcceptInsertError(user: User, rows: Members, invites: map<string, Invite>, inviteId: string,
                          lookupFault: bool, insertFault: Option<string>, markFault: bool, now: string)
    requires !lookupFault && inviteId in invites && EmailMatches(user, invites[inviteId])
    requires !HasMember(rows, invites[inviteId].orgId, user.id)
    requires insertFault.Some? && !IsDuplicate(insertFault.value)
    ensures Accept(Some(user), rows, invites, inviteId, lookupFault, insertFault, markFault, now)
      == (rows, invites, InsertFailed(insertFault.value))
  {
  }

  /** On success the table holds the granted membership (inserted now, or already
      there), an existing membership keeps its role, and the invite is marked as
      accepted by the user at `now` unless the marker update failed; no other invite
      changes. */
  lemma AcceptSuccess(user: User, rows: Members, invites: map<string, Invite>, inviteId: string,
                      lookupFault: bool, insertFault: Option<string>, markFault: bool, now: string)
    requires Accept(Some(user), rows, invites, inviteId, lookupFault, insertFault, markFault, now).2 == Accepted
    ensures var (rows', invites', _) :=
        Accept(Some(user), rows, invites, inviteId, lookupFault, insertFault, markFault, now);
      var inv := invites[inviteId];
      var row := Grant(user, inv);
      inviteId in invites && EmailMatches(user, inv) &&
      (HasMember(rows, row.orgId, row.userId) ==> rows' == rows) &&
      (!HasMember(rows, row.orgId, row.userId) ==>
        if insertFault.None? then rows' == rows + [row] else rows' == rows && IsDuplicate(insertFault.value)) &&
      (!markFault ==> invites'[inviteId] == inv.(acceptedBy := Some(user.id), acceptedAt := Some(now))) &&
      invites'.Keys == invites.Keys &&
      forall k :: k in invites && k != inviteId ==> invites'[k] == invites[k]
  {
    DuplicateKeyIsDuplicate();
  }

  /** Acceptance only ever appends: every row there before is still there, unchanged,
      and the keys stay unique. */
  lemma AcceptOnlyInserts(user: Option<User>, rows: Members, invites: map<string, Invite>, inviteId: string,
                          lookupFault: bool, insertFault: Option<string>, markFault: bool, now: string)
    requires UniqueKeys(rows)
    ensures var rows' := Accept(user, rows, invites, inviteId, lookupFault, insertFault, markFault, now).0;
      UniqueKeys(rows') && |rows| <= |rows'| <= |rows| + 1 && rows'[..|rows|] == rows
  {
    var rows' := Accept(user, rows, invites, inviteId, lookupFault, insertFault, markFault, now).0;
    if rows' != rows {
      var row := Grant(user.value, invites[inviteId]);
      assert rows' == rows + [row] && !HasMember(rows, row.orgId, row.userId);
      InsertKeepsKeys(rows, row);
    }
  }

  /** Accepting twice as the same user: both answers are ok and the table holds the
      membership exactly once; the second request inserts nothing. */
  lemma {:induction false} AcceptTwice(user: User, rows: Members, invites: map<string, Invite>, inviteId: string,
                                       markFault1: bool, now1: string,
                                       insertFault2: Option<string>, markFault2: bool, now2: string)
    requires UniqueKeys(rows)
    requires Accept(Some(user), rows, invites, inviteId, false, None, markFault1, now1).2 == Accepted
    ensures var (rows1, invites1, reply1) := Accept(Some(user), rows, invites, inviteId, false, None, markFault1, now1);
      var (rows2, invites2, reply2) := Accept(Some(user), rows1, invites1, inviteId, false, insertFault2, markFault2, now2);
      var org := invites[inviteId].orgId;
      reply1 == Accepted && reply2 == Accepted && rows2 == rows1 &&
      UniqueKeys(rows2) && Lookup(rows2, org, user.id).Some?
  {
    var (rows1, invites1, reply1) := Accept(Some(user), rows, invites, inviteId, false, None, markFault1, now1);
    var inv := invites[inviteId];
    var row := Grant(user, inv);
    AcceptOnlyInserts(Some(user), rows, invites, inviteId, false, None, markFault1, now1);
    assert HasMember(rows1, row.orgId, row.userId) by {
      if HasMember(rows, row.orgId, row.userId) {
        var i :| 0 <= i < |rows| && rows[i].orgId == row.orgId && rows[i].userId == row.userId;
        assert rows1 == rows;
      } else {
        assert rows1 == rows + [row];
        assert rows1[|rows|] == row;
      }
    }
    assert invites1.Keys == invites.Keys && invites1[inviteId].orgId == inv.orgId;
    assert invites1[inviteId].email == inv.email;
    DuplicateKeyIsDuplicate();
    SingleKey(rows1, row.orgId, row.userId);
  }

  /** The handler over the store, step by step. */
  method AcceptHandler(db: Database, user: Option<User>, inviteId: string, lookupFault: bool,
                       insertFault: Option<string>, markFault: bool, now: string) returns (reply: AcceptReply)
    modifies db`members, db`invites
    ensures (db.members, db.invites, reply)
      == Accept(user, old(db.members), old(db.invites), inviteId, lookupFault, insertFault, markFault, now)
  {
    if user.None? {
      return AcceptUnauthenticated;
    }
    if lookupFault || inviteId !in db.invites {
      return InviteNotFound;
    }
    var inv := db.invites[inviteId];
    var email := Lower(user.value.email.GetOr(""));
    if Lower(inv.email) != email {
      return EmailMismatch;
    }
    var row := MemberRow(inv.orgId, user.value.id, inv.role, inv.role != Viewer);
    assert row == Grant(user.value, inv);
    ghost var before := db.members;
    var mErr := db.InsertMember(row, insertFault);
    assert mErr == (if HasMember(before, row.orgId, row.userId) then Some(DuplicateKeyMessage) else insertFault);
    assert db.members == (if mErr.None? then before + [row] else before);
    if mErr.Some? {
      var isDuplicate := IsDuplicate(mErr.value);
      if !isDuplicate {
        return InsertFailed(mErr.value);
      }
    }
    db.MarkAccepted(inviteId, user.value.id, now, markFault);
    return Accepted;
  }
}
