/** The invitation form: the seat tiers loaded from `/api/org/seats`, the role choice
    that steps away from a full tier, and the submit cycle. */
module InviteForm {
  import opened Common
  import opened SeatsRoute
  import opened Store

  /** The roles the form offers. */
  datatype Choice = InviteViewer | InviteEditor

  /** The seat tiers as the form keeps them. */
  datatype SeatState = SeatState(editors: Tier, viewers: Tier)

  /** A tier is full when it has a limit and the seats in use have reached it. */
  predicate TierFull(t: Tier) {
    t.limit.Some? && t.used >= t.limit.value
  }

  /** `editorFull`: false until the seats are loaded. */
  predicate EditorFull(seats: Option<SeatState>) {
    seats.Some? && TierFull(seats.value.editors)
  }

  /** `viewerFull`. */
  predicate ViewerFull(seats: Option<SeatState>) {
    seats.Some? && TierFull(seats.value.viewers)
  }

  /** The tier a choice draws on is full. */
  predicate ChoiceFull(seats: Option<SeatState>, c: Choice) {
    if c == InviteEditor then EditorFull(seats) else ViewerFull(seats)
  }

  /** `noSeatsAvailable`: seats loaded and both tiers full. */
  predicate NoSeatsAvailable(seats: Option<SeatState>) {
    seats.Some? && EditorFull(seats) && ViewerFull(seats)
  }

  /** The effect on the role: nothing before the seats load; a choice whose tier is full
      moves to the other one when that one is not full. */
  function AutoSwitch(role: Choice, seats: Option<SeatState>): (r: Choice)
    ensures r != role <==> seats.Some? && ChoiceFull(seats, role) && !ChoiceFull(seats, r)
  {
    if seats.None? then role
    else if role == InviteEditor && EditorFull(seats) && !ViewerFull(seats) then InviteViewer
    else if role == InviteViewer && ViewerFull(seats) && !EditorFull(seats) then InviteEditor
    else role
  }

  /** The effect runs again after it changes the role, and then changes nothing: no
      oscillation. */
  lemma AutoSwitchFixedPoint(role: Choice, seats: Option<SeatState>)
    ensures AutoSwitch(AutoSwitch(role, seats), seats) == AutoSwitch(role, seats)
  {
  }

  /** Once seats are loaded, the effect never leaves a full tier selected unless both
      are full. */
  lemma AutoSwitchAvoidsFull(role: Choice, seats: Option<SeatState>)
    requires !NoSeatsAvailable(seats)
    ensures !ChoiceFull(seats, AutoSwitch(role, seats))
  {
  }

  /** With the seats the route answers, a tier is full exactly under an active
      subscription whose column for that tier is set and reached; without an active
      subscription no option is disabled and the form can always be sent. */
  lemma LoadedFlags(user: Option<User>, rows: Members, subs: map<OrgId, Subscription>)
    requires Seats(user, rows, subs).SeatsOk?
    ensures var r := Seats(user, rows, subs);
      var s := Some(SeatState(r.editors, r.viewers));
      (EditorFull(s) <==> r.hasActiveSub && r.subscription.value.seatsEditor.Some? &&
                          r.editors.used >= r.subscription.value.seatsEditor.value) &&
      (ViewerFull(s) <==> r.hasActiveSub && r.subscription.value.seatsViewer.Some? &&
                          r.viewers.used >= r.subscription.value.seatsViewer.value) &&
      (!r.hasActiveSub ==> !ChoiceFull(s, InviteEditor) && !ChoiceFull(s, InviteViewer) && !NoSeatsAvailable(s))
  {
    SeatsLimits(user, rows, subs);
  }

  class Form {
    var email: string
    var role: Choice
    var pending: bool
    var msg: Option<string>
    var seats: Option<SeatState>
    var err: Option<string>

    /** The initial state: empty email, viewer, nothing loaded. */
    constructor ()
      ensures email == "" && role == InviteViewer && !pending
      ensures msg.None? && seats.None? && err.None?
    {
      email := "";
      role := InviteViewer;
      pending := false;
      msg := None;
      seats := None;
      err := None;
    }

    /** The role option `c` is disabled exactly when its tier is full. */
    predicate OptionDisabled(c: Choice)
      reads this
    {
      ChoiceFull(seats, c)
    }

    /** The submit button is disabled while a submit is pending or no seat is left. */
    predicate SubmitDisabled()
      reads this
    {
      pending || NoSeatsAvailable(seats)
    }

    /** `loadSeats`: a successful answer replaces the tiers (a previous error stays);
        a refusal records its message. */
    method LoadSeats(reply: SeatsReply)
      modifies this`seats, this`err
      ensures reply.SeatsOk? ==> seats == Some(SeatState(reply.editors, reply.viewers)) && err == old(err)
      ensures !reply.SeatsOk? ==> seats == old(seats) && err == Some(SeatsError(reply))
    {
      if reply.SeatsOk? {
        seats := Some(SeatState(reply.editors, reply.viewers));
      } else {
        err := Some(SeatsError(reply));
      }
    }

    /** The role effect. */
    method Effect()
      modifies this`role
      ensures role == AutoSwitch(old(role), seats)
    {
      if seats.Some? {
        var editorFull := EditorFull(seats);
        var viewerFull := ViewerFull(seats);
        var current := role;
        if current == InviteEditor && editorFull && !viewerFull {
          role := InviteViewer;
        }
        if current == InviteViewer && viewerFull && !editorFull {
          role := InviteEditor;
        }
      }
    }

    /** The start of `onSubmit`. */
    method BeginSubmit()
      modifies this`pending, this`msg
      ensures pending && msg.None?
    {
      pending := true;
      msg := None;
    }

    /** The end of `onSubmit`. `refusal` is `None` for an accepted request, else the
        `error` field of the refusal; `reload` is the seats answer fetched after
        success. */
    method FinishSubmit(refusal: Option<Option<string>>, reload: SeatsReply)
      modifies this
      ensures !pending
      ensures refusal.None? ==>
        msg == Some("Invite sent ✅") && email == "" && role == InviteViewer &&
        (reload.SeatsOk? ==> seats == Some(SeatState(reload.editors, reload.viewers)) && err == old(err)) &&
        (!reload.SeatsOk? ==> seats == old(seats) && err == Some(SeatsError(reload)))
      ensures refusal.Some? ==>
        msg == Some(if refusal.value.Some? && refusal.value.value != "" then refusal.value.value
                    else "Failed to invite") &&
        email == old(email) && role == old(role) && seats == old(seats) && err == old(err)
    {
      if refusal.None? {
        msg := Some("Invite sent ✅");
        email := "";
        role := InviteViewer;
        LoadSeats(reload);
      } else if refusal.value.Some? && refusal.value.value != "" {
        msg := Some(refusal.value.value);
      } else {
        msg := Some("Failed to invite");
      }
      pending := false;
    }
  }
}
