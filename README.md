# First Process App — a Dafny model of its access rules and link flows

First Process App is a multi-tenant web application built with Next.js on a Supabase
back end. Organisations have members with one of three roles (owner, editor, viewer).
A subscription may cap the number of editor and viewer seats. Members are invited
by email, and the invitation and password links go through several client-side pages
before they turn into a session. Inside an organisation, members maintain
departements and processes, and each process is previewed as a small Mermaid flowchart.

This project models the parts of the application that make decisions, one Dafny
module per source file:

- **Seats and membership.** The members route (GET, PATCH, DELETE), the seats and
  invitation-debug routes, `getOrgContext`, the "full" markers of the organisation
  and plan pages, and the invitation form's role choice.
- **Invitation acceptance.** `POST /api/invites/accept` runs over a membership table
  and an invitation map, with its idempotence and its frame.
- **Authentication links.** The `/auth/cb`, `/auth/callback`, `/auth/accept`,
  `/accept-invite`, `/set-password`, `/auth/recovery` and `/auth/new-password`
  pages; the `code` clean-up in `createClient`; and the links built by the
  begin-password route, the resend route and the login page.
- **Guards.** The middleware, the page frame and the password route.
- **Organisation data.** The processes, departements and organisation-name routes.
- **Interface state.** The sidebar, the toaster and the processes workspace, with its
  list entries, creation form and preview.

Shared modules model the parts of the platform the code relies on:

- `Text`: JavaScript's string operations (`trim`, `toLowerCase`, `includes`,
  `split`/`join`, `Number`/`toString`, UTF-16 `length`).
- `UrlCoding`: UTF-8 and percent-encoding, as done by `encodeURIComponent`,
  `decodeURIComponent` and the `application/x-www-form-urlencoded` format of the
  WHATWG URL Standard.
- `Query`: `URLSearchParams` as an ordered list of pairs, and the split of a link
  into path, query and fragment.
- `Store`: the tables and the queries the routes run over them.
- `Browser`: the address bar and `localStorage`.
- `Json`: request-body values.
- `Polling`: the answers of session checks.

Database writes are methods of the `Store.Database` class. Component state is held
in a class per component (`Toaster.Toaster`, `InviteForm.Form`, `Sidebar.Panel`, and
so on), whose methods update its fields. Each route handler is a method whose
postcondition ties the new tables and the reply to a pure function of the old
tables. The properties are proved about that function.

The model follows the code, not the behaviour one might expect of such a product.
These things are not in the code, so they are not in the model:

- Acceptance does not check seats, and it does not upgrade an existing member's role.
- DELETE does not protect the last owner.
- `next` is not sanitised.
- The password route reads no bearer token.
- The resend route has no rate limit.

Several of these gaps are stated as lemmas: `MembersRoute.NoLastOwnerProtection`,
`InviteAccept.AcceptOnlyInserts`, `PasswordRoute.BearerIgnored`,
`ResendRoute.ResendLinkLosesInvite`, `SetPassword.ShimKeepsOnlyEmail`,
`Toaster.PercentToastLost` and `SeatsRoute.NullEditorColumn`.

## Model

| member | source | states |
|---|---|---|
| MembersRoute.ToItems | src/app/api/org/members/route.ts:41-46 | one entry per row, in order, each carrying the row's user id, role, `can_edit` and the user's email or null |
| MembersRoute.List | src/app/api/org/members/route.ts:20-48 | 401 exactly without a user; an empty list without a membership; with a membership a store error gives 400 with its message and no error gives the list; the entries are exactly the rows of the organisation of the caller's first membership, in table order, each with its user id, role, `can_edit` and the joined address or null |
| MembersRoute.ListedAreOrgMembers | src/app/api/org/members/route.ts:25-37 | every listed entry stands for a row of the organisation of the caller's first membership |
| MembersRoute.Manager | src/app/api/org/members/route.ts:58-66 | a caller manages the organisation iff their single membership exists and has role owner or editor, and then it is that membership |
| MembersRoute.Patch | src/app/api/org/members/route.ts:51-99 | PATCH over the membership table: 401 exactly without a user; every refusal leaves the table as it was; an ok comes only from a caller who manages the organisation and keeps the number of rows (`PatchFrame` states which row changes) |
| MembersRoute.PatchRoleGate | src/app/api/org/members/route.ts:64-66 | a signed-in PATCH is refused with 403 iff the caller has no single owner/editor membership |
| MembersRoute.PatchSeatRule | src/app/api/org/members/route.ts:74-86 | under an active subscription, a role change of a member to editor is refused 409 iff owners plus editors reach `seats_editor` (null as 0), and to viewer iff viewers reach `seats_viewer` |
| MembersRoute.PatchWithoutSeatCheck | src/app/api/org/members/route.ts:76-98 | with no active subscription, no target membership, an unchanged role or the role owner, PATCH updates the role (or reports the store error) with no seat check |
| MembersRoute.PatchFrame | src/app/api/org/members/route.ts:91-98 | PATCH leaves the table unchanged unless it answers ok; then only the role of the row (user_id, caller's org) changes; `can_edit`, keys, length and key uniqueness are kept |
| MembersRoute.Delete | src/app/api/org/members/route.ts:101-126 | DELETE over the membership table: 401 exactly without a user; every refusal leaves the table as it was; an ok only removes rows |
| MembersRoute.DeleteRemovesOnlyTarget | src/app/api/org/members/route.ts:114-125 | DELETE is 403 iff the caller does not manage the organisation; on ok exactly the rows (user_id, caller's org) are gone and every other row stays |
| MembersRoute.NoLastOwnerProtection | src/app/api/org/members/route.ts:118-125 | an owner can delete their own last owner membership: nothing protects the last owner |
| MembersRoute.PatchHandler | src/app/api/org/members/route.ts:51-99 | the handler over the store leaves the membership table and reply exactly as `Patch` computes them |
| MembersRoute.DeleteHandler | src/app/api/org/members/route.ts:101-126 | the handler over the store leaves the membership table and reply exactly as `Delete` computes them |
| InviteAccept.Grant | src/app/api/invites/accept/route.ts:41-48 | the inserted membership has the invite's org, the user's id, the invite's role, and `can_edit` iff the role is not viewer |
| InviteAccept.DuplicateKeyIsDuplicate | src/app/api/invites/accept/route.ts:49-53 | the store's unique-constraint error for an existing membership is recognised as a duplicate |
| InviteAccept.Accept | src/app/api/invites/accept/route.ts:20-62 | acceptance over the membership and invitation tables: 401 exactly without a user; a refusal changes neither table; an acceptance leaves the members as they were or appends the one granted row |
| InviteAccept.AcceptNeedsUser | src/app/api/invites/accept/route.ts:23-24 | without a user the answer is 401 and neither table changes |
| InviteAccept.AcceptRefusals | src/app/api/invites/accept/route.ts:28-39 | 404 iff the lookup fails or finds no invite; 403 iff the invite's address differs from the user's, compared lower-cased; neither changes anything |
| InviteAccept.AcceptInsertError | src/app/api/invites/accept/route.ts:50-54 | an insert error that is not a duplicate gives 400 with its message, and both tables stay, so the invite is not marked |
| InviteAccept.AcceptSuccess | src/app/api/invites/accept/route.ts:41-61 | on ok the granted membership is in the table (appended, or already present and then untouched); the invite is marked with the user and the time, unless the marker update failed; no other invite changes |
| InviteAccept.AcceptOnlyInserts | src/app/api/invites/accept/route.ts:41-54 | acceptance only appends at most one row; earlier rows are unchanged and keys stay unique, so no existing role changes |
| InviteAccept.AcceptTwice | src/app/api/invites/accept/route.ts:49-61 | accepting twice as the same user: both answers are ok, the second inserts nothing, and the membership is there exactly once |
| InviteAccept.AcceptHandler | src/app/api/invites/accept/route.ts:20-62 | the handler leaves the membership table, the invites and the reply exactly as `Accept` computes them |
| SeatsRoute.Seats | src/app/api/org/seats/route.ts:29-61 | 401 iff no user; 400 iff the user has no membership; otherwise the answer is for the org of the user's first membership and carries that org's subscription or null |
| SeatsRoute.SeatsAccounting | src/app/api/org/seats/route.ts:50-52 | editors used = owners + editors, viewers used = viewers, and the two add up to the org's member count |
| SeatsRoute.SeatsLimits | src/app/api/org/seats/route.ts:49-59 | `hasActiveSub` iff a subscription exists with status active, trialing or paused; each limit is that tier's seat column under an active subscription and null otherwise |
| SeatsRoute.SeatsAgreeWithPatch | src/app/api/org/seats/route.ts:58 | a promotion to editor is refused for seats iff this answer shows an active subscription whose editor limit is reached or null |
| SeatsRoute.NullEditorColumn | src/app/api/org/seats/route.ts:58 | a concrete case: an active subscription with a null editor column shows no limit here, yet PATCH refuses every promotion to editor |
| InviteDebug.Debug | src/app/api/invites/debug/route.ts:29-78 | 401 iff no user; 400 iff signed in with an absent or empty `inviteId`; 404 iff that id fails to look up or is unknown, checked in that order; a success carries the looked-up invite |
| InviteDebug.DebugGate | src/app/api/invites/debug/route.ts:46-55 | past those checks, 403 iff the caller has no owner/editor membership in the invitation's own organisation, whatever their other memberships |
| InviteDebug.DebugCountsMeaning | src/app/api/invites/debug/route.ts:57-77 | the counts are owners + editors and viewers of the invitation's org, summing to its member count; `hasActiveSub` by the three-status rule; seat columns and status null without a subscription |
| OrgContext.Normalise | src/lib/org.ts:22-23 | an array relation gives its first element or null when empty, an object gives itself, a missing relation gives null |
| OrgContext.GetOrgContext | src/lib/org.ts:7-54 | no user gives all four fields null; a user without a membership or organisation gives null org, sub and counts; counts exist iff the org does; the sub is that org's subscription |
| OrgContext.ContextCounts | src/lib/org.ts:35-52 | owners = #owner, editors = #editor + #owner (so editors >= owners), viewers = #viewer, editors + viewers = member count; maxima are `seats_editor ?? 0` (owners and editors) and `seats_viewer ?? 0`, whatever the status |
| OrgContext.RelationShapes | src/lib/org.ts:22-23 | the organisation given as an object or as the head of an array yields the same context |
| OrgPages.FullFlags | src/app/org/page.tsx:11-13 | null counts give all three flags false; otherwise each tier is full iff its count is at least its maximum |
| OrgPages.OrgPage | src/app/org/page.tsx:5-33 | nothing iff no user; the "No organization" notice iff a user without an org; otherwise the name form seeded with the name or '' and the flags of the counts |
| OrgPages.PlanPage | src/app/org/plan/page.tsx:5-29 | nothing iff no user; the notice iff a user without an org; otherwise the flags of the counts |
| OrgPages.PagesAgree | src/app/org/plan/page.tsx:10-12 | the organisation page and the plan page show the same plan line, status and full markers |
| OrgPages.NoSubscriptionAllFull | src/app/org/page.tsx:11-13 | with an organisation but no subscription every tier is shown full |
| OrgPages.OwnersFullEditorsFull | src/app/org/page.tsx:11-12 | a full owner tier implies a full editor tier |
| InviteForm.AutoSwitch | src/app/org/invite/page.tsx:29-33 | the effect changes the role iff the seats are loaded, the chosen tier is full and the other is not; it then moves to that other tier |
| InviteForm.AutoSwitchFixedPoint | src/app/org/invite/page.tsx:29-33 | running the effect again after it changed the role changes nothing: no oscillation |
| InviteForm.AutoSwitchAvoidsFull | src/app/org/invite/page.tsx:25-33 | unless both tiers are full, the effect never leaves a full tier selected |
| InviteForm.Form.constructor | src/app/org/invite/page.tsx:5-10 | empty email, role viewer, not pending, no message, no seats, no error |
| InviteForm.Form.LoadSeats | src/app/org/invite/page.tsx:12-21 | a successful answer replaces both tiers and keeps the error; a refusal keeps the tiers and records its error text |
| InviteForm.Form.Effect | src/app/org/invite/page.tsx:29-33 | the step-by-step effect leaves the role `AutoSwitch` gives |
| InviteForm.Form.BeginSubmit | src/app/org/invite/page.tsx:36-38 | the submit is pending and the message cleared |
| InviteForm.Form.FinishSubmit | src/app/org/invite/page.tsx:45-55 | success shows "Invite sent ✅", resets email and role to viewer, and reloads the seats; a refusal shows its error or "Failed to invite" and keeps the rest; pending ends either way |
| InviteForm.LoadedFlags | src/app/org/invite/page.tsx:25-27 | with the seats the route answers, a tier is full exactly under an active subscription whose column for it is set and reached; without an active subscription no option is disabled and seats are never all taken |
| AuthAcceptPage.Pick | src/app/auth/accept/page.tsx:56-57 | the query's token when it is non-empty, else the fragment's |
| AuthAcceptPage.ChooseAttempt | src/app/auth/accept/page.tsx:50-65 | the identity call the page makes without a session: a one-time password only of an accepted kind with a non-empty token from the query, a session only from two non-empty tokens, a code exchange only with the query's non-empty code, and no call only without a code |
| AuthAcceptPage.AttemptPriority | src/app/auth/accept/page.tsx:50-65 | a one-time password of kind signup, recovery or invite comes first, verified with the lower-cased expected email; otherwise a session is set iff both tokens are non-empty, each taken from the query when non-empty and else from the fragment (the refresh token included); otherwise the query's code is exchanged iff it is non-empty; else nothing |
| AuthAcceptPage.PairNeedsBoth | src/app/auth/accept/page.tsx:56-64 | a fragment access token with no refresh token anywhere is not used: the code is tried instead, or nothing |
| AuthAcceptPage.Resolution | src/app/auth/accept/page.tsx:47-88 | the effect's outcome: a failed attempt (no initial session, an attempt made, an error returned) stops the page with the error's message, or "Impossible de valider le lien." when it is empty; otherwise no session after the attempt stops it with the no-session message; `/org` only for a session whose user has a password, the password form only for one without |
| AuthAcceptPage.EmailConflict | src/app/auth/accept/page.tsx:78-83 | a session whose lower-cased address differs from a non-empty expected address stops the page |
| AuthAcceptPage.PasswordBranch | src/app/auth/accept/page.tsx:78-85 | without a conflict, `has_password` decides between `/org` and the password form |
| AuthAcceptPage.CaseInsensitive | src/app/auth/accept/page.tsx:78-79 | a session address that differs from the expected address only in ASCII case is no conflict: the page goes on to `/org` or the password form |
| AuthAcceptPage.Page.constructor | src/app/auth/accept/page.tsx:22-43 | no fragment tokens, loading, no password form, empty message, not busy |
| AuthAcceptPage.Page.CaptureFragment | src/app/auth/accept/page.tsx:23-36 | tokens are taken once, only from a fragment containing `access_token=` whose parsed access token is non-empty; an empty refresh token becomes absent; the fragment is then cleared, and otherwise nothing changes |
| AuthAcceptPage.Page.Resolve | src/app/auth/accept/page.tsx:45-92 | loading ends; a failed attempt, a missing session or an email conflict stops with its message; otherwise the password form or the redirect to `/org`, exactly as `Resolution` decides |
| AuthAcceptPage.Page.SubmitPassword | src/app/auth/accept/page.tsx:94-113 | under 8 UTF-16 units, then a mismatch, refuse before any request; with no session "Session perdue"; otherwise the POST is made, success goes to `/org` and a refusal shows its error or the fallback; busy ends |
| Polling.FirstHit | src/app/auth/callback/page.tsx:53-60 | the first of the checks 0 .. limit-1 that finds a session, with none before it; none iff no check in range finds one |
| AuthCallback.CallbackArtifact | src/app/auth/callback/page.tsx:23-50 | a token hash iff both `token` and `type` are non-empty; else a PKCE code iff `code` is non-empty; each carries the parameter's value |
| AuthCallback.Destination | src/app/auth/callback/page.tsx:29-65 | the page ends at `next`, `/login` or `/`, and at `/` (when `next` is not `/`) only without an initial session and after all 12 checks found none |
| AuthCallback.DestinationCases | src/app/auth/callback/page.tsx:29-65 | an existing session goes to `next` (default `/`) whatever the link holds; no artifact goes to `/login`; a failed verification of a token, or a failed exchange of a code, goes to `/login`; with a token the code exchange plays no part |
| AuthCallback.DestinationPolls | src/app/auth/callback/page.tsx:52-65 | after a successful verification the page goes to `next` iff one of the 12 checks finds a session, else to `/` |
| AuthCallback.CallbackPage.constructor | src/app/auth/callback/page.tsx:11 | the run-once flag starts false |
| AuthCallback.CallbackPage.Effect | src/app/auth/callback/page.tsx:13-71 | a second run does nothing; the first sets the flag, strips `code` as `createClient` does, navigates as `Destination` decides, hands the code exchange the stripped location only for a code link, makes at most 12 checks, stopping at the first session, and raises the "session not stored" alert iff an accepted link finds no session in all 12 checks |
| AuthCallback.ExchangeLosesCode | src/app/auth/callback/page.tsx:42-45 | for a link carrying only a `code`, the location given to the exchange no longer holds the `code` |
| BrowserClient.Sanitised | src/lib/supabase-client.ts:10-19 | path and fragment are kept; the result has `code` iff the location had it together with implicit tokens (query `access_token`/`refresh_token`, or `access_token=` in the fragment); a change is exactly the deletion of `code` |
| BrowserClient.SanitisedKeepsOthers | src/lib/supabase-client.ts:13-14 | every parameter other than `code` reads as before, and a location with implicit tokens is untouched |
| BrowserClient.SanitisedIdempotent | src/lib/supabase-client.ts:13-15 | sanitising twice is sanitising once |
| BrowserClient.CreateClient | src/lib/supabase-client.ts:4-36 | the address bar is left sanitised, or as it was when the sanitising step fails |
| HashBridge.ExtraKeysFacts | src/app/auth/cb/page.tsx:28 | the companion field list has no repeats and names none of `access_token`, `refresh_token`, `next` |
| HashBridge.TokensQueryNamed | src/app/auth/cb/page.tsx:25-30 | the forwarded fragment query reads the two tokens and `next` as set |
| HashBridge.TokensQueryFields | src/app/auth/cb/page.tsx:28-29 | a companion field is forwarded iff the fragment has it with a non-empty value, and then with that value |
| HashBridge.FragmentQueryContents | src/app/auth/cb/page.tsx:23-30 | the forwarded query holds exactly the two tokens, `next`, and the non-empty companion fields of the fragment, nothing else |
| HashBridge.CallbackTarget | src/app/auth/cb/page.tsx:17 | a non-empty query sent to `/auth/callback` parses back to that path and that query |
| HashBridge.Bridge | src/app/auth/cb/page.tsx:7-38 | a query `code` or `token`+`type` forwards the whole query with `next` set; else fragment tokens forward the fragment query; else the page goes to `next` (default `/`) |
| HashBridge.FragmentRequest | src/app/auth/cb/page.tsx:25-30 | the `set` calls build the two tokens, then the present companion fields in list order, then `next` |
| HashBridge.ForwardedQuery | src/app/auth/cb/page.tsx:15-16 | the forwarded query reads `next` as the destination and every other parameter as in the link |
| AcceptInvitePage.ForwardKeysFacts | src/app/accept-invite/page.tsx:21-23 | the whitelisted fields have no repeats and do not include `next` |
| AcceptInvitePage.ForwardedContents | src/app/accept-invite/page.tsx:19-26 | the forwarded query reads `next` as `/accept-invite?inviteId=<id>`, each whitelisted field iff the fragment has it non-empty, and no other key |
| AcceptInvitePage.ForwardFragment | src/app/accept-invite/page.tsx:15-30 | nothing happens unless the fragment starts with `#access_token`; otherwise the target parses back to `/auth/callback` with exactly the forwarded query |
| AcceptInvitePage.ForwardQuery | src/app/accept-invite/page.tsx:19-26 | the `set` calls build `next` followed by the present fields in whitelist order |
| AcceptInvitePage.Page.constructor | src/app/accept-invite/page.tsx:12 | the message starts as "Finishing your invite…" |
| AcceptInvitePage.Page.AwaitAndAccept | src/app/accept-invite/page.tsx:33-56 | without an invite id nothing happens; otherwise at most 21 session checks, posting the acceptance iff one finds a session (then right after the first such check); no session gives the no-session message; an accepted answer redirects to `/org` with the "Invite accepted" toast, a refusal shows its error or the fallback |
| SetPassword.ShimQueryContents | src/app/set-password/page.tsx:8-10 | the fresh query holds exactly the pair `em` for a non-empty `em`, and nothing otherwise |
| SetPassword.ShimKeepsOnlyEmail | src/app/set-password/page.tsx:8-12 | the navigation parses back to `/auth/recovery` with that query and no fragment; every other parameter, `inviteId` included, is dropped |
| SetPassword.ShimWithoutEmail | src/app/set-password/page.tsx:11 | without `em` the target is exactly `/auth/recovery` |
| Recovery.RecoveryForwardsAll | src/app/auth/recovery/page.tsx:8-10 | every parameter arrives at `/auth/new-password` unchanged and in order; an empty query gives the bare path |
| NewPasswordPage.Authorization | src/app/auth/new-password/page.tsx:41-42 | the Authorization header is present iff the session has a non-empty access token, and is then `Bearer <token>` |
| NewPasswordPage.ChainDropsInvite | src/app/auth/new-password/page.tsx:11-12 | a link sent through `/set-password` and `/auth/recovery` lands here with `em` kept and no invitation id, so the invite is never accepted |
| NewPasswordPage.ShimQueryReads | src/app/set-password/page.tsx:8-10 | the shim's query reads no `inviteId` and the original `em` |
| NewPasswordPage.FailureText | src/app/auth/new-password/page.tsx:45-50 | a route's non-empty error text, else the page's own fallback |
| NewPasswordPage.Page.constructor | src/app/auth/new-password/page.tsx:16-18 | empty message, not busy, not ready |
| NewPasswordPage.Page.CheckSession | src/app/auth/new-password/page.tsx:20-30 | a session makes the page ready; without one the invalid-link message is set |
| NewPasswordPage.Page.Submit | src/app/auth/new-password/page.tsx:32-59 | an empty password or a mismatch sets the mismatch message and sends nothing; otherwise busy ends and the password-then-accept sequence of `SavesThenAccepts` holds |
| NewPasswordPage.Page.Save | src/app/auth/new-password/page.tsx:40-53 | the password request comes first; its failure stops with the route's error or fallback; an invitation is then accepted, its failure stops likewise; only full success navigates to `/org` with the success toast |
| NewPasswordPage.SubmitErrorHidden | src/app/auth/new-password/page.tsx:64-66 | a message set while the form is shown is never displayed: the form shows only when ready, the message only when not |
| NewPasswordPage.SuccessToastCases | src/app/auth/new-password/page.tsx:53 | the success toast reads "Invitation acceptée" iff there is an invitation id |
| BeginPassword.StripTrailingSlashes | src/app/api/auth/begin-password/route.ts:13 | the result is a prefix of the input not ending in `/`, and everything removed is `/` |
| BeginPassword.Begin | src/app/api/auth/begin-password/route.ts:6-19 | a recovery email is requested exactly when the email is truthy, else 400; a started reply carries the email's own redirect |
| BeginPassword.BeginOutcomes | src/app/api/auth/begin-password/route.ts:6-19 | a falsy email is refused with 400 before any email is requested; otherwise a recovery email to that address with the built `redirectTo` is always requested, and its error, if any, is the 400 reply |
| BeginPassword.RedirectCarriesNext | src/app/api/auth/begin-password/route.ts:15 | the link brings `/auth/cb` exactly one parameter, `next`, from which the bridge reads back the path the route built |
| BeginPassword.NextWithoutInvite | src/app/api/auth/begin-password/route.ts:14 | without a truthy invitation id, the `next` path parses to `/auth/new-password` with `em` alone |
| BeginPassword.NextWithInvite | src/app/api/auth/begin-password/route.ts:14 | with an id made of characters the form encoding keeps, the `next` path parses to `em` then `inviteId` |
| BeginPassword.NextCarriesInvite | src/app/api/auth/begin-password/route.ts:14 | `/auth/new-password` reads the address as `em` and the invitation id, or none |
| BeginPassword.BeginLinkLandsOnNewPassword | src/app/api/auth/begin-password/route.ts:13-17 | the email's link, followed through the bridge's `next`, reaches `/auth/new-password` with the address and the invitation id |
| Json.ToText | src/app/api/auth/begin-password/route.ts:14 | no text for a missing field or null; a string gives itself |
| ResendRoute.Resend | src/app/api/invites/resend/route.ts:21-63 | 401 exactly without a user; emails are requested only past the gate, the invitation email first, and every one goes to the invitation's address |
| ResendRoute.ResendGate | src/app/api/invites/resend/route.ts:21-48 | the refusals come in the order 401 (no user), 400 (falsy id), 404 (unknown invite), 403 (not an owner of the invite's own organisation), each iff its condition; no refusal requests an email |
| ResendRoute.EditorCannotResend | src/app/api/invites/resend/route.ts:48 | an editor of the invite's organisation is refused with 403 |
| ResendRoute.ResendModes | src/app/api/invites/resend/route.ts:54-63 | past the gate the invitation email is requested first; success is mode `invite`; an "already registered" error (any case) adds a reset email, whose success is mode `password-reset` and whose failure is reported with status 200; any other error is 400 |
| ResendRoute.ResendLinkLosesInvite | src/app/api/invites/resend/route.ts:52 | the link carries `inviteId` and `em` to `/set-password`, yet after `/auth/recovery` `/auth/new-password` sees no invitation id |
| PasswordRoute.SetPassword | src/app/api/auth/password/route.ts:20-33 | 401 exactly without a user; the password is sent to the identity service exactly when there is a user and it is valid, and then it is the body's string; success needs no update error |
| PasswordRoute.AuthBeforeValidation | src/app/api/auth/password/route.ts:22-23 | without a cookie session the reply is 401 whatever the body, and nothing is updated |
| PasswordRoute.BearerIgnored | src/app/api/auth/password/route.ts:20-33 | the Authorization header does not affect the outcome |
| PasswordRoute.PasswordOutcomes | src/app/api/auth/password/route.ts:25-33 | a signed-in user's password is refused with 400 iff it is not a non-empty string of at least 6 UTF-16 units; a valid one is always handed to the service, and the reply is ok iff the service reports no error |
| PasswordRoute.SixIsTheMinimum | src/app/api/auth/password/route.ts:26 | five characters are refused, six accepted |
| ProcessesRoute.NameOf | src/app/api/processes/route.ts:31 | no name for a missing or null field; a string gives itself trimmed |
| ProcessesRoute.DepartementIdOf | src/app/api/processes/route.ts:32-33 | a departement id iff the field is a number |
| ProcessesRoute.Place | src/app/api/processes/route.ts:51-80 | a refusal appends nothing; a creation appends exactly the row, with its id in the reply, and its departement, when set, is one of the row's organisation |
| ProcessesRoute.PlaceFacts | src/app/api/processes/route.ts:51-80 | the row is created iff there is no insert error and any departement exists and belongs to the row's organisation; creation appends exactly that row, and every refusal changes nothing |
| ProcessesRoute.Create | src/app/api/processes/route.ts:21-84 | 401 exactly for a readable body without a user; a refusal appends nothing; a creation appends one row after the existing ones, under the new id, with a trimmed non-empty name |
| ProcessesRoute.CreateOnlyAppends | src/app/api/processes/route.ts:73-80 | a request changes nothing unless it answers 201, and then appends exactly one row after the existing ones |
| ProcessesRoute.CreatedRow | src/app/api/processes/route.ts:64-71 | the new row has the trimmed non-empty name, the organisation of the caller's first membership, the numeric departement only when it belongs to that organisation, empty content, and the caller as owner and creator |
| ProcessesRoute.CreateChecks | src/app/api/processes/route.ts:21-62 | the checks come in order: unreadable body 500, no user 401, missing or blank name 400, no membership 400, then the departement |
| ProcessesRoute.NonNumericDepartementIgnored | src/app/api/processes/route.ts:32-33 | a departement id that is not a number is dropped and the process is created without departement |
| ProcessesRoute.CreateHandler | src/app/api/processes/route.ts:21-84 | the handler leaves the process table and the reply exactly as `Create` computes them |
| ProcessesRoute.PlaceHandler | src/app/api/processes/route.ts:51-80 | the departement checks and the insert leave the table and the reply as `Place` computes them |
| DepartementsRoute.List | src/app/api/org/departements/route.ts:20-40 | 401 exactly without a user; a listing is in ascending name order and only comes without a read fault |
| DepartementsRoute.ListScoped | src/app/api/org/departements/route.ts:20-40 | 401 iff no user; 400 without a membership, or with one on a read fault, passing its message; a listing holds exactly the departements of the caller's first organisation, each as often as in the table, in ascending name order |
| DepartementsRoute.SortByName | src/app/api/org/departements/route.ts:37 | `.order('name', { ascending: true })`: the result is sorted by name, null names last, and is a permutation of its input |
| DepartementsRoute.ListOrdersByName | src/app/api/org/departements/route.ts:33-37 | departements stored as `Ventes` then `Achats` are listed as `Achats` then `Ventes` |
| DepartementsRoute.Add | src/app/api/org/departements/route.ts:42-70 | 401 exactly without a user; a refusal leaves the table; an addition appends one row after the existing ones, under the new id |
| DepartementsRoute.AddRules | src/app/api/org/departements/route.ts:42-70 | the name is checked (non-empty string, not blank after trim) before the membership; no membership gives 400; a viewer gets 403; an addition appends one row with the trimmed name and the caller's organisation, and every refusal changes nothing |
| DepartementsRoute.BlankNameRefused | src/app/api/org/departements/route.ts:48-50 | a name of spaces only is refused |
| DepartementsRoute.AddHandler | src/app/api/org/departements/route.ts:42-70 | the handler leaves the departement table and the reply exactly as `Add` computes them |
| OrgNameRoute.RenameOrg | src/app/api/org/name/route.ts:20-57 | 401 exactly without a user; a refusal leaves the organisations; a rename keeps the set of organisations and needs a string name |
| OrgNameRoute.RenameScope | src/app/api/org/name/route.ts:20-57 | 401 iff no user; 400 iff the name is not a non-empty string; a rename needs an owner/editor membership in the caller's first organisation and renames only that organisation, to the name exactly as sent; a refusal changes nothing |
| OrgNameRoute.ViewerCannotRename | src/app/api/org/name/route.ts:46-48 | a viewer is refused with 403 and nothing changes |
| OrgNameRoute.RenameHandler | src/app/api/org/name/route.ts:20-57 | the handler leaves the organisations and the reply exactly as `RenameOrg` computes them |
| Middleware.AuthPageCases | src/middleware.ts:4-9 | a path is an authentication page iff it starts with one of the five prefixes; the test is a prefix test, so `/login-x` counts |
| Middleware.Decide | src/middleware.ts:11-49 | a request is redirected iff its path is not bypassed (authentication page, `/_next`, `/favicon`, `/assets`) and there is no session; the redirect is the login URL |
| Middleware.LoginUrlNext | src/middleware.ts:43-44 | the login URL carries exactly one parameter, `next`, holding the path and the search string |
| Middleware.FlowPagesNeedSession | src/middleware.ts:4-22 | `/auth/accept`, `/auth/cb`, `/auth/recovery` and `/auth/new-password` are not exempt and redirect without a session |
| Middleware.NotAuthPage | src/middleware.ts:15-20 | a path under `/auth/` other than `/auth/callback…` is neither an authentication page nor a static prefix |
| LayoutShell.FrameFor | src/components/LayoutShell.tsx:10-44 | the toaster is always drawn; the application header and the sidebar are drawn together, iff the path starts with none of the seven chromeless prefixes |
| LayoutShell.MiddlewareExemptIsChromeless | src/components/LayoutShell.tsx:8-12 | every page the middleware exempts is also drawn without the chrome |
| LayoutShell.ChromelessButProtected | src/components/LayoutShell.tsx:8 | `/auth/recovery` and `/auth/new-password` are drawn without the chrome, yet the middleware asks for a session on them |
| Sidebar.Active | src/components/Sidebar.tsx:52 | the Home link is active on `/` alone; any other link is active on its own path and every path it prefixes |
| Sidebar.NestedLinksBothActive | src/components/Sidebar.tsx:9-16 | on `/org/members` both the Organization and the Members links are active, and Invite is not |
| Sidebar.Panel.constructor | src/components/Sidebar.tsx:20 | the sidebar starts expanded |
| Sidebar.Panel.Load | src/components/Sidebar.tsx:23-26 | the flag becomes true iff the stored value is exactly `'1'`, so storage and flag agree |
| Sidebar.Panel.Toggle | src/components/Sidebar.tsx:28-34 | the flag flips, `'1'` or `'0'` is stored to match it, and nothing else in storage changes |
| Toaster.Without | src/components/Toaster.tsx:43 | the remaining messages are exactly those whose id differs, never more than before |
| Toaster.WithoutIncreasing | src/components/Toaster.tsx:43 | filtering keeps the order, so the ids still increase |
| Toaster.WithoutAbsent | src/components/Toaster.tsx:42-44 | a timer whose message is already gone changes nothing |
| Toaster.WithoutPresent | src/components/Toaster.tsx:42-44 | with increasing ids a timer removes exactly one message |
| Toaster.UrlToast | src/components/Toaster.tsx:15-18 | a message iff `toast` is non-empty and its second decoding succeeds; the text is that decoding; the kind is `kind`, or `success` when missing or empty |
| Toaster.Background | src/components/Toaster.tsx:71-73 | error and info have their own colours; every other kind, or none, is green |
| Toaster.Toaster.constructor | src/components/Toaster.tsx:10-11 | no message, next id 1 |
| Toaster.Toaster.Push | src/components/Toaster.tsx:38-45 | the message joins the end under the next id, which then goes up by one; ids keep increasing and below the next |
| Toaster.Toaster.Dismiss | src/components/Toaster.tsx:42-44 | the timer leaves the list without that id, keeping the invariant |
| Toaster.Toaster.ConsumeUrl | src/components/Toaster.tsx:14-26 | a readable `toast` is pushed with its kind and `toast` and `kind` leave the address; otherwise nothing changes |
| Toaster.Toaster.OnEvent | src/components/Toaster.tsx:29-36 | an event whose detail has a non-empty text is pushed as it is; any other changes nothing |
| Toaster.ToastLinkShows | src/components/Toaster.tsx:15-22 | a toast link for a text without `%` and a plain kind shows that text with that kind, and leaves no query behind |
| Toaster.LinkQuery | src/components/Toaster.tsx:15-16 | a toast link parses to exactly the pairs `toast` and `kind` |
| Toaster.PairToast | src/components/Toaster.tsx:15-22 | those two pairs give that message, and deleting both leaves nothing |
| Toaster.PercentToastLost | src/components/Toaster.tsx:18 | a text ending in `%` arrives decoded once and the second decoding fails, so the message never appears |
| Toaster.AcceptInviteToast | src/app/accept-invite/page.tsx:53 | after an accepted invitation `/org` shows "Invite accepted" as a success |
| Toaster.NewPasswordToast | src/app/auth/new-password/page.tsx:53 | after the new-password page `/org` shows its success text as a success |
| Toaster.LogoutToast | src/components/Sidebar.tsx:38 | after signing out `/login` shows "Signed out" as information, on the information colour |
| ProcessPreview.ChainIsEscapeAll | src/app/processes/parts/ProcessPreview.tsx:55 | the three global replacements, backslashes first, amount to escaping each character once: a backslash becomes two, a newline becomes `\n`, a quote becomes `\"` |
| ProcessPreview.EscapeAllNoNewline | src/app/processes/parts/ProcessPreview.tsx:55 | no line break is left after escaping |
| ProcessPreview.EscapeAllQuotes | src/app/processes/parts/ProcessPreview.tsx:55 | every quote left after escaping is preceded by a backslash |
| ProcessPreview.TrimKeepsEscapes | src/app/processes/parts/ProcessPreview.tsx:55 | the final trim keeps a label free of line breaks and of unescaped quotes |
| ProcessPreview.EscapeLabel | src/app/processes/parts/ProcessPreview.tsx:54-56 | the escaped label is the trimmed per-character escape; it stays on one line and cannot close the quoted Mermaid text it is written in |
| ProcessPreview.UnescapeEscapeAll | src/app/processes/parts/ProcessPreview.tsx:55 | reading the escapes back gives the original text: the escaping loses nothing |
| ProcessPreview.EscapeLabelLossless | src/app/processes/parts/ProcessPreview.tsx:54-56 | a label without surrounding whitespace is read back exactly; only the trim can lose characters |
| ProcessPreview.ProcessDepartement | src/app/processes/parts/ProcessPreview.tsx:59-61 | a departement is found only for a truthy departement id, and it is the first with that id; a falsy id finds none |
| ProcessPreview.NodeLabelSafe | src/app/processes/parts/ProcessPreview.tsx:63-65 | the node label, with or without its departement line, has no raw line break and no unescaped quote |
| ProcessPreview.NodeLabelCases | src/app/processes/parts/ProcessPreview.tsx:63-65 | the node label is the escaped name, followed by `\n` and the escaped caption (`name` or `Dept <id>`) when a departement is found and its escaped caption is not empty |
| ProcessPreview.BuildDefinition | src/app/processes/parts/ProcessPreview.tsx:67-74 | the definition splits on line breaks into exactly its six lines: the `graph TD` header, the three nodes with the node label inside `step_0["…"]`, and the two edges |
| ProcessPreview.LinesPlain | src/app/processes/parts/ProcessPreview.tsx:67-74 | no line of the flowchart holds a line break when the node label has none |
| ProcessPreview.Definition | src/app/processes/parts/ProcessPreview.tsx:132-135 | there is a diagram exactly when a process is selected, and it is that process's flowchart |
| ProcessPreview.DeptNameCases | src/app/processes/parts/ProcessPreview.tsx:142-146 | the caption is "No department" for a falsy id, the found departement's name, or `Dept <id>` when the departement is unknown or has no name |
| ProcessPreview.DiagramMatchesMeta | src/app/processes/parts/ProcessPreview.tsx:64-65 | when a departement is found, the diagram's second line is the escaped form of the caption shown under the diagram |
| ProcessItem.ForeignDepartementUnnamed | src/app/processes/ProcessItem.tsx:33-42 | only the process's own organisation's departements are looked up: a listed departement of another organisation with the same id still gives `Dept <id>` |
| ProcessItem.DeptNameCases | src/app/processes/ProcessItem.tsx:38-42 | the caption is absent exactly for a falsy departement id, and the found departement of the process's organisation is shown by name |
| ProcessItem.ListAgreesWithPreview | src/app/processes/ProcessItem.tsx:133 | with the organisation's own departements, the list shows the same caption as the preview, `No department` included |
| ProcessItem.Body | src/app/processes/ProcessItem.tsx:48-51 | the update body carries the edited name, `null` for the empty departement choice, and `Number(dept)` otherwise (not-a-number text is sent as `null`) |
| ProcessItem.SaveKeepsDepartement | src/app/processes/ProcessItem.tsx:25-26 | saving an untouched form sends back the process's own name and departement |
| ProcessItem.OptionSendsId | src/app/processes/ProcessItem.tsx:98-104 | choosing a departement's option sends that departement's id |
| ProcessItem.ClassName | src/app/processes/ProcessItem.tsx:74-77 | the class attribute splits back into the class list, and holds `selected` exactly when selected and `editing` exactly when editing |
| ProcessItem.Item.constructor | src/app/processes/ProcessItem.tsx:24-26 | a new entry is not editing, and its fields start from the process's name and departement id |
| ProcessItem.Item.Edit | src/app/processes/ProcessItem.tsx:143-146 | the Edit button enters edit mode |
| ProcessItem.Item.Cancel | src/app/processes/ProcessItem.tsx:112 | Cancel leaves edit mode |
| ProcessItem.Item.HandleSelect | src/app/processes/ProcessItem.tsx:79-82 | while editing nothing is selected; otherwise the entry's id is passed on |
| ProcessItem.Item.Save | src/app/processes/ProcessItem.tsx:44-60 | the PATCH goes to the process's route with the form's body; a refusal alerts the server's error or `Failed to update` and stays in edit mode; success leaves edit mode and navigates to the updated toast link |
| ProcessItem.Item.Remove | src/app/processes/ProcessItem.tsx:62-72 | nothing is sent unless confirmed; a refusal alerts the server's error or `Failed to delete`; success navigates to the deleted toast link |
| Toaster.UpdatedToast | src/app/processes/ProcessItem.tsx:59 | the link after an update shows the success toast `Process updated` |
| Toaster.DeletedToast | src/app/processes/ProcessItem.tsx:70-71 | the link after a deletion shows the success toast `Process deleted` |
| ProcessForm.DepartementField | src/app/processes/ProcessForm.tsx:37 | the departement field is `null` for a missing or empty choice, and a number only when the chosen text parses to that number |
| ProcessForm.NameAsTheRouteReadsIt | src/app/processes/ProcessForm.tsx:30 | the route reads the posted name back as the trimmed field text, the empty text when the field is missing |
| ProcessForm.DepartementAsTheRouteReadsIt | src/app/processes/ProcessForm.tsx:31-38 | the route reads no departement for the empty or missing choice, and the chosen departement's id otherwise |
| ProcessForm.FormCreatesProcess | src/app/processes/ProcessForm.tsx:30-44 | a non-blank name and a departement of the member's organisation create exactly one new row with the trimmed name, that organisation and departement, and the user as creator and updater |
| ProcessForm.BlankNameRefused | src/app/processes/ProcessForm.tsx:30-44 | a blank name is refused with 400 and nothing is created |
| ProcessForm.Form.constructor | src/app/processes/ProcessForm.tsx:14-15 | the form starts idle with no error |
| ProcessForm.Form.Submit | src/app/processes/ProcessForm.tsx:22-58 | the body posted is the form's; a refusal shows the route's error or `Failed to create process` and keeps the fields; success clears the error, resets the form and navigates to the created toast link; in both cases the form ends idle |
| Toaster.CreatedToast | src/app/processes/ProcessForm.tsx:52 | the link after a creation shows the success toast `Process created` |
| ProcessesWorkspace.InitialSelection | src/app/processes/ProcessesWorkspace.tsx:27 | the first process's id is selected, and nothing exactly when there is no process |
| ProcessesWorkspace.SelectedProcess | src/app/processes/ProcessesWorkspace.tsx:43-46 | the shown process is one of the list with the selected id, and there is none exactly when no process has that id |
| ProcessesWorkspace.InitialShowsFirst | src/app/processes/ProcessesWorkspace.tsx:27-46 | the page opens on the first process, or on nothing for an empty list |
| ProcessesWorkspace.SelectShows | src/app/processes/ProcessesWorkspace.tsx:43-46 | with unique ids, selecting an entry shows exactly that process |
| ProcessesWorkspace.OneMarked | src/app/processes/ProcessesWorkspace.tsx:87 | with unique ids at most one entry carries the `selected` mark, and it is the process the preview shows |
| ProcessesWorkspace.CountLabelSingular | src/app/processes/ProcessesWorkspace.tsx:78 | the count reads `process` exactly for one process and `processes` otherwise |
| ProcessesWorkspace.Workspace.constructor | src/app/processes/ProcessesWorkspace.tsx:27-28 | the first render selects the first process and opens the panel |
| ProcessesWorkspace.Workspace.Mount | src/app/processes/ProcessesWorkspace.tsx:30-41 | a stored flag decides the panel (`'1'` opens, any other value closes, no value keeps it open), then the flag is written back under `processes-panel:open` and nothing else in storage changes |
| ProcessesWorkspace.Workspace.Toggle | src/app/processes/ProcessesWorkspace.tsx:61 | the toggle flips the panel flag and writes it back, leaving the rest of storage alone |
| ProcessesWorkspace.Workspace.Select | src/app/processes/ProcessesWorkspace.tsx:88 | selecting an entry records its id |
| ProcessesWorkspace.StoredReadsBack | src/app/processes/ProcessesWorkspace.tsx:34-40 | a flag written by the page reads back as itself on the next mount |
| LoginPage.NextUrl | src/app/login/page.tsx:10 | the return path is the `next` parameter when it is non-empty, and `/` otherwise |
| LoginPage.SessionRedirect | src/app/login/page.tsx:19-24 | the page leaves at once exactly when a session exists, and then for the return path |
| LoginPage.LoginReturnsToRequest | src/app/login/page.tsx:10 | a request the middleware sends to `/login` comes back, after signing in, to the path and query it asked for |
| LoginPage.FullNameIsLocalPart | src/app/login/page.tsx:38 | sign-up's full name is the address up to its first `@`, or the whole address when it has none |
| LoginPage.ResetLinkReachesNewPassword | src/app/login/page.tsx:56-60 | the reset link carries the address as `em` to `/auth/recovery`, which forwards it to `/auth/new-password` with no invitation to accept |
| LoginPage.Page.constructor | src/app/login/page.tsx:12-16 | the page starts in sign-in mode, idle and without an error |
| LoginPage.Page.ToggleMode | src/app/login/page.tsx:90 | the mode button switches between sign-in and sign-up |
| LoginPage.Page.Submit | src/app/login/page.tsx:26-49 | the identity-service call matches the mode (sign-up adds the full name); success leaves for the return path; a failure shows the service's message or `Authentication error`; the page ends idle |
| LoginPage.Page.SendReset | src/app/login/page.tsx:51-66 | without an address nothing is sent and `Enter your email first` is shown; otherwise the reset mail is asked for with the recovery link, success alerts and a failure shows the service's message or `Failed to send reset email` |
| Store.RowsOfUser | src/app/api/org/members/route.ts:58-62 | the rows selected by user are exactly the table's rows of that user |
| Store.RowsOfOrg | src/app/api/org/members/route.ts:34-37 | the rows selected by organisation are exactly the table's rows of that organisation, never more than the table |
| Store.FirstOfUser | src/app/api/org/members/route.ts:25-30 | the limited lookup finds a membership of the user, and none exactly when the user has no row |
| Store.OnlyOfUser | src/app/api/org/members/route.ts:58-62 | the unlimited single-row lookup answers only when the user has exactly one membership; with several it gives nothing |
| Store.Lookup | src/app/api/org/members/route.ts:72 | the lookup by organisation and user finds a row with that key, and under unique keys finds none only when there is no such row |
| Store.SingleKey | src/app/api/org/members/route.ts:72 | under unique keys a present key selects exactly one row |
| Store.CountRole | src/app/api/org/members/route.ts:79 | a role count never exceeds the number of rows |
| Store.UsedEditors | src/app/api/org/members/route.ts:78 | the editor seats in use never exceed the number of rows |
| Store.SeatsPartition | src/app/api/org/members/route.ts:78-79 | every member takes exactly one seat: owners and editors count as editor seats, viewers as viewer seats, and the two add up to the member count |
| Store.UpdateRole | src/app/api/org/members/route.ts:91-95 | the update keeps the row count and gives the new role to exactly the rows with the key, leaving the others as they were |
| Store.UpdateRoleFrame | src/app/api/org/members/route.ts:91-95 | a role update keeps every row's key and `can_edit`, keeps the keys unique exactly when they were, and changes only rows with the given key, giving them the new role |
| Store.DeleteMember | src/app/api/org/members/route.ts:118-122 | the delete removes exactly the rows with the key and keeps all others |
| Store.DeleteKeepsKeys | src/app/api/org/members/route.ts:118-122 | deleting keeps keys unique |
| Store.InsertKeepsKeys | src/app/api/invites/accept/route.ts:41-48 | inserting a row whose key is absent keeps keys unique |
| Store.MarkInvite | src/app/api/invites/accept/route.ts:56-59 | the accepted marker changes only the invitation with that id, records the user and the time, and a failed update changes nothing |
| Store.DepartementsOfOrgMembers | src/app/api/org/departements/route.ts:33-36 | the departements listed are exactly the organisation's |
| Store.DepartementsOfOrgAll | src/app/processes/ProcessItem.tsx:33-36 | a list of one organisation's departements is left as it is by the organisation filter |
| Store.FindDepartement | src/app/processes/parts/ProcessPreview.tsx:60 | `find` answers a departement of the list with that id, and none exactly when no departement has it |
| Store.FindDepartementFirst | src/app/processes/parts/ProcessPreview.tsx:60 | `find` answers the first departement with that id |
| Store.DepartementsWithId | src/app/api/processes/route.ts:52-56 | the rows selected by id are exactly the departements with that id |
| Store.DepartementById | src/app/api/processes/route.ts:52-56 | the single-row lookup answers a departement with that id exactly when one row has it, and an error otherwise |
| Store.Rename | src/app/api/org/name/route.ts:50-53 | the rename changes only the named organisation's name and keeps the set of organisations |
| Store.Database.InsertMember | src/app/api/invites/accept/route.ts:41-48 | an insert of an existing key is refused with the duplicate-key message and changes nothing; otherwise a store fault is reported and changes nothing, or the row is appended |
| Store.Database.MarkAccepted | src/app/api/invites/accept/route.ts:56-59 | the invitations become the marked invitations, and nothing else changes |
| Store.Database.InsertDepartement | src/app/api/org/departements/route.ts:63-67 | the departement is appended unless the store reports a fault |
| Store.Database.InsertProcess | src/app/api/processes/route.ts:73-77 | the process is appended unless the store reports a fault |
| Store.Database.RenameOrg | src/app/api/org/name/route.ts:50-53 | the organisations are renamed unless the store reports a fault |
| Store.Database.SetRole | src/app/api/org/members/route.ts:91-97 | the members take the role update unless the store reports a fault, which leaves them unchanged |
| Store.Database.RemoveMember | src/app/api/org/members/route.ts:118-124 | the members lose the key's rows unless the store reports a fault, which leaves them unchanged |
| Store.DepartementsOfOrgAppend | src/app/processes/ProcessForm.tsx:17-20 | the organisation filter keeps the table order: it distributes over concatenation |
| Query.FirstIndex | src/app/auth/cb/page.tsx:8 | the first position holding the name: no earlier parameter has it, and it is the length exactly when the name is absent |
| Query.Get | src/app/auth/cb/page.tsx:8 | `get` answers a value exactly when the name is present, and that value belongs to a parameter with the name |
| Query.GetOr | src/app/auth/cb/page.tsx:8 | reading a name with a default gives the default or a non-empty value of the name |
| Query.Delete | src/components/Toaster.tsx:21-22 | `delete` leaves no parameter with the name, never adds any, and changes nothing when the name is absent |
| Query.DeleteOthers | src/components/Toaster.tsx:21-22 | deleting one name keeps every other name's value and count |
| Query.CountDelete | src/components/Toaster.tsx:21-22 | no parameter with the deleted name is left |
| Query.Set | src/app/auth/cb/page.tsx:16 | `set` gives the name a value: the pairs before its first occurrence stay, that occurrence (or the end) holds the new pair, and at most one pair is added |
| Query.SetGet | src/app/auth/cb/page.tsx:16 | after `set` the name has exactly one parameter, holding the new value |
| Query.SetReplaces | src/app/auth/cb/page.tsx:16 | a name already present is replaced in place by one parameter with the new value |
| Query.SetOther | src/app/auth/cb/page.tsx:16 | `set` leaves every other name's value alone |
| Query.SetFresh | src/middleware.ts:44 | setting an absent name appends it |
| Query.DeleteGet | src/components/Toaster.tsx:21-22 | after `delete` the name reads as absent and other names read as before |
| Query.GetConcat | src/app/auth/cb/page.tsx:15 | a name is read from the first part of a list that has it |
| Query.Parse | src/app/auth/cb/page.tsx:15 | the `URLSearchParams` constructor; its contract is `ParseSerialize` and the piece lemmas beside it |
| Query.ParsePairPiece | src/app/auth/cb/page.tsx:17 | one serialised parameter holds no `&` and parses back to itself |
| Query.ParseEncodedPiece | src/app/api/auth/begin-password/route.ts:14-15 | a hand-built `name=` piece with an `encodeURIComponent` value parses back to that name and value |
| Query.ParseSerialize | src/app/auth/cb/page.tsx:15-17 | `new URLSearchParams(q.toString())` gives back exactly the parameters of `q`, in order |
| Query.Serialize | src/app/auth/cb/page.tsx:17 | `q.toString()`; its contracts are `ParseSerialize`, `SerializeEmpty` and `SerializeFree` |
| Query.SerializeEmpty | src/app/auth/cb/page.tsx:17 | the serialised text is empty exactly when there are no parameters |
| Query.SerializeFree | src/app/auth/cb/page.tsx:17 | the serialised text holds no character the form encoding escapes, such as `?` or `#` |
| Query.ParseWithQuery | src/app/auth/recovery/page.tsx:8-9 | a path, then the serialised parameters when there are any, reads back as that path and those parameters |
| Query.ParseQueryTarget | src/app/auth/cb/page.tsx:17 | a link built as `path?` and serialised parameters reads back as that path and those parameters |
| Query.TargetOfOnePiece | src/components/Sidebar.tsx:38 | a link built by hand with one encoded parameter reads back as that path and that parameter |
| Query.TargetOfTwoPieces | src/app/org/OrgNameForm.tsx:23 | a link built by hand with two encoded parameters reads back as that path and those two parameters |
| Query.PresentOnlyKeys | src/app/auth/cb/page.tsx:29 | the forwarded parameters carry only the listed names |
| Query.GetPresent | src/app/auth/cb/page.tsx:29 | a listed name is forwarded with its value exactly when that value is non-empty |
| Query.CopyPresent | src/app/auth/cb/page.tsx:29 | the loop appends, in list order, every listed name whose value is non-empty, and keeps what the query held |
| UrlCoding.Utf8 | src/components/Sidebar.tsx:38 | a character is written as one to four UTF-8 bytes: ASCII as itself, any other as a lead byte and continuation bytes |
| UrlCoding.DecodeUtf8String | src/components/Toaster.tsx:18 | decoding the UTF-8 bytes of a text gives back the text, with no malformed sequence |
| UrlCoding.HexValueDigit | src/components/Toaster.tsx:18 | every hexadecimal digit written by the encoder reads back as its value |
| UrlCoding.Encode | src/components/Sidebar.tsx:38 | `encodeURIComponent` and the form serialisation: the encoding is never shorter than the text |
| UrlCoding.EncodeSafe | src/components/Sidebar.tsx:38 | the encoded text holds only characters that are safe in a link |
| UrlCoding.EncodeAppend | src/components/Sidebar.tsx:38 | encoding works character by character: it distributes over concatenation |
| UrlCoding.EncodeEmpty | src/components/Sidebar.tsx:38 | the encoding is empty exactly when the text is |
| UrlCoding.EncodeKept | src/app/auth/cb/page.tsx:17 | a text of characters the scheme keeps is written unchanged |
| UrlCoding.PercentDecodeEncode | src/components/Toaster.tsx:15 | percent-decoding an encoded text gives its UTF-8 bytes |
| UrlCoding.FormDecodeEncode | src/components/Toaster.tsx:15 | reading a parameter back with form decoding gives exactly the encoded text |
| UrlCoding.StrictDecodeEncode | src/components/Toaster.tsx:18 | strict percent-decoding of an `encodeURIComponent` text succeeds with its UTF-8 bytes |
| UrlCoding.UriDecode | src/components/Toaster.tsx:18 | `decodeURIComponent`, throwing on a malformed escape; its contracts are `UriDecodeEncode`, `UriDecodePlain` and `UriDecodeMalformed` |
| UrlCoding.UriDecodeEncode | src/components/Toaster.tsx:18 | `decodeURIComponent(encodeURIComponent(s))` is `s` |
| UrlCoding.UriDecodePlain | src/components/Toaster.tsx:18 | a text without `%` is left unchanged by `decodeURIComponent` |
| UrlCoding.UriDecodeMalformed | src/components/Toaster.tsx:18 | a text ending in a lone `%` makes `decodeURIComponent` throw |
| Text.Lower | src/app/api/invites/accept/route.ts:36-37 | `toLowerCase` keeps the length, leaves no ASCII capital and changes no other character |
| Text.LowerIdempotent | src/app/api/invites/accept/route.ts:36-37 | lower-casing twice is lower-casing once |
| Text.LowerPrefix | src/app/api/invites/accept/route.ts:51 | lower-casing works character by character: it commutes with taking a prefix |
| Text.TrimStartFacts | src/app/api/processes/route.ts:31 | the start trim drops only whitespace and leaves a suffix that does not begin with whitespace |
| Text.TrimEndFacts | src/app/api/processes/route.ts:31 | the end trim drops only whitespace and leaves a prefix that does not end with whitespace |
| Text.Trim | src/app/api/processes/route.ts:31 | `trim()` is never longer than its input and neither begins nor ends with whitespace |
| Text.TrimInfix | src/app/api/processes/route.ts:31 | `trim()` is the infix left after the leading and the trailing whitespace |
| Text.TrimEmptyIffBlank | src/app/api/org/departements/route.ts:48 | the trimmed text is empty exactly when the text is all whitespace |
| Text.ContainsIff | src/app/api/invites/accept/route.ts:52 | `includes` holds exactly when the text occurs at some position |
| Text.ContainsNeedsChar | src/app/api/invites/accept/route.ts:52 | a text lacking one of the sought characters cannot include the sought text |
| Text.IndexOf | src/app/auth/cb/page.tsx:23 | the first position of a character, the length exactly when it is absent |
| Text.Split | src/app/login/page.tsx:38 | `split` gives at least one part and no part holds the separator |
| Text.SplitFree | src/app/login/page.tsx:38 | a text without the separator splits into itself |
| Text.SplitJoin | src/app/processes/ProcessItem.tsx:77 | joining parts free of the separator and splitting again gives the parts back |
| Text.JoinSplit | src/app/processes/parts/ProcessPreview.tsx:67-74 | splitting and joining again gives the text back |
| Text.SplitHead | src/app/login/page.tsx:38 | the first part is the text up to the first separator, or the whole text without one |
| Text.NatToString | src/app/processes/ProcessItem.tsx:26 | a number is written as a non-empty run of digits |
| Text.DigitsValueOfNat | src/app/processes/ProcessItem.tsx:26 | the digits of a number read back as the number |
| Text.ParseInt | src/app/processes/ProcessForm.tsx:37 | `Number(s)` on integer text: a number only for digits with at most a leading minus, negative only with the minus, and a non-negative number for any digit string |
| Text.ParseIntToString | src/app/processes/ProcessItem.tsx:50 | `Number(id.toString())` is the id again, negative ids included |
| Text.Utf16Length | src/app/api/auth/password/route.ts:26 | a text's length in UTF-16 units is at least its character count and at most twice it |

## Left out

- Calls into the identity service. Sign-in, sign-up, OTP verification, code exchange, `setSession`, `updateUser`, `inviteUserByEmail`, `resetPasswordForEmail` and `signOut` are external. Each answer is a parameter (`Outcome` or a reply datatype) chosen by the caller of the model.
- Reads of the current session during polling. These are a sequence of booleans, one per check; a check past its end finds no session.
- Supabase client construction, cookie adapters and row-level security. They are library code. The tables are read as if row-level security allowed every row the query names.
- Timers and delays: the toaster's dismissal timeout and the waits between session checks. Only the order of events and the number of checks are modelled. The `Promise.all` fan-outs are read one after another.
- Mermaid script loading and rendering, and the formatting of `updated_at` dates. These are DOM, CDN and platform date-library work. Only the diagram text is modelled.
- `confirm` and `alert` dialogs. A confirmation is a boolean parameter, and an alert is a returned text.
- `router.refresh`, React effect scheduling and re-rendering. Each effect is one method call made at the point the component would run it.
- Exceptions from `fetch`, `res.json()` and `localStorage`. A body that cannot be parsed is an absent body where the route handles that case. Network failures are a refused `Outcome`.
- Console logging. It has no effect on results.
- `AuthAcceptPage.Resolution`: does not model an identity call or session read that throws. The page's `catch` shows the exception's message, or `Erreur inattendue` without one (src/app/auth/accept/page.tsx:86-87). The outcome parameters only answer or refuse.
- `DepartementsRoute.SortByName`: compares names by character code. PostgreSQL orders them by the database's collation. Departements with equal names keep their table order here, which the database leaves unspecified.
- JSON numbers (`Json.Value.Num`) are integers. The processes route takes any number as `departement_id` (src/app/api/processes/route.ts:31-32), so a fraction such as `1.5` passes its type test and then finds no departement. Such a body is not modelled.
- Store errors on reads that the code ignores, such as the data of a failed `maybeSingle`. These reads are modelled as returning no row, as the code then sees them.
- The email join of the member list (`users:auth.users(email)`). It is a map from user id to address.
- Role values outside owner, editor and viewer in a PATCH body. The body's role is the `Role` type. A request with another string is not modelled.
- `Text.Lower`: maps only ASCII letters. The JavaScript `toLowerCase` also maps letters outside ASCII, which the email comparison of acceptance could see.
- `Text.ParseInt`: gives `Number(s)` only for decimal integer text, and `NaN` (sent as `null`) for everything else. The forms only send the text of a departement id. Fractions, exponents, hexadecimal and surrounding spaces are not modelled.
- `UrlCoding.DecodeUtf8`: writes one replacement character for each byte it cannot decode. The WHATWG decoder writes one for each maximal ill-formed subsequence. The lemmas only decode texts that the application itself encodes, where the two agree.
- The pages and routes that only pass data through are not part of this model: the roles and departement-item routes, the profile, reset-password and member-list pages, the header, the logout route and page, the mailer, and `src/app/processes/actions.ts`. Of the callback route, only the `next` default matters here, and it is shown by the callback page.
- The invitation-creation route. It always answers 410. Nothing here creates invitations, so duplicate-invitation handling does not arise.
- The middleware's `matcher` pattern and the build configuration. They are configuration and are not modelled.
